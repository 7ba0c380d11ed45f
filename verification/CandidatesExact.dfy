/** Which candidates a document may cite, and with which fields, told from the manifest and the registry. */
module CandidatesExact {
  import opened Basics
  import opened Units
  import opened Validation
  import opened Candidates

  /** The keywords with one space between neighbours. */
  lemma {:induction false} JointExact(a: seq<string>, b: seq<string>)
    ensures Joint([]) == ""
    ensures |a| == 1 ==> Joint(a) == a[0]
    ensures a != [] && b != [] ==> Joint(a + b) == Joint(a) + " " + Joint(b)
  {
    if |a| == 1 {
      assert (a + b)[1..] == b;
    } else if a != [] && b != [] {
      assert (a + b)[0] == a[0] && (a + b)[1..] == a[1..] + b;
      JointExact(a[1..], b);
    }
  }

  /** The terms candidate i shares with the title and the first 4000 characters of the text. */
  ghost function Shared(m: Manifest, title: string, text: string, i: nat): set<string>
    requires i < |m.candidates|
  {
    var c := m.candidates[i];
    m.terms(c.title + " " + c.summary + " " + Joint(c.keywords)) *
    m.terms(title + " " + if |text| <= 4000 then text else text[..4000])
  }

  ghost function Limit(m: Manifest): nat {
    if m.maxCandidates <= |m.candidates| then m.maxCandidates else |m.candidates|
  }

  /** i shares more terms than j, or as many and stands before it. */
  ghost predicate Ahead(m: Manifest, title: string, text: string, i: nat, j: nat)
    requires i < |m.candidates| && j < |m.candidates|
  {
    |Shared(m, title, text, i)| > |Shared(m, title, text, j)|
    || (|Shared(m, title, text, i)| == |Shared(m, title, text, j)| && i < j)
  }

  ghost predicate InRange(m: Manifest, picks: seq<nat>) {
    forall p :: 0 <= p < |picks| ==> picks[p] < |m.candidates|
  }

  /** As many as allowed, each ahead of the next, and every other candidate behind them all. */
  ghost predicate TakesBest(m: Manifest, title: string, text: string, picks: seq<nat>)
    requires InRange(m, picks)
  {
    && |picks| == Limit(m)
    && (forall p, q :: 0 <= p < q < |picks| ==> Ahead(m, title, text, picks[p], picks[q]))
    && (forall p, j :: 0 <= p < |picks| && 0 <= j < |m.candidates| && j !in picks ==> Ahead(m, title, text, picks[p], j))
  }

  /** The first defaults of the manifest, in its order, as many as allowed. */
  ghost predicate TakesDefaults(m: Manifest, picks: seq<nat>)
    requires InRange(m, picks)
  {
    && |picks| <= Limit(m)
    && (forall p :: 0 <= p < |picks| ==> m.candidates[picks[p]].isDefault)
    && (forall p, q :: 0 <= p < q < |picks| ==> picks[p] < picks[q])
    && (forall i :: 0 <= i < |m.candidates| && m.candidates[i].isDefault && i !in picks ==>
          |picks| == Limit(m) && forall p :: 0 <= p < |picks| ==> picks[p] < i)
  }

  /** Pick p is of a registered source within the tier cap, and no earlier such pick has its source and title. */
  ghost function Shown(m: Manifest, sources: Registry, picks: seq<nat>): nat -> bool
    requires InRange(m, picks)
  {
    p => 0 <= p < |picks| && Citable(m, sources, picks[p])
         && forall q :: 0 <= q < p && Citable(m, sources, picks[q]) ==>
              m.candidates[picks[q]].source != m.candidates[picks[p]].source
              || m.candidates[picks[q]].title != m.candidates[picks[p]].title
  }

  ghost predicate Citable(m: Manifest, sources: Registry, i: nat)
    requires i < |m.candidates|
  {
    m.candidates[i].source in sources && sources[m.candidates[i].source].tier <= m.tierMax
  }

  /** c has the id, tier and citation form of configured candidate i's source, and i's own fields. */
  ghost predicate Renders(m: Manifest, sources: Registry, i: nat, c: Candidate)
    requires i < |m.candidates|
  {
    var f := m.candidates[i];
    && f.source in sources
    && c.sourceId == sources[f.source].id && c.tier == sources[f.source].tier && c.citationForm == sources[f.source].citationForm
    && c.locator == f.locator && c.title == f.title && c.period == f.period && c.summary == f.summary
  }

  /** at lists the shown picks, and the candidates are their renderings in that order. */
  ghost predicate Offered(m: Manifest, sources: Registry, picks: seq<nat>, at: seq<nat>, out: seq<Candidate>)
    requires InRange(m, picks)
  {
    && Lists(at, |picks|, Shown(m, sources, picks)) && |out| == |at|
    && forall n :: 0 <= n < |at| ==> Renders(m, sources, picks[at[n]], out[n])
  }

  /** The whole selection for a title and text. */
  ghost predicate Selection(m: Manifest, sources: Registry, title: string, text: string, picks: seq<nat>, at: seq<nat>, out: seq<Candidate>) {
    && InRange(m, picks) && Offered(m, sources, picks, at, out)
    && if exists i :: 0 <= i < |m.candidates| && Shared(m, title, text, i) != {} then TakesBest(m, title, text, picks)
       else TakesDefaults(m, picks)
  }

  lemma ScoresShared(m: Manifest, title: string, text: string)
    ensures var scores := Scores(m, m.terms(ArticleText(title, text)));
            forall i :: 0 <= i < |scores| ==> scores[i] == |Shared(m, title, text, i)|
  {
    assert text[..|text|] == text;
  }

  lemma BestTaken(m: Manifest, title: string, text: string, r: seq<nat>)
    requires Ranking(Scores(m, m.terms(ArticleText(title, text))), r)
    ensures InRange(m, r[..Limit(m)]) && TakesBest(m, title, text, r[..Limit(m)])
  {
    var scores := Scores(m, m.terms(ArticleText(title, text)));
    ScoresShared(m, title, text);
    assert |scores| == |m.candidates|;
    hide Shared, Scores, ArticleText;
    var picks := r[..Limit(m)];
    forall p, j | 0 <= p < |picks| && 0 <= j < |m.candidates| && j !in picks
      ensures Ahead(m, title, text, picks[p], j)
    {
      var q := PlaceOf(scores, |scores|, r, j);
      assert picks == r[..|picks|];
      assert q >= |picks|;
      assert Better(scores, r[p], r[q]);
    }
    forall p, q | 0 <= p < q < |picks|
      ensures Ahead(m, title, text, picks[p], picks[q])
    {
      assert Better(scores, r[p], r[q]);
    }
  }

  lemma {:induction false} DefaultsAscend(cs: seq<Configured>)
    ensures var d := DefaultIndices(cs);
            && (forall p :: 0 <= p < |d| ==> d[p] < |cs| && cs[d[p]].isDefault)
            && (forall p, q :: 0 <= p < q < |d| ==> d[p] < d[q])
            && (forall i :: 0 <= i < |cs| && cs[i].isDefault ==> i in d)
  {
    if cs != [] { DefaultsAscend(Front(cs)); }
  }

  lemma DefaultsTaken(m: Manifest, picks: seq<nat>)
    requires picks == DefaultIndices(m.candidates)[..Min(Limit(m), |DefaultIndices(m.candidates)|)]
    ensures InRange(m, picks) && TakesDefaults(m, picks)
  {
    DefaultsAscend(m.candidates);
    var d := DefaultIndices(m.candidates);
    forall i | 0 <= i < |m.candidates| && m.candidates[i].isDefault && i !in picks
      ensures |picks| == Limit(m) && forall p :: 0 <= p < |picks| ==> picks[p] < i
    {
      var q :| 0 <= q < |d| && d[q] == i;
      assert picks == d[..|picks|];
      assert q >= |picks|;
    }
  }

  lemma PicksOffered(m: Manifest, sources: Registry, picks: seq<nat>, out: seq<Candidate>) returns (at: seq<nat>)
    requires (forall i :: i in picks ==> i < |m.candidates|) && RendersAll(sources, Kept(m, sources, Picked(m, picks)), out)
    ensures InRange(m, picks) && Offered(m, sources, picks, at, out)
  {
    var cs, key, ok := Picked(m, picks), KeyOf(), EligibleIn(m, sources);
    KeepExact(cs, key, ok);
    at := FirstIndices(cs, key, ok);
    assert forall p :: 0 <= p < |picks| ==> picks[p] in picks && cs[p] == m.candidates[picks[p]];
    hide FirstIndices, Keep;
    forall p | 0 <= p < |picks|
      ensures FirstOk(cs, key, ok, p) <==> Shown(m, sources, picks)(p)
    {
      assert forall q :: 0 <= q <= p ==> (ok(cs[q]) <==> Citable(m, sources, picks[q]));
      assert forall q :: 0 <= q <= p ==> key(cs[q]) == SourceTitle(m.candidates[picks[q]].source, m.candidates[picks[q]].title);
    }
  }

  /**
   * The candidates a document gets: the best by shared terms, or the first defaults when
   * none shares a term; of those, each citable source and title once, with every field of
   * the configured candidate and of its source.
   */
  lemma SelectsExactly(m: Manifest, sources: Registry, title: string, text: string, picks: seq<nat>, out: seq<Candidate>)
    requires Selects(m, sources, title, text, picks, out)
    ensures exists at :: Selection(m, sources, title, text, picks, at, out)
  {
    var at := PicksOffered(m, sources, picks, out);
    var scores := Scores(m, m.terms(ArticleText(title, text)));
    ScoresShared(m, title, text);
    hide Shared, Scores, ArticleText, Offered, TakesBest, TakesDefaults;
    if Overlapping(scores) {
      var r :| Ranking(scores, r) && picks == r[..Min(m.maxCandidates, |scores|)];
      BestTaken(m, title, text, r);
    } else {
      DefaultsTaken(m, picks);
    }
    assert Selection(m, sources, title, text, picks, at, out);
  }
}
