/** Narrowing the configured citation candidates to the ones one document may cite. */
module Candidates {
  import opened Basics
  import opened Units
  import opened ValidationLoops

  /** A registered source; the registry is keyed by id. */
  datatype Source = Source(id: string, tier: int, citationForm: string)

  datatype Configured = Configured(
    source: string, title: string, summary: string, keywords: seq<string>,
    locator: Locator, period: string, isDefault: bool)

  /** The manifest: parsing has replaced a non-positive cap by its default. terms is the tokenizer. */
  datatype Manifest = Manifest(candidates: seq<Configured>, maxCandidates: nat, tierMax: int, terms: string -> set<string>)

  type Registry = map<string, Source>

  /** Sources are keyed by their ids, which come from text columns and hold no NUL. */
  ghost predicate KeyedById(sources: Registry) {
    forall k :: k in sources ==> sources[k].id == k && NUL !in k
  }

  // ---------------------------------------------------------------- scores

  function Joint(words: seq<string>): string {
    if words == [] then "" else if |words| == 1 then words[0] else words[0] + " " + Joint(words[1..])
  }

  function SurfaceText(c: Configured): string {
    c.title + " " + c.summary + " " + Joint(c.keywords)
  }

  function ArticleText(title: string, text: string): string {
    title + " " + text[..Min(|text|, 4000)]
  }

  /** The number of terms the candidate shares with the article. */
  ghost function Overlap(m: Manifest, article: set<string>, c: Configured): nat {
    |m.terms(SurfaceText(c)) * article|
  }

  ghost function Scores(m: Manifest, article: set<string>): seq<nat> {
    seq(|m.candidates|, i requires 0 <= i < |m.candidates| => Overlap(m, article, m.candidates[i]))
  }

  method Score(terms: set<string>, article: set<string>) returns (score: nat)
    ensures score == |terms * article|
  {
    score := 0;
    var left := terms;
    assert terms * article == {} + left * article;
    while left != {}
      invariant left <= terms && score + |left * article| == |terms * article|
      decreases |left|
    {
      var term :| term in left;
      if term in article {
        score := score + 1;
        assert left * article == (left - {term}) * article + {term};
      } else {
        assert left * article == (left - {term}) * article;
      }
      left := left - {term};
    }
  }

  // --------------------------------------------------------------- ranking

  /** Score descending, then index ascending. */
  predicate Better(scores: seq<nat>, i: nat, j: nat)
    requires i < |scores| && j < |scores|
  {
    scores[i] > scores[j] || (scores[i] == scores[j] && i < j)
  }

  ghost predicate Ranks(scores: seq<nat>, n: nat, r: seq<nat>)
    requires n <= |scores|
  {
    && |r| == n
    && (forall p :: 0 <= p < n ==> r[p] < n)
    && (forall p, q :: 0 <= p < q < n ==> Better(scores, r[p], r[q]))
    && (forall i :: 0 <= i < n ==> i in r)
  }

  /** All indices, best first. */
  ghost predicate Ranking(scores: seq<nat>, r: seq<nat>) {
    Ranks(scores, |scores|, r)
  }

  lemma PlaceOf(scores: seq<nat>, n: nat, r: seq<nat>, i: nat) returns (p: nat)
    requires n <= |scores| && Ranks(scores, n, r) && i < n
    ensures p < |r| && r[p] == i
  {
    assert i in r;
    p :| 0 <= p < |r| && r[p] == i;
  }

  /** The stable sort: each index goes behind the ones with at least its score. */
  method SortStable(scores: seq<nat>) returns (ranked: seq<nat>)
    ensures Ranking(scores, ranked)
  {
    ranked := [];
    for i := 0 to |scores|
      invariant Ranks(scores, i, ranked)
    {
      var p := 0;
      while p < |ranked| && scores[ranked[p]] >= scores[i]
        invariant p <= |ranked| && forall q :: 0 <= q < p ==> scores[ranked[q]] >= scores[i]
      {
        p := p + 1;
      }
      Insertion(scores, i, ranked, p);
      ranked := ranked[..p] + [i] + ranked[p..];
    }
  }

  lemma Insertion(scores: seq<nat>, i: nat, r: seq<nat>, p: nat)
    requires i < |scores| && Ranks(scores, i, r) && p <= |r|
    requires forall q :: 0 <= q < p ==> scores[r[q]] >= scores[i]
    requires p < |r| ==> scores[r[p]] < scores[i]
    ensures Ranks(scores, i + 1, r[..p] + [i] + r[p..])
  {
    var s := r[..p] + [i] + r[p..];
    assert forall q :: 0 <= q < p ==> s[q] == r[q];
    assert forall q :: p < q <= i ==> s[q] == r[q - 1];
    forall q | p <= q < |r|
      ensures Better(scores, i, r[q])
    {
      assert q == p || Better(scores, r[p], r[q]);
    }
    forall j | 0 <= j < i + 1
      ensures j in s
    {
      if j < i {
        var q := PlaceOf(scores, i, r, j);
        assert s[if q < p then q else q + 1] == j;
      } else {
        assert s[p] == i;
      }
    }
  }

  /** The candidates better than i. */
  ghost function BetterThan(scores: seq<nat>, i: nat): set<nat>
    requires i < |scores|
  {
    set j | 0 <= j < |scores| && Better(scores, j, i)
  }

  ghost function Elements(r: seq<nat>): set<nat> {
    set x | x in r
  }

  lemma {:induction false} DistinctSize(scores: seq<nat>, r: seq<nat>, p: nat)
    requires Ranking(scores, r) && p <= |r|
    ensures |Elements(r[..p])| == p
  {
    if p > 0 {
      DistinctSize(scores, r, p - 1);
      assert r[..p] == r[..p - 1] + [r[p - 1]];
      assert Elements(r[..p]) == Elements(r[..p - 1]) + {r[p - 1]};
      assert r[p - 1] !in r[..p - 1];
    }
  }

  /** Place p goes to the candidate with exactly p better ones. */
  lemma PlaceExact(scores: seq<nat>, r: seq<nat>, p: nat)
    requires Ranking(scores, r) && p < |r|
    ensures |BetterThan(scores, r[p])| == p
  {
    forall j
      ensures j in BetterThan(scores, r[p]) <==> j in Elements(r[..p])
    {
      if j in BetterThan(scores, r[p]) {
        var q := PlaceOf(scores, |scores|, r, j);
        assert q < p;
        assert r[..p][q] == j;
      }
      if j in Elements(r[..p]) {
        var q :| 0 <= q < p && r[..p][q] == j;
        assert Better(scores, r[q], r[p]);
      }
    }
    assert BetterThan(scores, r[p]) == Elements(r[..p]);
    DistinctSize(scores, r, p);
  }

  /** A document has one ranking, and its first k places hold exactly the candidates with fewer than k better ones. */
  lemma TopKExact(scores: seq<nat>, r: seq<nat>, k: nat)
    requires Ranking(scores, r) && k <= |scores|
    ensures forall i :: 0 <= i < |scores| ==> (i in r[..k] <==> |BetterThan(scores, i)| < k)
    ensures forall other :: Ranking(scores, other) ==> other == r
  {
    forall i | 0 <= i < |scores|
      ensures i in r[..k] <==> |BetterThan(scores, i)| < k
    {
      var p := PlaceOf(scores, |scores|, r, i);
      PlaceExact(scores, r, p);
      if p < k {
        assert r[..k][p] == i;
      }
      if i in r[..k] {
        var q :| 0 <= q < k && r[..k][q] == i;
        PlaceExact(scores, r, q);
      }
    }
    forall other | Ranking(scores, other)
      ensures other == r
    {
      forall p | 0 <= p < |r|
        ensures other[p] == r[p]
      {
        var q := PlaceOf(scores, |scores|, other, r[p]);
        PlaceExact(scores, r, p);
        PlaceExact(scores, other, q);
      }
    }
  }

  // --------------------------------------------------------------- choosing

  ghost predicate Overlapping(scores: seq<nat>) {
    exists i :: 0 <= i < |scores| && scores[i] > 0
  }

  ghost function DefaultIndices(cs: seq<Configured>): seq<nat> {
    if cs == [] then [] else DefaultIndices(Front(cs)) + if Last(cs).isDefault then [|cs| - 1] else []
  }

  /** The top slice of a document that overlaps any candidate, else the first defaults. */
  ghost predicate Chosen(m: Manifest, scores: seq<nat>, chosen: seq<nat>)
    requires |scores| == |m.candidates|
  {
    var keep := Min(m.maxCandidates, |scores|);
    if Overlapping(scores) then
      exists r :: Ranking(scores, r) && chosen == r[..keep]
    else
      chosen == DefaultIndices(m.candidates)[..Min(keep, |DefaultIndices(m.candidates)|)]
  }

  method AnyPositive(scores: seq<nat>, picks: seq<nat>) returns (any: bool)
    requires forall p :: 0 <= p < |picks| ==> picks[p] < |scores|
    ensures any <==> exists p :: 0 <= p < |picks| && scores[picks[p]] > 0
  {
    for p := 0 to |picks|
      invariant forall q :: 0 <= q < p ==> scores[picks[q]] == 0
    {
      if scores[picks[p]] > 0 {
        return true;
      }
    }
    return false;
  }

  /** A positive score in the top slice is a positive score anywhere: the slice starts with the best. */
  lemma SliceOverlaps(scores: seq<nat>, r: seq<nat>, keep: nat)
    requires Ranking(scores, r) && keep <= |r| && (keep > 0 || |r| == 0)
    ensures (exists p :: 0 <= p < keep && scores[r[..keep][p]] > 0) <==> Overlapping(scores)
  {
    if i :| 0 <= i < |scores| && scores[i] > 0 {
      var p := PlaceOf(scores, |scores|, r, i);
      assert p == 0 || Better(scores, r[0], r[p]);
      assert scores[r[..keep][0]] > 0;
    }
  }

  method Choose(m: Manifest, scores: seq<nat>) returns (chosen: seq<nat>)
    requires |scores| == |m.candidates| && m.maxCandidates > 0
    ensures Chosen(m, scores, chosen)
  {
    var ranked := SortStable(scores);
    var keep := m.maxCandidates;
    if keep > |ranked| {
      keep := |ranked|;
    }
    chosen := ranked[..keep];
    SliceOverlaps(scores, ranked, keep);
    var any := AnyPositive(scores, chosen);
    if !any {
      var defaults := [];
      for i := 0 to |m.candidates|
        invariant defaults == DefaultIndices(m.candidates[..i])
      {
        FrontOfPrefix(m.candidates, i);
        if m.candidates[i].isDefault {
          defaults := defaults + [i];
        }
      }
      assert m.candidates[..|m.candidates|] == m.candidates;
      assert defaults[..|defaults|] == defaults;
      if |defaults| > keep {
        defaults := defaults[..keep];
      }
      chosen := defaults;
    }
  }

  lemma {:induction false} DefaultsInRange(cs: seq<Configured>)
    ensures forall i :: i in DefaultIndices(cs) <==> 0 <= i < |cs| && cs[i].isDefault
  {
    if cs != [] { DefaultsInRange(Front(cs)); }
  }

  lemma ChosenInRange(m: Manifest, scores: seq<nat>, chosen: seq<nat>)
    requires |scores| == |m.candidates| && Chosen(m, scores, chosen)
    ensures |chosen| <= m.maxCandidates && forall i :: i in chosen ==> i < |m.candidates|
  {
    DefaultsInRange(m.candidates);
    forall i | i in chosen
      ensures i < |m.candidates|
    {
      var p :| 0 <= p < |chosen| && chosen[p] == i;
      if Overlapping(scores) {
        var r :| Ranking(scores, r) && chosen == r[..Min(m.maxCandidates, |scores|)];
        assert r[p] == i;
      } else {
        assert DefaultIndices(m.candidates)[p] == i;
        assert i in DefaultIndices(m.candidates);
      }
    }
  }

  // -------------------------------------------------------------- rendering

  ghost function Picked(m: Manifest, chosen: seq<nat>): seq<Configured>
    requires forall i :: i in chosen ==> i < |m.candidates|
  {
    seq(|chosen|, p requires 0 <= p < |chosen| => assert chosen[p] in chosen; m.candidates[chosen[p]])
  }

  predicate Eligible(m: Manifest, sources: Registry, c: Configured) {
    c.source in sources && sources[c.source].tier <= m.tierMax
  }

  ghost function EligibleIn(m: Manifest, sources: Registry): Configured -> bool {
    (c: Configured) => Eligible(m, sources, c)
  }

  datatype SourceTitle = SourceTitle(source: string, title: string)

  ghost function KeyOf(): Configured -> SourceTitle {
    (c: Configured) => SourceTitle(c.source, c.title)
  }

  function Rendered(sources: Registry, c: Configured): Candidate
    requires c.source in sources
  {
    var s := sources[c.source];
    Candidate(s.id, s.tier, s.citationForm, c.locator, c.title, c.period, c.summary)
  }

  /** The eligible picks, the first per source and title. */
  ghost function Kept(m: Manifest, sources: Registry, picks: seq<Configured>): seq<Configured> {
    Keep(picks, KeyOf(), EligibleIn(m, sources))
  }

  ghost predicate RendersAll(sources: Registry, cs: seq<Configured>, out: seq<Candidate>) {
    |out| == |cs| && forall n :: 0 <= n < |cs| ==> cs[n].source in sources && out[n] == Rendered(sources, cs[n])
  }

  function SeenKey(c: Configured): string {
    c.source + [NUL] + c.title
  }

  lemma SeenKeyInjective(c: Configured, d: Configured)
    requires NUL !in c.source && NUL !in d.source && SeenKey(c) == SeenKey(d)
    ensures c.source == d.source && c.title == d.title
  {
    SplitAtNul(c.source, c.title, d.source, d.title);
  }

  /** seen holds the keys of the eligible picks so far. */
  ghost predicate SeenOf(m: Manifest, sources: Registry, picks: seq<Configured>, seen: set<string>) {
    && (forall p :: 0 <= p < |picks| && Eligible(m, sources, picks[p]) ==> SeenKey(picks[p]) in seen)
    && (forall k :: k in seen ==> exists p :: 0 <= p < |picks| && Eligible(m, sources, picks[p]) && SeenKey(picks[p]) == k)
  }

  lemma SeenMeansTaken(m: Manifest, sources: Registry, picks: seq<Configured>, seen: set<string>)
    requires KeyedById(sources) && picks != [] && SeenOf(m, sources, Front(picks), seen) && Eligible(m, sources, Last(picks))
    ensures SeenKey(Last(picks)) in seen <==> !FirstOk(picks, KeyOf(), EligibleIn(m, sources), |picks| - 1)
  {
    var f, c := Front(picks), Last(picks);
    if SeenKey(c) in seen {
      var p :| 0 <= p < |f| && Eligible(m, sources, f[p]) && SeenKey(f[p]) == SeenKey(c);
      SeenKeyInjective(f[p], c);
      assert picks[p] == f[p];
    }
    if !FirstOk(picks, KeyOf(), EligibleIn(m, sources), |picks| - 1) {
      var p :| 0 <= p < |picks| - 1 && EligibleIn(m, sources)(picks[p]) && KeyOf()(picks[p]) == KeyOf()(c);
      assert f[p] == picks[p];
    }
  }

  /** The candidates out are the rendering of a choice the manifest makes for the text. */
  ghost predicate Selects(m: Manifest, sources: Registry, title: string, text: string, chosen: seq<nat>, out: seq<Candidate>) {
    && Chosen(m, Scores(m, m.terms(ArticleText(title, text))), chosen)
    && (forall i :: i in chosen ==> i < |m.candidates|)
    && RendersAll(sources, Kept(m, sources, Picked(m, chosen)), out)
  }

  /** selectCandidates: score, sort, cut, fall back, then render each eligible pick once. */
  method SelectCandidates(m: Manifest, title: string, text: string, sources: Registry)
    returns (candidates: seq<Candidate>)
    requires KeyedById(sources) && m.maxCandidates > 0
    ensures exists chosen :: Selects(m, sources, title, text, chosen, candidates)
  {
    var article := m.terms(ArticleText(title, text));
    var scores: seq<nat> := [];
    for i := 0 to |m.candidates|
      invariant |scores| == i && forall j :: 0 <= j < i ==> scores[j] == Overlap(m, article, m.candidates[j])
    {
      var score := Score(m.terms(SurfaceText(m.candidates[i])), article);
      scores := scores + [score];
    }
    assert scores == Scores(m, article);
    var picks := Choose(m, scores);
    ChosenInRange(m, scores, picks);
    candidates := Render(m, sources, picks);
    assert Selects(m, sources, title, text, picks, candidates);
  }

  method Render(m: Manifest, sources: Registry, chosen: seq<nat>) returns (candidates: seq<Candidate>)
    requires KeyedById(sources) && forall i :: i in chosen ==> i < |m.candidates|
    ensures RendersAll(sources, Kept(m, sources, Picked(m, chosen)), candidates)
  {
    candidates := [];
    var seen: set<string> := {};
    ghost var picks := Picked(m, chosen);
    for p := 0 to |chosen|
      invariant RendersAll(sources, Kept(m, sources, picks[..p]), candidates)
      invariant SeenOf(m, sources, picks[..p], seen)
    {
      assert chosen[p] in chosen;
      var config := m.candidates[chosen[p]];
      assert config == picks[p];
      FrontOfPrefix(picks, p);
      if config.source !in sources || sources[config.source].tier > m.tierMax {
        continue;
      }
      SeenMeansTaken(m, sources, picks[..p + 1], seen);
      if SeenKey(config) in seen {
        continue;
      }
      seen := seen + {SeenKey(config)};
      candidates := candidates + [Rendered(sources, config)];
    }
    assert picks[..|chosen|] == picks;
  }

  lemma PicksAre(m: Manifest, sources: Registry, chosen: seq<nat>, out: seq<Candidate>)
    requires KeyedById(sources)
    requires (forall i :: i in chosen ==> i < |m.candidates|) && RendersAll(sources, Kept(m, sources, Picked(m, chosen)), out)
    ensures forall c :: c in out ==> c.tier <= m.tierMax && exists i :: i in chosen && Cites(m, i, c)
  {
    var picks := Picked(m, chosen);
    var kept := Kept(m, sources, picks);
    KeepKeys(picks, KeyOf(), EligibleIn(m, sources));
    forall c | c in out
      ensures c.tier <= m.tierMax && exists i :: i in chosen && Cites(m, i, c)
    {
      var n :| 0 <= n < |out| && out[n] == c;
      assert kept[n] in kept;
      var p :| 0 <= p < |picks| && picks[p] == kept[n];
      assert chosen[p] in chosen;
      assert Cites(m, chosen[p], c);
    }
  }

  /** The rendered candidate is the configured candidate i. */
  ghost predicate Cites(m: Manifest, i: nat, c: Candidate) {
    i < |m.candidates| && m.candidates[i].source == c.sourceId && m.candidates[i].title == c.title
  }

  lemma PicksCited(m: Manifest, sources: Registry, chosen: seq<nat>, out: seq<Candidate>, i: nat)
    requires (forall i :: i in chosen ==> i < |m.candidates|)
    requires KeyedById(sources) && RendersAll(sources, Kept(m, sources, Picked(m, chosen)), out)
    requires i in chosen && Eligible(m, sources, m.candidates[i])
    ensures exists c :: c in out && Cites(m, i, c)
  {
    var picks := Picked(m, chosen);
    var kept := Kept(m, sources, picks);
    KeepKeys(picks, KeyOf(), EligibleIn(m, sources));
    var p :| 0 <= p < |chosen| && chosen[p] == i;
    assert EligibleIn(m, sources)(picks[p]);
    var n :| 0 <= n < |kept| && KeyOf()(kept[n]) == KeyOf()(picks[p]);
    assert out[n] in out && Cites(m, i, out[n]);
  }

  lemma TitlesDistinct(m: Manifest, sources: Registry, picks: seq<Configured>, out: seq<Candidate>)
    requires KeyedById(sources) && RendersAll(sources, Kept(m, sources, picks), out)
    ensures forall a, b :: 0 <= a < b < |out| ==> out[a].sourceId != out[b].sourceId || out[a].title != out[b].title
  {
    var kept := Kept(m, sources, picks);
    KeepKeys(picks, KeyOf(), EligibleIn(m, sources));
    forall a, b | 0 <= a < b < |out|
      ensures out[a].sourceId != out[b].sourceId || out[a].title != out[b].title
    {
      assert KeyOf()(kept[a]) != KeyOf()(kept[b]);
    }
  }

  /**
   * What a unit may cite: at most the configured number of candidates, each from a chosen
   * candidate within the tier cap, no source and title twice, and every eligible chosen
   * candidate represented.
   */
  lemma SelectionSound(m: Manifest, sources: Registry, scores: seq<nat>, chosen: seq<nat>, out: seq<Candidate>)
    requires KeyedById(sources) && |scores| == |m.candidates| && Chosen(m, scores, chosen)
    requires (forall i :: i in chosen ==> i < |m.candidates|) && RendersAll(sources, Kept(m, sources, Picked(m, chosen)), out)
    ensures |out| <= m.maxCandidates
    ensures forall c :: c in out ==> c.tier <= m.tierMax && exists i :: i in chosen && Cites(m, i, c)
    ensures forall a, b :: 0 <= a < b < |out| ==> out[a].sourceId != out[b].sourceId || out[a].title != out[b].title
    ensures forall i :: i in chosen && Eligible(m, sources, m.candidates[i]) ==> exists c :: c in out && Cites(m, i, c)
  {
    ChosenInRange(m, scores, chosen);
    KeepShort(Picked(m, chosen), KeyOf(), EligibleIn(m, sources));
    hide *;
    PicksAre(m, sources, chosen, out);
    TitlesDistinct(m, sources, Picked(m, chosen), out);
    forall i | i in chosen && Eligible(m, sources, m.candidates[i])
      ensures exists c :: c in out && Cites(m, i, c)
    {
      PicksCited(m, sources, chosen, out, i);
    }
  }

  lemma {:induction false} KeepShort<T, K>(s: seq<T>, key: T -> K, ok: T -> bool)
    ensures |Keep(s, key, ok)| <= |s|
  {
    if s != [] { KeepShort(Front(s), key, ok); }
  }
}
