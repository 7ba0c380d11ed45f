/** A title's slug told from its characters: which runs become words, and how they are joined. */
module SlugWords {
  import opened Basics
  import opened Validation
  import opened Slug
  import opened ValidationExact

  const ACCENTED := "áàâäãåéèêëíìîïóòôöõúùûüñçýÿ"
  const PLAIN    := "aaaaaaeeeeiiiiooooouuuuncyy"

  /** An accented letter of the table gives its plain form, any other character itself. */
  ghost predicate FoldsTo(c: char, d: char) {
    if c in ACCENTED then exists i :: 0 <= i < |ACCENTED| && ACCENTED[i] == c && PLAIN[i] == d else d == c
  }

  ghost predicate Letter(c: char) {
    c in "abcdefghijklmnopqrstuvwxyz0123456789"
  }

  /** ws are the maximal runs of letters and digits of f, in order; run k lies at spans[k]. */
  ghost predicate Runs(f: string, spans: seq<(nat, nat)>, ws: seq<string>) {
    && |ws| == |spans| && (forall k :: 0 <= k < |spans| ==> Run(f, spans[k], ws[k]))
    && (forall j, k :: 0 <= j < k < |spans| ==> spans[j].1 < spans[k].0)
    && (forall i :: 0 <= i < |f| && Letter(f[i]) ==> Covered(spans, i))
  }

  ghost predicate Run(f: string, at: (nat, nat), w: string) {
    && at.0 < at.1 <= |f| && w == f[at.0..at.1] && (forall i :: at.0 <= i < at.1 ==> Letter(f[i]))
    && (at.0 > 0 ==> !Letter(f[at.0 - 1])) && (at.1 < |f| ==> !Letter(f[at.1]))
  }

  ghost predicate Covered(spans: seq<(nat, nat)>, i: nat) {
    exists k :: 0 <= k < |spans| && spans[k].0 <= i < spans[k].1
  }

  /** The words with one hyphen between neighbours. */
  ghost function Dashed(ws: seq<string>): string {
    if ws == [] then "" else if |ws| == 1 then ws[0] else ws[0] + "-" + Dashed(ws[1..])
  }

  /** f is the title without the space around it, each character lowercased and unaccented. */
  ghost predicate Plain(u: Unicode, title: string, f: string) {
    exists a, b :: PlainAt(u, title, f, a, b)
  }

  ghost predicate PlainAt(u: Unicode, title: string, f: string, a: nat, b: nat) {
    && a <= b <= |title| && |f| == b - a && (forall i :: 0 <= i < |f| ==> FoldsTo(u.lower(title[a + i]), f[i]))
    && (forall i :: 0 <= i < |title| && (i < a || b <= i) ==> u.space(title[i]))
    && (a < b ==> !u.space(title[a]) && !u.space(title[b - 1]))
  }

  ghost predicate SlugIs(u: Unicode, title: string, out: string) {
    exists f, spans, ws :: Plain(u, title, f) && Runs(f, spans, ws) && out == if ws == [] then "untitled" else Dashed(ws)
  }

  // ------------------------------------------------------------------ the table

  lemma PlainLow(i: nat)
    requires i < 14
    ensures PLAIN[i] == Fold(ACCENTED[i])
  {
  }

  lemma PlainHigh(i: nat)
    requires 14 <= i < |ACCENTED|
    ensures PLAIN[i] == Fold(ACCENTED[i])
  {
  }

  lemma Unlisted(c: char)
    requires c !in ACCENTED
    ensures Fold(c) == c
  {
    var low, high := ACCENTED[..14], ACCENTED[14..];
    assert low == "áàâäãåéèêëíìîï" && high == "óòôöõúùûüñçýÿ" && ACCENTED == low + high;
  }

  lemma FoldExact(c: char)
    ensures FoldsTo(c, Fold(c))
  {
    hide Fold;
    if c in ACCENTED {
      var i :| 0 <= i < |ACCENTED| && ACCENTED[i] == c;
      if i < 14 { PlainLow(i); } else { PlainHigh(i); }
    } else {
      Unlisted(c);
    }
  }

  // ------------------------------------------------------------------- the words

  lemma {:induction false} DashedAppend(ws: seq<string>, w: string)
    requires ws != []
    ensures Dashed(ws + [w]) == Dashed(ws) + "-" + w
    decreases |ws|
  {
    assert (ws + [w])[0] == ws[0] && (ws + [w])[1..] == ws[1..] + [w];
    if |ws| > 1 { DashedAppend(ws[1..], w); }
  }

  lemma {:induction false} HyphenatedIsDashed(ws: seq<string>)
    ensures Hyphenated(ws) == Dashed(ws)
    decreases |ws|
  {
    if |ws| > 1 {
      HyphenatedIsDashed(Front(ws));
      DashedAppend(Front(ws), Last(ws));
      assert ws == Front(ws) + [Last(ws)];
    }
  }

  lemma RunKept(s: string, at: (nat, nat), w: string)
    requires s != "" && Run(Front(s), at, w) && (!Letter(Last(s)) || at.1 < |s| - 1)
    ensures Run(s, at, w)
  {
    hide Letter;
  }

  /** The word at the end of s without its last character grows by it. */
  lemma RunGrows(s: string, at: (nat, nat), w: string)
    requires s != "" && Run(Front(s), at, w) && Letter(Last(s)) && at.1 == |s| - 1
    ensures Run(s, (at.0, |s|), w + [Last(s)])
  {
    hide Letter;
  }

  lemma {:induction false} WordsRun(s: string) returns (spans: seq<(nat, nat)>)
    ensures Runs(s, spans, Words(s))
    decreases |s|
  {
    spans := [];
    if s != "" {
      var f, n := Front(s), |s| - 1;
      SlugHeadIn(Last(s));
      var before := WordsRun(f);
      var ws := Words(f);
      if !SlugHead(Last(s)) {
        spans := before;
        KeepAll(s, before, ws);
      } else if f != "" && SlugHead(Last(f)) {
        SlugHeadIn(Last(f));
        spans := Front(before) + [(Last(before).0, |s|)];
        GrowLast(s, before, ws);
      } else {
        if f != "" { SlugHeadIn(Last(f)); }
        spans := before + [(n, |s|)];
        AddRun(s, before, ws);
      }
    }
  }

  lemma KeepAll(s: string, spans: seq<(nat, nat)>, ws: seq<string>)
    requires s != "" && Runs(Front(s), spans, ws) && !Letter(Last(s))
    ensures Runs(s, spans, ws)
  {
    hide Letter;
    forall k | 0 <= k < |spans| ensures Run(s, spans[k], ws[k]) { RunKept(s, spans[k], ws[k]); }
    hide Run, Covered;
    forall i | 0 <= i < |s| && Letter(s[i]) ensures Covered(spans, i) {
      assert i < |s| - 1 && Front(s)[i] == s[i];
    }
  }

  lemma RunsInOrder(f: string, spans: seq<(nat, nat)>, ws: seq<string>)
    requires Runs(f, spans, ws)
    ensures forall j :: 0 <= j < |spans| ==> spans[j].1 <= |f| && (j < |spans| - 1 ==> spans[j].1 < |f|)
  {
    hide Letter, Covered;
    forall j | 0 <= j < |spans|
      ensures spans[j].1 <= |f| && (j < |spans| - 1 ==> spans[j].1 < |f|)
    {
      assert Run(f, spans[j], ws[j]);
      assert Run(f, spans[|spans| - 1], ws[|spans| - 1]);
      assert j < |spans| - 1 ==> spans[j].1 < spans[|spans| - 1].0;
    }
  }

  lemma CoveredMore(spans: seq<(nat, nat)>, more: (nat, nat), i: nat)
    ensures Covered(spans, i) || more.0 <= i < more.1 ==> Covered(spans + [more], i)
  {
    var all := spans + [more];
    if more.0 <= i < more.1 {
      assert all[|spans|].0 <= i < all[|spans|].1;
    } else if k :| 0 <= k < |spans| && spans[k].0 <= i < spans[k].1 {
      assert all[k].0 <= i < all[k].1;
    }
  }

  /** The last run of a text that ends in a letter or digit ends with the text. */
  lemma LastRun(f: string, spans: seq<(nat, nat)>, ws: seq<string>)
    requires f != "" && Runs(f, spans, ws) && Letter(Last(f))
    ensures spans != [] && Last(spans).1 == |f|
  {
    hide Letter;
    var n := |f| - 1;
    assert Covered(spans, n);
    RunsInOrder(f, spans, ws);
    hide Runs;
    var k :| 0 <= k < |spans| && spans[k].0 <= n < spans[k].1;
  }

  lemma GrowLast(s: string, before: seq<(nat, nat)>, ws: seq<string>)
    requires s != "" && Front(s) != "" && Runs(Front(s), before, ws) && Letter(Last(s)) && Letter(Last(Front(s)))
    ensures before != [] && ws != [] && Runs(s, Front(before) + [(Last(before).0, |s|)], Front(ws) + [Last(ws) + [Last(s)]])
  {
    hide Letter;
    LastRun(Front(s), before, ws);
    var spans, now := Front(before) + [(Last(before).0, |s|)], Front(ws) + [Last(ws) + [Last(s)]];
    var m := |before| - 1;
    forall k | 0 <= k < |spans|
      ensures Run(s, spans[k], now[k])
    {
      if k < m {
        assert before[k].1 < before[m].0 && Run(Front(s), before[m], ws[m]);
        RunKept(s, before[k], ws[k]);
      } else {
        RunGrows(s, before[m], ws[m]);
      }
    }
    assert Run(Front(s), before[m], ws[m]);
    forall i | 0 <= i < |s| && Letter(s[i])
      ensures Covered(spans, i)
    {
      assert i < |s| - 1 ==> Front(s)[i] == s[i];
      StillCovered(before, |s|, i);
    }
    hide Run, Covered;
  }

  /** Stretching the last span keeps what was covered, and covers what it reaches. */
  lemma StillCovered(spans: seq<(nat, nat)>, end: nat, i: nat)
    requires spans != [] && Last(spans).1 <= end && i < end
    ensures Covered(spans, i) || Last(spans).0 <= i ==> Covered(Front(spans) + [(Last(spans).0, end)], i)
  {
    CoveredMore(Front(spans), (Last(spans).0, end), i);
    if k :| 0 <= k < |spans| && spans[k].0 <= i < spans[k].1 {
      assert k < |spans| - 1 ==> Front(spans)[k] == spans[k];
    }
  }

  lemma EndsBefore(f: string, at: (nat, nat), w: string)
    requires Run(f, at, w) && (f == "" || !Letter(Last(f)))
    ensures at.1 < |f|
  {
    hide Letter;
  }

  lemma AddRun(s: string, before: seq<(nat, nat)>, ws: seq<string>)
    requires s != "" && Runs(Front(s), before, ws) && Letter(Last(s))
    requires Front(s) == "" || !Letter(Last(Front(s)))
    ensures Runs(s, before + [(|s| - 1, |s|)], ws + [[Last(s)]])
  {
    hide Letter, Covered, Run;
    var n, spans, now := |s| - 1, before + [(|s| - 1, |s|)], ws + [[Last(s)]];
    forall k | 0 <= k < |before|
      ensures before[k].1 < n && Run(s, before[k], ws[k])
    {
      EndsBefore(Front(s), before[k], ws[k]);
      RunKept(s, before[k], ws[k]);
    }
    NewRun(s);
    forall i | 0 <= i < |s| && Letter(s[i])
      ensures Covered(spans, i)
    {
      CoveredMore(before, (n, |s|), i);
      assert i < n ==> Front(s)[i] == s[i];
    }
  }

  lemma NewRun(s: string)
    requires s != "" && Letter(Last(s)) && (Front(s) == "" || !Letter(Last(Front(s))))
    ensures Run(s, (|s| - 1, |s|), [Last(s)])
  {
    hide Letter;
  }

  // -------------------------------------------------------------------- the slug

  lemma {:induction false} TrimLeftAt(s: string, cut: char -> bool) returns (a: nat)
    ensures a <= |s| && TrimLeft(s, cut) == s[a..] && (forall i :: 0 <= i < a ==> cut(s[i])) && (a < |s| ==> !cut(s[a]))
    decreases |s|
  {
    a := 0;
    if s != "" && cut(s[0]) {
      var b := TrimLeftAt(s[1..], cut);
      a := b + 1;
      assert forall i :: 0 < i < |s| ==> s[i] == s[1..][i - 1];
    }
  }

  lemma {:induction false} TrimRightAt(s: string, cut: char -> bool) returns (b: nat)
    ensures b <= |s| && TrimRight(s, cut) == s[..b] && (forall i :: b <= i < |s| ==> cut(s[i])) && (b > 0 ==> !cut(s[b - 1]))
    decreases |s|
  {
    b := |s|;
    if s != "" && cut(Last(s)) {
      b := TrimRightAt(Front(s), cut);
      assert forall i :: 0 <= i < |s| - 1 ==> s[i] == Front(s)[i];
    }
  }

  lemma FoldedIsPlain(u: Unicode, title: string)
    ensures Plain(u, title, Folded(u, Trim(title, u.space)))
  {
    var a := TrimLeftAt(title, u.space);
    var l := title[a..];
    var b := TrimRightAt(l, u.space);
    var f := Folded(u, Trim(title, u.space));
    forall i | 0 <= i < |f|
      ensures FoldsTo(u.lower(title[a + i]), f[i])
    {
      assert l[..b][i] == title[a + i];
      FoldExact(u.lower(title[a + i]));
    }
    forall i | 0 <= i < |title| && (i < a || a + b <= i)
      ensures u.space(title[i])
    {
      if i >= a { assert l[i - a] == title[i]; }
    }
    assert b > 0 ==> l[0] == title[a] && l[b - 1] == title[a + b - 1];
    assert PlainAt(u, title, f, a, a + b);
  }

  /**
   * The slug of a title is its words joined by hyphens, the words being the maximal runs of
   * letters a to z and digits in the title stripped, lowercased and unaccented; a title
   * without words is called "untitled".
   */
  lemma SlugExactly(u: Unicode, title: string)
    ensures SlugIs(u, title, SlugOf(u, title))
  {
    var f := Folded(u, Trim(title, u.space));
    FoldedIsPlain(u, title);
    var spans := WordsRun(f);
    HyphenatedIsDashed(Words(f));
    hide Plain, Runs, Dashed, Hyphenated;
  }
}
