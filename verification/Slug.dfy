/** Document titles as slugs: the one-pass builder against "the words joined by hyphens". */
module Slug {
  import opened Basics
  import opened Validation

  /** Lowercasing and white space are Unicode tables the model only constrains on slug characters. */
  datatype Unicode = Unicode(lower: char -> char, space: char -> bool)

  ghost predicate Standard(u: Unicode) {
    forall c :: SlugHead(c) || c == '-' ==> u.lower(c) == c && !u.space(c)
  }

  /** Accented Latin letters to their base form. */
  function Fold(c: char): char {
    if c in {'á', 'à', 'â', 'ä', 'ã', 'å'} then 'a'
    else if c in {'é', 'è', 'ê', 'ë'} then 'e'
    else if c in {'í', 'ì', 'î', 'ï'} then 'i'
    else if c in {'ó', 'ò', 'ô', 'ö', 'õ'} then 'o'
    else if c in {'ú', 'ù', 'û', 'ü'} then 'u'
    else if c == 'ñ' then 'n'
    else if c == 'ç' then 'c'
    else if c in {'ý', 'ÿ'} then 'y'
    else c
  }

  function TrimLeft(s: string, cut: char -> bool): string {
    if s != "" && cut(s[0]) then TrimLeft(s[1..], cut) else s
  }

  function TrimRight(s: string, cut: char -> bool): string {
    if s != "" && cut(Last(s)) then TrimRight(Front(s), cut) else s
  }

  function Trim(s: string, cut: char -> bool): string {
    TrimRight(TrimLeft(s, cut), cut)
  }

  function IsHyphen(): char -> bool {
    (c: char) => c == '-'
  }

  // ---------------------------------------------------------- the simple form

  /** The maximal runs of slug characters, in order. */
  ghost function Words(s: string): (ws: seq<string>)
    ensures s != "" && SlugHead(Last(s)) ==> ws != []
  {
    if s == "" then []
    else
      var before := Words(Front(s));
      if !SlugHead(Last(s)) then before
      else if Front(s) != "" && SlugHead(Last(Front(s))) then Front(before) + [Last(before) + [Last(s)]]
      else before + [[Last(s)]]
  }

  ghost function Hyphenated(ws: seq<string>): string {
    if ws == [] then "" else if |ws| == 1 then ws[0] else Hyphenated(Front(ws)) + "-" + Last(ws)
  }

  /** The title trimmed, lowercased and folded. */
  function Folded(u: Unicode, s: string): string {
    seq(|s|, i requires 0 <= i < |s| => Fold(u.lower(s[i])))
  }

  /** The words of a title. */
  ghost function TitleWords(u: Unicode, title: string): seq<string> {
    Words(Folded(u, Trim(title, u.space)))
  }

  ghost function SlugOf(u: Unicode, title: string): string {
    var ws := TitleWords(u, title);
    if ws == [] then "untitled" else Hyphenated(ws)
  }

  // ------------------------------------------------------------ the builder

  ghost predicate AllSlug(w: string) {
    w != "" && forall i :: 0 <= i < |w| ==> SlugHead(w[i])
  }

  ghost predicate AllWords(ws: seq<string>) {
    forall i :: 0 <= i < |ws| ==> AllSlug(ws[i])
  }

  lemma {:induction false} WordsAreWords(s: string)
    ensures AllWords(Words(s))
    decreases |s|
  {
    if s != "" { WordsAreWords(Front(s)); }
  }

  lemma HyphenatedAppend(ws: seq<string>, w: string)
    ensures Hyphenated(ws + [w]) == if ws == [] then w else Hyphenated(ws) + "-" + w
  {
    assert Front(ws + [w]) == ws;
  }

  lemma Regroup(a: string, b: string, c: char)
    ensures a + (b + [c]) == (a + b) + [c]
  {
  }

  lemma HyphenatedExtend(ws: seq<string>, c: char)
    requires ws != []
    ensures Hyphenated(Front(ws) + [Last(ws) + [c]]) == Hyphenated(ws) + [c]
  {
    hide Hyphenated;
    HyphenatedAppend(Front(ws), Last(ws) + [c]);
    HyphenatedAppend(Front(ws), Last(ws));
    assert Front(ws) + [Last(ws)] == ws;
    Regroup(Hyphenated(Front(ws)) + "-", Last(ws), c);
  }

  lemma {:induction false} HyphenatedEnds(ws: seq<string>)
    requires AllWords(ws) && ws != []
    ensures Hyphenated(ws) != "" && SlugHead(Hyphenated(ws)[0]) && SlugHead(Last(Hyphenated(ws)))
    decreases |ws|
  {
    assert AllSlug(ws[0]) && AllSlug(Last(ws));
    if |ws| > 1 {
      HyphenatedEnds(Front(ws));
      var h := Hyphenated(ws);
      assert h[0] == Hyphenated(Front(ws))[0];
      assert Last(h) == Last(Last(ws));
    }
  }

  lemma TrimKeeps(s: string, cut: char -> bool)
    requires s != "" && !cut(s[0]) && !cut(Last(s))
    ensures Trim(s, cut) == s
  {
  }

  lemma TrimTail(s: string, cut: char -> bool, c: char)
    requires s != "" && !cut(s[0]) && !cut(Last(s)) && cut(c)
    ensures Trim(s + [c], cut) == s
  {
    var t := s + [c];
    assert t[0] == s[0] && Last(t) == c && Front(t) == s;
    assert TrimRight(t, cut) == TrimRight(s, cut);
  }

  method Slugify(u: Unicode, title: string) returns (out: string)
    ensures out == SlugOf(u, title)
  {
    var runes := Folded(u, Trim(title, u.space));
    var slug := "";
    var upper := false;
    for i := 0 to |runes|
      invariant slug == Hyphenated(Words(runes[..i])) + if upper then "-" else ""
      invariant upper <==> Words(runes[..i]) != [] && !SlugHead(runes[i - 1])
    {
      FrontOfPrefix(runes, i);
      ghost var before := Words(runes[..i]);
      WordsAreWords(runes[..i]);
      if before != [] { HyphenatedEnds(before); }
      var r := runes[i];
      if 'a' <= r <= 'z' || '0' <= r <= '9' {
        ExtendWords(runes, i);
        slug := slug + [r];
        upper := false;
      } else if !upper && |slug| > 0 {
        slug := slug + "-";
        upper := true;
      }
    }
    assert runes[..|runes|] == runes;
    ghost var ws := Words(runes);
    WordsAreWords(runes);
    if ws != [] {
      HyphenatedEnds(ws);
      TrimKeeps(Hyphenated(ws), IsHyphen());
      TrimTail(Hyphenated(ws), IsHyphen(), '-');
    }
    out := Trim(slug, IsHyphen());
    if out == "" {
      out := "untitled";
    }
  }

  /** One more slug character continues the last word or starts a new one. */
  lemma ExtendWords(runes: string, i: nat)
    requires i < |runes| && SlugHead(runes[i])
    ensures var before, now := Words(runes[..i]), Words(runes[..i + 1]);
            Hyphenated(now) == Hyphenated(before) +
                               (if before != [] && !SlugHead(runes[i - 1]) then "-" else "") + [runes[i]]
    ensures i == 0 ==> Words(runes[..i]) == []
    ensures i > 0 && SlugHead(runes[i - 1]) ==> Words(runes[..i]) != []
  {
    FrontOfPrefix(runes, i);
    var before, now := Words(runes[..i]), Words(runes[..i + 1]);
    if i > 0 { FrontOfPrefix(runes, i - 1); }
    if i > 0 && SlugHead(runes[i - 1]) {
      assert now == Front(before) + [Last(before) + [runes[i]]];
      HyphenatedExtend(before, runes[i]);
    } else {
      assert now == before + [[runes[i]]];
      HyphenatedAppend(before, [runes[i]]);
    }
  }

  // -------------------------------------------------------------- properties

  /** No leading, trailing or doubled hyphen, and nothing but slug characters between them. */
  ghost predicate SlugShape(s: string) {
    && s != "" && SlugHead(s[0]) && SlugHead(Last(s))
    && (forall i :: 0 <= i < |s| ==> SlugHead(s[i]) || s[i] == '-')
    && (forall i :: 0 < i < |s| ==> SlugHead(s[i - 1]) || SlugHead(s[i]))
  }

  lemma {:induction false} HyphenatedShape(ws: seq<string>)
    requires AllWords(ws) && ws != []
    ensures SlugShape(Hyphenated(ws))
    decreases |ws|
  {
    assert AllSlug(Last(ws)) && AllSlug(ws[0]);
    if |ws| > 1 {
      HyphenatedShape(Front(ws));
      var h, f, w := Hyphenated(ws), Hyphenated(Front(ws)), Last(ws);
      assert h == f + "-" + w;
      forall i | 0 <= i < |h|
        ensures SlugHead(h[i]) || h[i] == '-'
        ensures i > 0 ==> SlugHead(h[i - 1]) || SlugHead(h[i])
      {
        if i < |f| {
          assert h[i] == f[i] && (i > 0 ==> h[i - 1] == f[i - 1]);
        } else if i > |f| {
          assert h[i] == w[i - |f| - 1];
        } else {
          assert h[i - 1] == Last(f);
        }
      }
      assert Last(h) == Last(w) && h[0] == f[0];
    }
  }

  /** Every title's slug has slug shape; in particular it is a valid record id. */
  lemma SlugHasShape(u: Unicode, title: string)
    ensures SlugShape(SlugOf(u, title)) && IsSlug(SlugOf(u, title))
  {
    var ws := Words(Folded(u, Trim(title, u.space)));
    WordsAreWords(Folded(u, Trim(title, u.space)));
    if ws != [] { HyphenatedShape(ws); }
  }

  // ------------------------------------------------- words and collisions

  /** A slug word behind a separator, or at the start, is the last word. */
  lemma {:induction false} WordsBehind(h: string, w: string)
    requires AllSlug(w) && (h == "" || !SlugHead(Last(h)))
    ensures Words(h + w) == Words(h) + [w]
    decreases |w|
  {
    var f := Front(w);
    assert Front(h + w) == h + f && Last(h + w) == Last(w);
    if f == "" {
      assert h + f == h && w == [Last(w)];
    } else {
      WordsBehind(h, f);
      assert Last(h + f) == Last(f) && f + [Last(w)] == w;
    }
  }

  /** Joining words by hyphens loses nothing. */
  lemma {:induction false} WordsOfHyphenated(ws: seq<string>)
    requires AllWords(ws)
    ensures Words(Hyphenated(ws)) == ws
    decreases |ws|
  {
    if ws != [] {
      var w, f := Last(ws), Front(ws);
      assert AllSlug(w) && ws == f + [w];
      if f == [] {
        WordsBehind("", w);
        assert "" + w == w;
      } else {
        WordsOfHyphenated(f);
        var h := Hyphenated(f) + "-";
        assert Front(h) == Hyphenated(f) && Words(h) == f;
        WordsBehind(h, w);
      }
    }
  }

  /** A title without words goes by the name it is given. */
  ghost function Named(ws: seq<string>): seq<string> {
    if ws == [] then ["untitled"] else ws
  }

  lemma SlugIsNamed(u: Unicode, title: string)
    ensures Words(SlugOf(u, title)) == Named(TitleWords(u, title))
    ensures SlugOf(u, title) == Hyphenated(Named(TitleWords(u, title)))
  {
    var ws := Named(TitleWords(u, title));
    WordsAreWords(Folded(u, Trim(title, u.space)));
    assert AllSlug("untitled");
    assert AllWords(ws);
    WordsOfHyphenated(ws);
  }

  /** Slugging a slug changes nothing. */
  lemma SlugIdempotent(u: Unicode, title: string)
    requires Standard(u)
    ensures SlugOf(u, SlugOf(u, title)) == SlugOf(u, title)
  {
    var s := SlugOf(u, title);
    SlugHasShape(u, title);
    assert !u.space(s[0]) && !u.space(Last(s));
    TrimKeeps(s, u.space);
    forall i | 0 <= i < |s|
      ensures Fold(u.lower(s[i])) == s[i]
    {
      assert SlugHead(s[i]) || s[i] == '-';
    }
    assert Folded(u, s) == s;
    SlugIsNamed(u, title);
    assert TitleWords(u, s) == Named(TitleWords(u, title));
  }

  /** Two titles slug alike exactly when they have the same words; one without any counts as "untitled". */
  lemma SlugsCollide(u: Unicode, a: string, b: string)
    ensures SlugOf(u, a) == SlugOf(u, b) <==> Named(TitleWords(u, a)) == Named(TitleWords(u, b))
  {
    SlugIsNamed(u, a);
    SlugIsNamed(u, b);
  }

  /** Different titles can share a slug. */
  lemma TitlesCollide(u: Unicode) returns (a: string, b: string)
    requires Standard(u)
    ensures a != b && SlugOf(u, a) == SlugOf(u, b)
  {
    a, b := "a-b", "a--b";
    TrimKeeps(a, u.space);
    TrimKeeps(b, u.space);
    assert Folded(u, a) == a && Folded(u, b) == b;
    assert Front(a) == "a-" && Front(b) == "a--" && Front("a--") == "a-" && Front("a-") == "a" && Front("a") == "";
  }
}
