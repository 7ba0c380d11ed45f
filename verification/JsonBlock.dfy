/** Finding the JSON object in a model response: fences, prose, and exactly when wrapping is undone. */
module JsonBlock {
  import opened Basics
  import opened Slug

  const TICK := '`'

  // -------------------------------------------------------------- searching

  predicate FenceAt(s: string, i: nat) {
    i + 2 < |s| && s[i] == TICK && s[i + 1] == TICK && s[i + 2] == TICK
  }

  /** The first three backticks in a row. */
  function FindFence(s: string): (r: Option<nat>)
    ensures r.Some? ==> FenceAt(s, r.value)
  {
    if s == "" then None
    else if FenceAt(s, 0) then Some(0)
    else match FindFence(s[1..]) case None => None case Some(i) => Some(i + 1)
  }

  /** Splitting on the fence. */
  function Split(s: string): (pieces: seq<string>)
    ensures pieces != []
    decreases |s|
  {
    match FindFence(s)
    case None => [s]
    case Some(i) => [s[..i]] + Split(s[i + 3..])
  }

  function IndexOf(s: string, c: char): (r: Option<nat>)
    ensures r.Some? ==> r.value < |s| && s[r.value] == c
  {
    if s == "" then None
    else if s[0] == c then Some(0)
    else match IndexOf(s[1..], c) case None => None case Some(i) => Some(i + 1)
  }

  function LastIndexOf(s: string, c: char): (r: Option<nat>)
    ensures r.Some? ==> r.value < |s| && s[r.value] == c
  {
    if s == "" then None
    else if Last(s) == c then Some(|s| - 1)
    else LastIndexOf(Front(s), c)
  }

  // ------------------------------------------------------------ the algorithm

  /** A fence's content without its first line, when it has more than one. */
  function Content(inner: string, space: char -> bool): string {
    match IndexOf(inner, '\n') case None => inner case Some(i) => Trim(inner[i + 1..], space)
  }

  /** The content of the first fence that is not blank. */
  ghost function FirstContent(fences: seq<string>, space: char -> bool): Option<string> {
    if fences == [] then None
    else if Trim(fences[0], space) == "" then FirstContent(fences[1..], space)
    else Some(Content(Trim(fences[0], space), space))
  }

  ghost function Unfenced(stripped: string, space: char -> bool): string {
    var fences := Split(stripped);
    if |fences| < 3 then stripped
    else match FirstContent(fences[1..|fences| - 1], space) case None => stripped case Some(inner) => inner
  }

  /** From the first opening to the last closing brace. */
  function Braced(s: string): Option<string> {
    match (IndexOf(s, '{'), LastIndexOf(s, '}'))
    case (Some(start), Some(end)) => if end <= start then None else Some(s[start..end + 1])
    case (_, _) => None
  }

  ghost function Block(text: string, space: char -> bool): Option<string> {
    Braced(Unfenced(Trim(text, space), space))
  }

  method ExtractBlock(text: string, space: char -> bool) returns (block: Option<string>)
    ensures block == Block(text, space)
    ensures Extracts(text, space, block)
  {
    ExtractsExactly(text, space);
    hide Extracts;
    var stripped := Trim(text, space);
    ghost var whole := stripped;
    var fences := Split(stripped);
    if |fences| >= 3 {
      ghost var middle := fences[1..|fences| - 1];
      var k := 1;
      assert middle[0..] == middle;
      while k < |fences| - 1
        invariant 1 <= k <= |fences| - 1 && stripped == whole
        invariant FirstContent(middle[k - 1..], space) == FirstContent(middle, space)
      {
        var inner := Trim(fences[k], space);
        assert middle[k - 1] == fences[k] && middle[k - 1..][1..] == middle[k..];
        if inner == "" {
          k := k + 1;
          continue;
        }
        stripped := Content(inner, space);
        break;
      }
      assert k == |fences| - 1 ==> middle[k - 1..] == [];
    }
    block := Braced(stripped);
  }

  // ------------------------------------------- the block, told from the text

  /** t is s without the space around it. */
  ghost predicate Stripped(s: string, t: string, space: char -> bool) {
    exists a, b :: Between(s, t, space, a, b)
  }

  ghost predicate Between(s: string, t: string, space: char -> bool, a: nat, b: nat) {
    && a <= b <= |s| && t == s[a..b] && Blank(s[..a], space) && Blank(s[b..], space)
    && (t != "" ==> !space(t[0]) && !space(t[|t| - 1]))
  }

  ghost predicate FenceFree(s: string) {
    forall i :: 0 <= i <= |s| - 3 ==> s[i..][..3] != "```"
  }

  ghost function Joined(pieces: seq<string>): string {
    if pieces == [] then "" else if |pieces| == 1 then pieces[0] else pieces[0] + "```" + Joined(pieces[1..])
  }

  /** The pieces between the fences, each fence taken as early as it can be. */
  ghost predicate Pieces(s: string, ps: seq<string>) {
    && ps != [] && s == Joined(ps) && (forall i :: 0 <= i < |ps| ==> FenceFree(ps[i]))
    && forall i :: 0 <= i < |ps| - 1 && ps[i] != "" ==> ps[i][|ps[i]| - 1] != '`'
  }

  /** Piece k is the first one inside fences that is not blank. */
  ghost predicate Opens(ps: seq<string>, space: char -> bool, k: nat) {
    1 <= k < |ps| - 1 && !Blank(ps[k], space) && forall j :: 1 <= j < k ==> Blank(ps[j], space)
  }

  /** The piece without its first line, if it has more than one. */
  ghost predicate BehindTag(t: string, space: char -> bool, u: string) {
    if '\n' in t then exists i :: 0 <= i < |t| && t[i] == '\n' && '\n' !in t[..i] && Stripped(t[i + 1..], u, space)
    else u == t
  }

  /** Where the object is looked for: inside that piece, or in the whole text when there is none. */
  ghost predicate Searched(s: string, ps: seq<string>, space: char -> bool, u: string) {
    if exists k: nat :: Opens(ps, space, k) then
      exists k: nat, t :: Opens(ps, space, k) && Stripped(ps[k], t, space) && BehindTag(t, space, u)
    else u == s
  }

  /** From the first opening brace to the last closing one, or nothing when no opening brace stands before a closing one. */
  ghost predicate Braces(u: string, block: Option<string>) {
    match block
    case Some(b) =>
      exists i, j :: 0 <= i < j < |u| && u[i] == '{' && '{' !in u[..i] && u[j] == '}' && '}' !in u[j + 1..] && b == u[i..j + 1]
    case None => forall i, j :: 0 <= i < j < |u| && u[i] == '{' ==> u[j] != '}'
  }

  ghost predicate Extracts(text: string, space: char -> bool, block: Option<string>) {
    exists s, ps, u :: Stripped(text, s, space) && Pieces(s, ps) && Searched(s, ps, space, u) && Braces(u, block)
  }

  lemma StripsExactly(s: string, space: char -> bool)
    ensures Stripped(s, Trim(s, space), space)
    ensures Trim(s, space) == "" <==> Blank(s, space)
  {
    var a := TrimLeftSuffix(s, space);
    var l := s[a..];
    var b := TrimRightPrefix(l, space);
    assert l[..b] == s[a..a + b] && l[b..] == s[a + b..];
    assert Between(s, Trim(s, space), space, a, a + b);
    if Blank(s, space) { TrimBlank(s, space); }
    if b == 0 { BlankParts(s, a, space); }
  }

  lemma BlankParts(s: string, a: nat, space: char -> bool)
    requires a <= |s| && Blank(s[..a], space) && Blank(s[a..], space)
    ensures Blank(s, space)
  {
    assert s == s[..a] + s[a..];
  }

  lemma FenceFreeExact(s: string)
    ensures FenceFree(s) <==> NoFence(s)
  {
    forall i | 0 <= i <= |s| - 3
      ensures s[i..][..3] == "```" <==> FenceAt(s, i)
    {
      var w := s[i..][..3];
      assert w[0] == s[i] && w[1] == s[i + 1] && w[2] == s[i + 2];
    }
  }

  lemma {:induction false} FirstFence(s: string)
    ensures match FindFence(s) case None => NoFence(s) case Some(i) => FenceAt(s, i) && forall j :: 0 <= j < i ==> !FenceAt(s, j)
    decreases |s|
  {
    if s != "" && !FenceAt(s, 0) {
      FirstFence(s[1..]);
      assert forall j :: 0 < j < |s| ==> FenceAt(s, j) == FenceAt(s[1..], j - 1);
    }
  }

  lemma {:induction false} SplitsExactly(s: string)
    ensures Pieces(s, Split(s))
    decreases |s|
  {
    FirstFence(s);
    if FindFence(s).None? {
      FenceFreeExact(s);
    } else {
      var i := FindFence(s).value;
      var head, rest := s[..i], s[i + 3..];
      SplitsExactly(rest);
      assert forall j :: 0 <= j < i ==> FenceAt(head, j) ==> FenceAt(s, j);
      FenceFreeExact(head);
      assert i > 0 ==> !FenceAt(s, i - 1);
      assert s[i..i + 3] == "```";
      assert s == head + "```" + rest;
      assert Split(s)[1..] == Split(rest);
    }
  }

  lemma {:induction false} IndexExact(s: string, c: char)
    ensures match IndexOf(s, c) case None => c !in s case Some(i) => c !in s[..i]
  {
    if s != "" && s[0] != c {
      IndexExact(s[1..], c);
      assert s == [s[0]] + s[1..];
      if IndexOf(s, c).Some? {
        var i := IndexOf(s, c).value;
        assert s[..i] == [s[0]] + s[1..][..i - 1];
      }
    }
  }

  lemma {:induction false} LastIndexExact(s: string, c: char)
    ensures match LastIndexOf(s, c) case None => c !in s case Some(i) => c !in s[i + 1..]
  {
    if s != "" && Last(s) != c {
      LastIndexExact(Front(s), c);
      assert s == Front(s) + [Last(s)];
      if LastIndexOf(s, c).Some? {
        var i := LastIndexOf(s, c).value;
        assert s[i + 1..] == Front(s)[i + 1..] + [Last(s)];
      }
    }
  }

  lemma {:induction false} FirstContentExact(fences: seq<string>, space: char -> bool)
    ensures match FirstContent(fences, space)
            case None => forall j :: 0 <= j < |fences| ==> Blank(fences[j], space)
            case Some(c) => exists k :: 0 <= k < |fences| && !Blank(fences[k], space) && c == Content(Trim(fences[k], space), space)
                                        && forall j :: 0 <= j < k ==> Blank(fences[j], space)
    decreases |fences|
  {
    if fences != [] {
      StripsExactly(fences[0], space);
      hide Trim, Content, Blank, Stripped;
      if Trim(fences[0], space) == "" {
        var rest := fences[1..];
        FirstContentExact(rest, space);
        assert forall j :: 0 < j < |fences| ==> fences[j] == rest[j - 1];
        if FirstContent(rest, space).Some? {
          var k :| 0 <= k < |rest| && !Blank(rest[k], space) && FirstContent(rest, space).value == Content(Trim(rest[k], space), space)
                   && forall j :: 0 <= j < k ==> Blank(rest[j], space);
          assert fences[k + 1] == rest[k];
        }
      }
    }
  }

  lemma ContentExact(t: string, space: char -> bool)
    ensures BehindTag(t, space, Content(t, space))
  {
    IndexExact(t, '\n');
    if IndexOf(t, '\n').Some? {
      var i := IndexOf(t, '\n').value;
      assert t[i] in t;
      StripsExactly(t[i + 1..], space);
    }
  }

  lemma UnfencedExact(s: string, space: char -> bool)
    ensures Searched(s, Split(s), space, Unfenced(s, space))
  {
    var ps := Split(s);
    hide Trim, Content, Blank, Stripped, BehindTag, Split;
    if |ps| >= 3 {
      var middle := ps[1..|ps| - 1];
      FirstContentExact(middle, space);
      assert forall j :: 1 <= j < |ps| - 1 ==> ps[j] == middle[j - 1];
      if FirstContent(middle, space).Some? {
        var k :| 0 <= k < |middle| && !Blank(middle[k], space) && Unfenced(s, space) == Content(Trim(middle[k], space), space)
                 && forall j :: 0 <= j < k ==> Blank(middle[j], space);
        assert Opens(ps, space, k + 1);
        StripsExactly(middle[k], space);
        ContentExact(Trim(middle[k], space), space);
      }
    }
  }

  lemma FirstAndLast(u: string, i: nat, j: nat)
    requires i < j < |u| && u[i] == '{' && u[j] == '}'
    ensures Braced(u).Some?
  {
    IndexExact(u, '{');
    LastIndexExact(u, '}');
    assert u[i] in u && u[j] in u;
    var first, last := IndexOf(u, '{').value, LastIndexOf(u, '}').value;
    if i < first { Before(u, first, i); }
    if last < j { Behind(u, last, j); }
  }

  lemma Before(u: string, first: nat, i: nat)
    requires i < first <= |u|
    ensures u[i] in u[..first]
  {
    assert u[..first][i] == u[i];
  }

  lemma Behind(u: string, last: nat, j: nat)
    requires last < j < |u|
    ensures u[j] in u[last + 1..]
  {
    assert u[last + 1..][j - last - 1] == u[j];
  }

  lemma BracedExact(u: string)
    ensures Braces(u, Braced(u))
  {
    IndexExact(u, '{');
    LastIndexExact(u, '}');
    if Braced(u).Some? {
      var i, j := IndexOf(u, '{').value, LastIndexOf(u, '}').value;
      assert u[i] == '{' && u[j] == '}' && Braced(u).value == u[i..j + 1];
    } else {
      forall i, j | 0 <= i < j < |u| && u[i] == '{'
        ensures u[j] != '}'
      {
        if u[j] == '}' {
          FirstAndLast(u, i, j);
          assert false;
        }
      }
    }
  }

  /** The extraction, step by step: strip, split at the fences, take the first piece that says something, cut to the braces. */
  lemma ExtractsExactly(text: string, space: char -> bool)
    ensures Extracts(text, space, Block(text, space))
  {
    var s := Trim(text, space);
    StripsExactly(text, space);
    SplitsExactly(s);
    UnfencedExact(s, space);
    BracedExact(Unfenced(s, space));
    hide Trim, Stripped, Pieces, Searched, Braces, Unfenced, Braced, Split;
  }

  // ----------------------------------------------------------------- helpers

  ghost predicate NoFence(s: string) {
    forall i :: 0 <= i < |s| ==> !FenceAt(s, i)
  }

  ghost predicate EndsInTick(s: string) {
    s != "" && Last(s) == TICK
  }

  ghost predicate StartsInTick(s: string) {
    s != "" && s[0] == TICK
  }

  function Ticks(n: nat): string {
    seq(n, i => TICK)
  }

  lemma NoFenceConcat(a: string, b: string)
    requires NoFence(a) && NoFence(b) && (!EndsInTick(a) || !StartsInTick(b))
    ensures NoFence(a + b)
  {
    forall i | 0 <= i < |a + b|
      ensures !FenceAt(a + b, i)
    {
      if FenceAt(a + b, i) {
        if i >= |a| {
          assert FenceAt(b, i - |a|);
        } else if i + 2 < |a| {
          assert FenceAt(a, i);
        } else {
          assert false;
        }
      }
    }
  }

  lemma NoFenceParts(a: string, b: string)
    requires NoFence(a + b)
    ensures NoFence(a) && NoFence(b)
  {
    forall i | 0 <= i < |a|
      ensures !FenceAt(a, i)
    {
      assert !FenceAt(a + b, i);
    }
    forall i | 0 <= i < |b|
      ensures !FenceAt(b, i)
    {
      assert !FenceAt(a + b, |a| + i);
    }
  }

  lemma {:induction false} FindNone(s: string)
    requires NoFence(s)
    ensures FindFence(s) == None
  {
    if s != "" {
      assert s == [s[0]] + s[1..];
      NoFenceParts([s[0]], s[1..]);
      FindNone(s[1..]);
    }
  }

  /** The first fence lies behind any fence-free text that does not end in a backtick. */
  lemma {:induction false} FindBehind(a: string, z: string)
    requires NoFence(a) && !EndsInTick(a) && FenceAt(z, 0)
    ensures FindFence(a + z) == Some(|a|)
    decreases |a|
  {
    if a == "" {
      assert a + z == z;
    } else {
      assert a == [a[0]] + a[1..];
      NoFenceParts([a[0]], a[1..]);
      assert (a + z)[1..] == a[1..] + z;
      FindBehind(a[1..], z);
      assert !FenceAt(a, 0);
      assert Last(a) == (a + z)[|a| - 1];
    }
  }

  lemma SplitBehind(a: string, z: string)
    requires NoFence(a) && !EndsInTick(a) && FenceAt(z, 0)
    ensures Split(a + z) == [a] + Split(z[3..])
  {
    FindBehind(a, z);
    assert (a + z)[..|a|] == a && (a + z)[|a| + 3..] == z[3..];
  }

  // ------------------------------------------------------------- round trips

  /** Line feeds are space; backticks and braces are not. */
  ghost predicate Spaces(space: char -> bool) {
    space('\n') && !space(TICK) && !space('{') && !space('}')
  }

  ghost predicate Blank(s: string, space: char -> bool) {
    forall i :: 0 <= i < |s| ==> space(s[i])
  }

  ghost predicate IsObject(s: string) {
    |s| >= 2 && s[0] == '{' && Last(s) == '}'
  }

  lemma {:induction false} TrimLeftOver(a: string, z: string, space: char -> bool)
    requires z != "" && !space(z[0])
    ensures TrimLeft(a + z, space) == TrimLeft(a, space) + z
    decreases |a|
  {
    if a == "" {
      assert a + z == z;
    } else if space(a[0]) {
      assert (a + z)[1..] == a[1..] + z;
      TrimLeftOver(a[1..], z, space);
    }
  }

  lemma {:induction false} TrimRightOver(a: string, z: string, space: char -> bool)
    requires a != "" && !space(Last(a))
    ensures TrimRight(a + z, space) == a + TrimRight(z, space)
    decreases |z|
  {
    if z == "" {
      assert a + z == a;
    } else if space(Last(z)) {
      assert Front(a + z) == a + Front(z) && Last(a + z) == Last(z);
      TrimRightOver(a, Front(z), space);
    }
  }

  /** Trimming text around a solid middle. */
  lemma TrimAround(a: string, m: string, z: string, space: char -> bool)
    requires m != "" && !space(m[0]) && !space(Last(m))
    ensures Trim(a + m + z, space) == TrimLeft(a, space) + m + TrimRight(z, space)
  {
    assert a + m + z == a + (m + z);
    TrimLeftOver(a, m + z, space);
    var l := TrimLeft(a, space);
    assert l + (m + z) == (l + m) + z && Last(l + m) == Last(m);
    TrimRightOver(l + m, z, space);
  }

  lemma {:induction false} TrimLeftSuffix(s: string, space: char -> bool) returns (k: nat)
    ensures k <= |s| && TrimLeft(s, space) == s[k..] && Blank(s[..k], space) && (k < |s| ==> !space(s[k]))
    decreases |s|
  {
    k := 0;
    if s != "" && space(s[0]) {
      var j := TrimLeftSuffix(s[1..], space);
      k := j + 1;
      assert forall i :: 0 < i < k ==> s[i] == s[1..][..j][i - 1];
    }
  }

  lemma {:induction false} TrimRightPrefix(s: string, space: char -> bool) returns (k: nat)
    ensures k <= |s| && TrimRight(s, space) == s[..k] && Blank(s[k..], space) && (k > 0 ==> !space(s[k - 1]))
    decreases |s|
  {
    k := |s|;
    if s != "" && space(Last(s)) {
      k := TrimRightPrefix(Front(s), space);
      assert s[k..] == Front(s)[k..] + [Last(s)];
    }
  }

  lemma {:induction false} IndexBehind(a: string, c: char, z: string)
    requires c !in a && z != "" && z[0] == c
    ensures IndexOf(a + z, c) == Some(|a|)
    decreases |a|
  {
    if a == "" {
      assert a + z == z;
    } else {
      assert (a + z)[1..] == a[1..] + z;
      assert a[0] in a;
      IndexBehind(a[1..], c, z);
    }
  }

  lemma {:induction false} LastIndexBefore(a: string, c: char, z: string)
    requires c !in z && a != "" && Last(a) == c
    ensures LastIndexOf(a + z, c) == Some(|a| - 1)
    decreases |z|
  {
    if z == "" {
      assert a + z == a;
    } else {
      assert Front(a + z) == a + Front(z) && Last(a + z) == Last(z);
      assert Last(z) in z;
      LastIndexBefore(a, c, Front(z));
    }
  }

  lemma BracedObject(a: string, obj: string, z: string)
    requires IsObject(obj) && '{' !in a && '}' !in z
    ensures Braced(a + obj + z) == Some(obj)
  {
    assert a + obj + z == a + (obj + z);
    IndexBehind(a, '{', obj + z);
    LastIndexBefore(a + obj, '}', z);
    assert (a + obj + z)[|a|..|a + obj|] == obj;
  }

  /** Prose without braces or fences around a fence-free object is stripped exactly. */
  lemma ProseRoundTrip(before: string, obj: string, after: string, space: char -> bool)
    requires Spaces(space) && IsObject(obj) && NoFence(before) && NoFence(obj) && NoFence(after)
    requires '{' !in before && '}' !in before && '{' !in after && '}' !in after
    ensures Block(before + obj + after, space) == Some(obj)
  {
    TrimAround(before, obj, after, space);
    var i := TrimLeftSuffix(before, space);
    var j := TrimRightPrefix(after, space);
    var a, z := before[i..], after[..j];
    assert before == before[..i] + a && after == z + after[j..];
    NoFenceParts(before[..i], a);
    NoFenceParts(z, after[j..]);
    NoFenceConcat(a, obj);
    NoFenceConcat(a + obj, z);
    FindNone(a + obj + z);
    BracedObject(a, obj, z);
  }

  // ----------------------------------------------------------------- fences

  const FENCE := "```"
  const NL := "\n"

  /** What follows the tag: the object on lines of its own, the closing fence, and prose. */
  function Tail(obj: string, after: string): string {
    NL + (obj + (NL + (FENCE + after)))
  }

  /** An object inside a tagged fence, with prose around it. */
  function Wrapped(before: string, tag: string, obj: string, after: string): string {
    before + (FENCE + (tag + Tail(obj, after)))
  }

  function LeadingTicks(s: string): (n: nat)
    ensures n <= |s|
  {
    if s != "" && s[0] == TICK then 1 + LeadingTicks(s[1..]) else 0
  }

  function TrailingTicks(s: string): (n: nat)
    ensures n <= |s|
  {
    if s != "" && Last(s) == TICK then 1 + TrailingTicks(Front(s)) else 0
  }

  lemma {:induction false} LeadingAre(s: string)
    ensures var n := LeadingTicks(s); s == Ticks(n) + s[n..] && !StartsInTick(s[n..])
    decreases |s|
  {
    if s != "" && s[0] == TICK {
      LeadingAre(s[1..]);
      var n := LeadingTicks(s);
      assert s[1..][n - 1..] == s[n..];
      assert Ticks(n) == [TICK] + Ticks(n - 1);
      assert s == [s[0]] + s[1..];
    }
  }

  lemma {:induction false} TrailingAre(s: string)
    ensures var n := TrailingTicks(s); s == s[..|s| - n] + Ticks(n) && !EndsInTick(s[..|s| - n])
    decreases |s|
  {
    if s != "" && Last(s) == TICK {
      TrailingAre(Front(s));
      var n := TrailingTicks(s);
      assert Front(s)[..|s| - n] == s[..|s| - n];
      assert Ticks(n) == Ticks(n - 1) + [TICK];
      assert s == Front(s) + [Last(s)];
    }
  }

  lemma FewTicks(n: nat, a: string, z: string)
    requires NoFence(a + Ticks(n) + z)
    ensures n <= 2
  {
    if n >= 3 { assert FenceAt(a + Ticks(n) + z, |a|); }
  }

  lemma TicksUnfenced(n: nat, g: string)
    requires n <= 2 && NoFence(g) && !StartsInTick(g)
    ensures NoFence(Ticks(n) + g)
  {
    NoFenceConcat(Ticks(n), g);
  }

  lemma TicksSum(a: nat, b: nat)
    ensures Ticks(a) + Ticks(b) == Ticks(a + b)
  {
  }

  /** The part of the text behind the tag's backticks. */
  function Body(line: string, obj: string): string {
    line + (NL + (obj + NL))
  }

  lemma BodyUnfenced(n: nat, g: string, obj: string)
    requires n <= 2 && NoFence(g) && !StartsInTick(g) && IsObject(obj) && NoFence(obj)
    ensures NoFence(Body(Ticks(n) + g, obj)) && !EndsInTick(Body(Ticks(n) + g, obj))
  {
    TicksUnfenced(n, g);
    NoFenceConcat(obj, NL);
    NoFenceConcat(NL, obj + NL);
    NoFenceConcat(Ticks(n) + g, NL + (obj + NL));
  }

  /** The fence holding the object, up to the end of the text. */
  function Fenced(n: nat, g: string, obj: string, after: string): string {
    Ticks(n) + (g + Tail(obj, after))
  }

  lemma FencedDrop(n: nat, g: string, obj: string, after: string)
    requires n >= 3
    ensures FenceAt(Fenced(n, g, obj, after), 0) && Fenced(n, g, obj, after)[3..] == Fenced(n - 3, g, obj, after)
  {
    hide Tail;
    assert Ticks(n)[3..] == Ticks(n - 3);
  }

  lemma FencedBody(n: nat, g: string, obj: string, after: string)
    ensures Fenced(n, g, obj, after) == Body(Ticks(n) + g, obj) + (FENCE + after)
  {
    TailAfter(obj, after);
    hide Tail;
    assert Ticks(n) + (g + Tail(obj, after)) == (Ticks(n) + g) + Tail(obj, after);
    assert (Ticks(n) + g) + ((NL + (obj + NL)) + (FENCE + after)) == ((Ticks(n) + g) + (NL + (obj + NL))) + (FENCE + after);
  }

  lemma TailAfter(obj: string, after: string)
    ensures Tail(obj, after) == (NL + (obj + NL)) + (FENCE + after)
  {
    var z := FENCE + after;
    assert obj + (NL + z) == (obj + NL) + z;
    assert NL + ((obj + NL) + z) == (NL + (obj + NL)) + z;
  }

  lemma SplitFenced(n: nat, g: string, obj: string, after: string)
    requires n <= 4 && NoFence(g) && !StartsInTick(g) && IsObject(obj) && NoFence(obj) && NoFence(after)
    ensures Split(Fenced(n, g, obj, after)) ==
            (if n < 3 then [] else [""]) + [Body(Ticks(if n < 3 then n else n - 3) + g, obj), after]
  {
    hide Fenced, Body;
    if n < 3 {
      var x := Body(Ticks(n) + g, obj);
      BodyUnfenced(n, g, obj);
      FencedBody(n, g, obj, after);
      SplitBehind(x, FENCE + after);
      assert (FENCE + after)[3..] == after;
      FindNone(after);
    } else {
      var z := Fenced(n, g, obj, after);
      FencedDrop(n, g, obj, after);
      SplitBehind("", z);
      assert "" + z == z;
      SplitFenced(n - 3, g, obj, after);
    }
  }

  lemma {:induction false} TrimBlank(s: string, space: char -> bool)
    requires Blank(s, space)
    ensures TrimLeft(s, space) == ""
    decreases |s|
  {
    if s != "" { TrimBlank(s[1..], space); }
  }

  /** A blank first line is trimmed away with the rest of the white space. */
  lemma TrimBlankBody(line: string, obj: string, space: char -> bool)
    requires Spaces(space) && IsObject(obj) && Blank(line, space)
    ensures Trim(Body(line, obj), space) == obj
  {
    assert Body(line, obj) == (line + NL) + obj + NL;
    assert Blank(line + NL, space);
    TrimBlank(line + NL, space);
    TrimAround(line + NL, obj, NL, space);
    assert TrimRight(NL, space) == "";
    assert "" + obj + "" == obj;
  }

  lemma TrimSolidBody(line: string, obj: string, space: char -> bool)
    requires Spaces(space) && IsObject(obj) && !Blank(line, space)
    ensures TrimLeft(line, space) != "" && Trim(Body(line, obj), space) == TrimLeft(line, space) + (NL + obj)
  {
    var k := TrimLeftSuffix(line, space);
    var l, m := line[k..], line[k..] + (NL + obj);
    SolidLeft(line, space);
    assert m[0] == l[0] && Last(m) == Last(obj);
    assert line + (NL + (obj + NL)) == line[..k] + m + NL;
    TrimBlank(line[..k], space);
    TrimAround(line[..k], m, NL, space);
    assert TrimRight(NL, space) == "";
    assert "" + m + "" == m;
  }

  lemma {:induction false} SolidLeft(s: string, space: char -> bool)
    requires !Blank(s, space)
    ensures TrimLeft(s, space) != "" && !space(TrimLeft(s, space)[0])
    decreases |s|
  {
    if space(s[0]) {
      assert s == [s[0]] + s[1..];
      SolidLeft(s[1..], space);
    }
  }

  lemma {:induction false} IndexNone(s: string, c: char)
    requires c !in s
    ensures IndexOf(s, c) == None
  {
    if s != "" {
      assert s[0] in s;
      IndexNone(s[1..], c);
    }
  }

  lemma {:induction false} IndexSome(s: string, c: char)
    requires c in s
    ensures IndexOf(s, c).Some?
  {
    if s[0] != c {
      assert s == [s[0]] + s[1..];
      IndexSome(s[1..], c);
    }
  }

  lemma ContentOfTagged(l: string, obj: string, space: char -> bool)
    requires Spaces(space) && IsObject(obj) && '\n' !in l
    ensures Content(l + (NL + obj), space) == obj
  {
    IndexBehind(l, '\n', NL + obj);
    assert (l + (NL + obj))[|l| + 1..] == obj;
    TrimKeeps(obj, space);
  }

  lemma ContentOfUntagged(obj: string, space: char -> bool)
    requires IsObject(obj)
    ensures '\n' !in obj ==> Content(obj, space) == obj
    ensures '\n' in obj ==> |Content(obj, space)| < |obj|
  {
    if '\n' in obj {
      IndexSome(obj, '\n');
      TrimShorter(obj[IndexOf(obj, '\n').value + 1..], space);
    } else {
      IndexNone(obj, '\n');
    }
  }

  /** What is extracted from the body of a fence: the object, unless a blank line let a line of it be taken for the tag. */
  lemma ContentOfBody(line: string, obj: string, space: char -> bool)
    requires Spaces(space) && IsObject(obj) && '\n' !in line
    ensures var c := Content(Trim(Body(line, obj), space), space);
            Braced(c) == Some(obj) <==> !(Blank(line, space) && '\n' in obj)
  {
    hide Content, Body, Trim;
    assert Braced(obj) == Some(obj) by {
      BracedObject("", obj, "");
      assert "" + obj + "" == obj;
    }
    if Blank(line, space) {
      TrimBlankBody(line, obj, space);
      ContentOfUntagged(obj, space);
    } else {
      TrimSolidBody(line, obj, space);
      var k := TrimLeftSuffix(line, space);
      ContentOfTagged(line[k..], obj, space);
    }
  }

  lemma TrimShorter(s: string, space: char -> bool)
    ensures |Trim(s, space)| <= |s|
  {
    var k := TrimLeftSuffix(s, space);
    var j := TrimRightPrefix(TrimLeft(s, space), space);
  }

  /**
   * Nothing is left on the line of the tag: the fence is bare, or the trailing backticks of
   * the prose and the leading ones of the tag make a fence of their own, and the tag holds
   * nothing else.
   */
  ghost predicate Untagged(before: string, tag: string, space: char -> bool) {
    var ticks := TrailingTicks(before) + LeadingTicks(tag);
    (ticks == 0 || ticks == 3) && Blank(tag[LeadingTicks(tag)..], space)
  }

  /** Trimming the front of the prose leaves its trailing backticks alone. */
  lemma TrimmedProse(before: string, space: char -> bool) returns (p: string)
    requires Spaces(space) && NoFence(before)
    ensures NoFence(p) && !EndsInTick(p) && TrailingTicks(before) <= 2
    ensures TrimLeft(before, space) == p + Ticks(TrailingTicks(before))
  {
    var b := TrailingTicks(before);
    TrailingAre(before);
    var q := before[..|before| - b];
    assert before == q + Ticks(b) + "";
    FewTicks(b, q, "");
    NoFenceParts(q, Ticks(b));
    var k := TrimLeftSuffix(q, space);
    p := q[k..];
    assert q == q[..k] + p;
    NoFenceParts(q[..k], p);
    if b > 0 {
      TrimLeftOver(q, Ticks(b), space);
    } else {
      assert before == q;
    }
  }

  /**
   * Wrapping an object in a fence and extracting it gives the object back if and only if
   * something is left on the line of the tag or the object has a single line. Otherwise
   * the object's first line is taken for the tag.
   */
  lemma FencedRoundTrip(before: string, tag: string, obj: string, after: string, space: char -> bool)
    requires Spaces(space) && IsObject(obj)
    requires NoFence(before) && NoFence(tag) && NoFence(obj) && NoFence(after)
    requires '\n' !in tag
    ensures Block(Wrapped(before, tag, obj, after), space) == Some(obj) <==> !(Untagged(before, tag, space) && '\n' in obj)
  {
    hide Fenced, Body, Wrapped, Trim, Content, Braced, Split, FirstContent, Spaces, TrailingTicks, LeadingTicks, TrimLeft,
      TrimRight, Blank;
    var b, t := TrailingTicks(before), LeadingTicks(tag);
    var g := tag[t..];
    var p := TrimmedProse(before, space);
    LeadingAre(tag);
    assert tag == "" + Ticks(t) + g;
    FewTicks(t, "", g);
    NoFenceParts(Ticks(t), g);
    var j := TrimRightPrefix(after, space);
    var z := after[..j];
    assert after == z + after[j..];
    NoFenceParts(z, after[j..]);
    StrippedText(before, tag, obj, after, space, p, b, t, z);
    var run := Fenced(b + 3 + t, g, obj, z);
    FencedDrop(b + 3 + t, g, obj, z);
    assert run[3..] == Fenced(b + t, g, obj, z);
    SplitBehind(p, run);
    SplitFenced(b + t, g, obj, z);
    var r := if b + t < 3 then b + t else b + t - 3;
    var line := Ticks(r) + g;
    var fences := Split(p + run);
    assert fences == [p] + (if b + t < 3 then [] else [""]) + [Body(line, obj), z];
    PieceContent(b + t, p, line, obj, z, space);
    ContentOfBody(line, obj, space);
    LineBlank(tag, b, t, line, space);
  }

  lemma StrippedText(before: string, tag: string, obj: string, after: string, space: char -> bool, p: string, b: nat, t: nat, z: string)
    requires Spaces(space) && t <= |tag| && tag == Ticks(t) + tag[t..]
    requires TrimLeft(before, space) == p + Ticks(b) && TrimRight(after, space) == z
    ensures Trim(Wrapped(before, tag, obj, after), space) == p + Fenced(b + 3 + t, tag[t..], obj, z)
  {
    hide Ticks, Trim, Tail, Wrapped, TrimLeft, TrimRight;
    var g := tag[t..];
    var m := FENCE + (tag + (NL + (obj + (NL + FENCE))));
    MiddleEnds(tag, obj);
    assert Wrapped(before, tag, obj, after) == before + m + after by { WrappedParts(before, tag, obj, after); }
    TrimAround(before, m, after, space);
    assert p + Ticks(b) + m + z == p + (Ticks(b) + (m + z));
    assert m + z == FENCE + (tag + Tail(obj, z)) by { WrappedParts("", tag, obj, z); }
    TicksMeet(b, t, g + Tail(obj, z));
    assert tag + Tail(obj, z) == Ticks(t) + (g + Tail(obj, z));
  }

  lemma TicksMeet(b: nat, t: nat, rest: string)
    ensures Ticks(b) + (FENCE + (Ticks(t) + rest)) == Ticks(b + 3 + t) + rest
  {
    assert FENCE == Ticks(3);
    TicksSum(b, 3);
    TicksSum(b + 3, t);
    hide Ticks;
    assert Ticks(b) + (FENCE + (Ticks(t) + rest)) == ((Ticks(b) + FENCE) + Ticks(t)) + rest;
  }

  lemma MiddleEnds(tag: string, obj: string)
    ensures var m := FENCE + (tag + (NL + (obj + (NL + FENCE)))); m[0] == TICK && Last(m) == TICK
  {
  }

  lemma WrappedParts(before: string, tag: string, obj: string, after: string)
    ensures Wrapped(before, tag, obj, after) == before + (FENCE + (tag + (NL + (obj + (NL + FENCE))))) + after
    ensures before == "" ==> FENCE + (tag + (NL + (obj + (NL + FENCE)))) + after == FENCE + (tag + Tail(obj, after))
  {
    var a := NL + FENCE;
    assert NL + (FENCE + after) == a + after;
    assert obj + (a + after) == (obj + a) + after;
    assert NL + ((obj + a) + after) == (NL + (obj + a)) + after;
    var c := NL + (obj + a);
    assert Tail(obj, after) == c + after;
    assert tag + (c + after) == (tag + c) + after;
    assert FENCE + ((tag + c) + after) == (FENCE + (tag + c)) + after;
    assert before + ((FENCE + (tag + c)) + after) == before + (FENCE + (tag + c)) + after;
  }

  /** The first fence that is not blank is the one around the object. */
  lemma PieceContent(n: nat, p: string, line: string, obj: string, z: string, space: char -> bool)
    requires Spaces(space) && IsObject(obj)
    ensures var fences := [p] + (if n < 3 then [] else [""]) + [Body(line, obj), z];
            FirstContent(fences[1..|fences| - 1], space) == Some(Content(Trim(Body(line, obj), space), space))
  {
    var x := Body(line, obj);
    if Blank(line, space) { TrimBlankBody(line, obj, space); } else { TrimSolidBody(line, obj, space); }
    hide Body, Trim, Content;
    assert FirstContent([x], space) == Some(Content(Trim(x, space), space));
    if n < 3 {
      assert ([p] + [] + [x, z])[1..2] == [x];
    } else {
      assert ([p] + [""] + [x, z])[1..3] == ["", x];
      assert ["", x][1..] == [x];
    }
  }

  lemma LineBlank(tag: string, b: nat, t: nat, line: string, space: char -> bool)
    requires Spaces(space) && t == LeadingTicks(tag) && b <= 2 && t <= 2
    requires tag == Ticks(t) + tag[t..] && line == Ticks(if b + t < 3 then b + t else b + t - 3) + tag[t..]
    ensures Blank(line, space) <==> (b + t == 0 || b + t == 3) && Blank(tag[t..], space)
    ensures '\n' !in tag ==> '\n' !in line
  {
    var r := if b + t < 3 then b + t else b + t - 3;
    if r > 0 {
      assert line[0] == TICK;
    } else {
      assert line == tag[t..];
    }
  }

  /** A bare fence around an object of two lines loses the object. */
  lemma BareFenceLosesObject(space: char -> bool) returns (obj: string)
    requires Spaces(space)
    ensures NoFence(obj) && IsObject(obj) && Block(Wrapped("", "", obj, ""), space) != Some(obj)
  {
    obj := "{\n}";
    FencedRoundTrip("", "", obj, "", space);
  }

  /** So does a tag taken for a fence: prose ending in two backticks, a backtick for a tag, and an object of two lines. */
  lemma TagTakenForFence(space: char -> bool) returns (before: string, tag: string, obj: string)
    requires Spaces(space)
    ensures NoFence(before) && NoFence(tag) && NoFence(obj) && IsObject(obj) && !Blank(tag, space) && '\n' !in tag
    ensures Block(Wrapped(before, tag, obj, ""), space) != Some(obj)
  {
    before, tag, obj := "``", "`", "{\n}";
    assert TrailingTicks(before) == 2 by { assert Front("``") == "`" && Front("`") == ""; }
    assert LeadingTicks(tag) == 1;
    FencedRoundTrip(before, tag, obj, "", space);
  }
}
