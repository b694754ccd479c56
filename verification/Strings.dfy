/** The string functions of Go that the modelled code relies on. */
module Strings {

  /** unicode.IsSpace. */
  predicate IsSpace(c: char) {
    || c == ' ' || ('\t' <= c <= '\r') || c == '\U{85}' || c == '\U{A0}' || c == '\U{1680}'
    || ('\U{2000}' <= c <= '\U{200A}') || c == '\U{2028}' || c == '\U{2029}' || c == '\U{202F}'
    || c == '\U{205F}' || c == '\U{3000}'
  }

  /** strings.TrimLeftFunc with a predicate. */
  function TrimLeft(s: string, p: char -> bool): (r: string)
    ensures |r| <= |s| && r == s[|s| - |r|..]
    ensures r == "" || !p(r[0])
  {
    if s != "" && p(s[0]) then TrimLeft(s[1..], p) else s
  }

  function TrimRight(s: string, p: char -> bool): (r: string)
    ensures r <= s
    ensures r == "" || !p(r[|r| - 1])
  {
    if s != "" && p(s[|s| - 1]) then TrimRight(s[..|s| - 1], p) else s
  }

  function Trim(s: string, p: char -> bool): (r: string)
    ensures |r| <= |s|
    ensures r != "" ==> !p(r[0]) && !p(r[|r| - 1])
  {
    TrimRight(TrimLeft(s, p), p)
  }

  /** strings.TrimSpace. */
  function TrimSpace(s: string): (r: string)
    ensures r != "" ==> !IsSpace(r[0]) && !IsSpace(r[|r| - 1])
  {
    Trim(s, IsSpace)
  }

  function Trims(xs: seq<string>): (ys: seq<string>)
    ensures |ys| == |xs| && forall i :: 0 <= i < |xs| ==> ys[i] == TrimSpace(xs[i])
  {
    seq(|xs|, i requires 0 <= i < |xs| => TrimSpace(xs[i]))
  }

  lemma TrimsLast(xs: seq<string>, x: string)
    ensures Trims(xs + [x]) == Trims(xs) + [TrimSpace(x)]
  {
  }

  /** Where a value occurs first. */
  function FirstIndex(xs: seq<string>, x: string): (i: nat)
    requires x in xs
    ensures i < |xs| && xs[i] == x && forall j :: 0 <= j < i ==> xs[j] != x
  {
    if x in xs[..|xs| - 1] then FirstIndex(xs[..|xs| - 1], x) else |xs| - 1
  }

  /** Values of xs in the order in which they first occur there; no two are alike. */
  ghost predicate InFirstOrder(ys: seq<string>, xs: seq<string>) {
    && (forall y :: y in ys ==> y in xs)
    && (forall i, j :: 0 <= i < j < |ys| ==>
          ys[i] in xs && ys[j] in xs && FirstIndex(xs, ys[i]) < FirstIndex(xs, ys[j]))
  }

  lemma FirstIndexLonger(xs: seq<string>, x: string, y: string)
    ensures y in xs ==> FirstIndex(xs + [x], y) == FirstIndex(xs, y)
    ensures x !in xs ==> FirstIndex(xs + [x], x) == |xs|
  {
    assert (xs + [x])[..|xs|] == xs;
  }

  lemma FirstOrderStays(ys: seq<string>, xs: seq<string>, x: string)
    requires InFirstOrder(ys, xs)
    ensures InFirstOrder(ys, xs + [x])
  {
    forall i, j | 0 <= i < j < |ys|
      ensures FirstIndex(xs + [x], ys[i]) < FirstIndex(xs + [x], ys[j])
    {
      FirstIndexLonger(xs, x, ys[i]);
      FirstIndexLonger(xs, x, ys[j]);
    }
  }

  lemma FirstOrderGrows(ys: seq<string>, xs: seq<string>, x: string)
    requires InFirstOrder(ys, xs) && x !in xs
    ensures InFirstOrder(ys + [x], xs + [x])
  {
    var zs := ys + [x];
    forall i, j | 0 <= i < j < |zs|
      ensures zs[i] in xs + [x] && zs[j] in xs + [x]
      ensures FirstIndex(xs + [x], zs[i]) < FirstIndex(xs + [x], zs[j])
    {
      assert zs[i] == ys[i] && ys[i] in ys;
      FirstIndexLonger(xs, x, zs[i]);
      if j < |ys| {
        assert zs[j] == ys[j] && ys[j] in ys;
        FirstIndexLonger(xs, x, zs[j]);
      } else {
        FirstIndexLonger(xs, x, x);
      }
    }
  }

  /** strings.Trim(s, string(c)). */
  function TrimChar(s: string, c: char): (r: string)
    ensures r != "" ==> r[0] != c && r[|r| - 1] != c
  {
    Trim(s, x => x == c)
  }

  /** Trimming removes what is to be removed at both ends and nothing else. */
  lemma {:induction false} TrimRemoves(left: string, middle: string, right: string, p: char -> bool)
    requires forall i :: 0 <= i < |left| ==> p(left[i])
    requires forall i :: 0 <= i < |right| ==> p(right[i])
    requires middle == "" || (!p(middle[0]) && !p(middle[|middle| - 1]))
    ensures middle != "" ==> Trim(left + middle + right, p) == middle
    ensures middle == "" ==> Trim(left + right, p) == ""
  {
    if middle != "" {
      TrimLeftRemoves(left, middle + right, p);
      assert left + middle + right == left + (middle + right);
      TrimRightRemoves(middle, right, p);
    } else {
      AllTrimmed(left + right, p);
    }
  }

  lemma {:induction false} TrimLeftRemoves(left: string, rest: string, p: char -> bool)
    requires forall i :: 0 <= i < |left| ==> p(left[i])
    requires rest != "" && !p(rest[0])
    ensures TrimLeft(left + rest, p) == rest
  {
    if left == "" {
      assert left + rest == rest;
    } else {
      TrimLeftRemoves(left[1..], rest, p);
      assert (left + rest)[1..] == left[1..] + rest;
    }
  }

  lemma {:induction false} TrimRightRemoves(first: string, right: string, p: char -> bool)
    requires forall i :: 0 <= i < |right| ==> p(right[i])
    requires first != "" && !p(first[|first| - 1])
    ensures TrimRight(first + right, p) == first
  {
    if right == "" {
      assert first + right == first;
    } else {
      TrimRightRemoves(first, right[..|right| - 1], p);
      assert (first + right)[..|first + right| - 1] == first + right[..|right| - 1];
    }
  }

  lemma {:induction false} AllTrimmed(s: string, p: char -> bool)
    requires forall i :: 0 <= i < |s| ==> p(s[i])
    ensures Trim(s, p) == ""
  {
    if s != "" {
      AllTrimmed(s[1..], p);
    }
  }

  /** Trimming leaves alone what has nothing to trim; in particular it is idempotent. */
  lemma TrimKeeps(s: string, p: char -> bool)
    requires s == "" || (!p(s[0]) && !p(s[|s| - 1]))
    ensures Trim(s, p) == s
  {
  }

  lemma TrimLeading(t: string, c: char)
    requires t != "" && t[0] != c && t[|t| - 1] != c
    ensures TrimChar([c] + t, c) == t
  {
    var p := (x: char) => x == c;
    assert ([c] + t)[1..] == t;
    assert TrimLeft(t, p) == t;
    assert TrimLeft([c] + t, p) == t;
    assert TrimRight(t, p) == t;
  }

  predicate Free(s: string, c: char) {
    forall i :: 0 <= i < |s| ==> s[i] != c
  }

  lemma TrimKeepsFree(s: string, c: char)
    requires Free(s, c)
    ensures Free(TrimSpace(s), c)
  {
    var left := TrimLeft(s, IsSpace);
    assert Free(left, c);
    assert TrimSpace(s) <= left;
  }

  predicate AllFree(xs: seq<string>, c: char) {
    forall i :: 0 <= i < |xs| ==> Free(xs[i], c)
  }

  /** strings.Join(xs, string(sep)). */
  function Join(xs: seq<string>, sep: char): string {
    if xs == [] then "" else if |xs| == 1 then xs[0] else xs[0] + [sep] + Join(xs[1..], sep)
  }

  /** The position of the first sep, or the length. */
  function IndexOf(s: string, sep: char): (i: nat)
    ensures i <= |s| && Free(s[..i], sep) && (i < |s| ==> s[i] == sep)
  {
    if s == "" || s[0] == sep then 0 else 1 + IndexOf(s[1..], sep)
  }

  /** strings.Split(s, string(sep)): always at least one piece. */
  function Split(s: string, sep: char): (xs: seq<string>)
    ensures |xs| >= 1 && AllFree(xs, sep)
    decreases |s|
  {
    var i := IndexOf(s, sep);
    if i == |s| then [s] else [s[..i]] + Split(s[i + 1..], sep)
  }

  lemma {:induction false} IndexOfFirst(x: string, rest: string, sep: char)
    requires Free(x, sep)
    ensures IndexOf(x + [sep] + rest, sep) == |x|
    ensures IndexOf(x, sep) == |x|
  {
    if x != "" {
      IndexOfFirst(x[1..], rest, sep);
      assert (x + [sep] + rest)[1..] == x[1..] + [sep] + rest;
    }
  }

  lemma SplitFirst(x: string, rest: string, sep: char)
    requires Free(x, sep)
    ensures Split(x + [sep] + rest, sep) == [x] + Split(rest, sep)
  {
    IndexOfFirst(x, rest, sep);
    var s := x + [sep] + rest;
    assert s[..|x|] == x && s[|x| + 1..] == rest;
  }

  /** Splitting undoes joining whenever the pieces do not contain the separator. */
  lemma {:induction false} SplitJoin(xs: seq<string>, sep: char)
    requires xs != [] && AllFree(xs, sep)
    ensures Split(Join(xs, sep), sep) == xs
  {
    if |xs| == 1 {
      IndexOfFirst(xs[0], "", sep);
    } else {
      SplitFirst(xs[0], Join(xs[1..], sep), sep);
      SplitJoin(xs[1..], sep);
    }
  }

  lemma JoinCons(x: string, xs: seq<string>, sep: char)
    requires xs != []
    ensures Join([x] + xs, sep) == x + [sep] + Join(xs, sep)
  {
    assert ([x] + xs)[1..] == xs;
  }

  lemma SplitAt(s: string, sep: char, i: nat)
    requires i == IndexOf(s, sep) && i < |s|
    ensures Split(s, sep) == [s[..i]] + Split(s[i + 1..], sep)
    ensures s == s[..i] + [sep] + s[i + 1..]
  {
  }

  lemma JoinSplitStep(s: string, sep: char, i: nat)
    requires i == IndexOf(s, sep) && i < |s| && Join(Split(s[i + 1..], sep), sep) == s[i + 1..]
    ensures Join(Split(s, sep), sep) == s
  {
    SplitAt(s, sep, i);
    JoinCons(s[..i], Split(s[i + 1..], sep), sep);
  }

  /** Joining undoes splitting, always. */
  lemma {:induction false} JoinSplit(s: string, sep: char)
    ensures Join(Split(s, sep), sep) == s
    decreases |s|
  {
    var i := IndexOf(s, sep);
    if i < |s| {
      JoinSplit(s[i + 1..], sep);
      JoinSplitStep(s, sep, i);
    }
  }

  lemma {:induction false} JoinEnds(xs: seq<string>, sep: char)
    requires xs != []
    requires xs[0] != "" && xs[|xs| - 1] != ""
    ensures var s := Join(xs, sep);
            s != "" && s[0] == xs[0][0] && s[|s| - 1] == xs[|xs| - 1][|xs[|xs| - 1]| - 1]
  {
    if |xs| > 1 {
      JoinLast(xs, sep);
    }
  }

  lemma {:induction false} JoinLast(xs: seq<string>, sep: char)
    requires xs != [] && xs[|xs| - 1] != ""
    ensures var s := Join(xs, sep);
            s != "" && s[|s| - 1] == xs[|xs| - 1][|xs[|xs| - 1]| - 1]
  {
    if |xs| > 1 {
      assert xs[1..][|xs[1..]| - 1] == xs[|xs| - 1];
      JoinLast(xs[1..], sep);
    }
  }

  /** The reading every list field uses: trim the separator, then split. */
  function Pieces(s: string, sep: char): seq<string> {
    if s == "" then [] else Split(TrimChar(s, sep), sep)
  }

  /** A list without separators in its pieces survives being stored and read back
      exactly when neither of its ends is empty. */
  lemma PiecesJoin(xs: seq<string>, sep: char)
    requires AllFree(xs, sep)
    ensures Pieces(Join(xs, sep), sep) == xs <==> xs == [] || (xs[0] != "" && xs[|xs| - 1] != "")
  {
    if xs != [] {
      if xs[0] != "" && xs[|xs| - 1] != "" {
        JoinEnds(xs, sep);
        TrimKeeps(Join(xs, sep), x => x == sep);
        SplitJoin(xs, sep);
      } else {
        EmptyEndIsLost(xs, sep);
      }
    }
  }

  /** The same for any list with something in it: no piece may hold the separator. */
  lemma PiecesJoinIff(xs: seq<string>, sep: char)
    requires xs != []
    ensures Pieces(Join(xs, sep), sep) == xs <==> AllFree(xs, sep) && xs[0] != "" && xs[|xs| - 1] != ""
  {
    if AllFree(xs, sep) {
      PiecesJoin(xs, sep);
    }
  }

  lemma EmptyEndIsLost(xs: seq<string>, sep: char)
    requires xs != [] && (xs[0] == "" || xs[|xs| - 1] == "")
    ensures Pieces(Join(xs, sep), sep) != xs
  {
    var t := TrimChar(Join(xs, sep), sep);
    JoinSplit(t, sep);
    if |xs| > 1 && xs[|xs| - 1] == "" {
      JoinEndsInSeparator(xs, sep);
    }
  }

  lemma {:induction false} JoinEndsInSeparator(xs: seq<string>, sep: char)
    requires |xs| > 1 && xs[|xs| - 1] == ""
    ensures var s := Join(xs, sep); s != "" && s[|s| - 1] == sep
  {
    if |xs| > 2 {
      assert xs[1..][|xs[1..]| - 1] == "";
      JoinEndsInSeparator(xs[1..], sep);
    }
  }

  lemma SplitEnds(t: string, sep: char)
    requires t != "" && t[0] != sep && t[|t| - 1] != sep
    ensures var xs := Split(t, sep); xs[0] != "" && xs[|xs| - 1] != ""
  {
    var xs := Split(t, sep);
    JoinSplit(t, sep);
    if |xs| > 1 && xs[|xs| - 1] == "" {
      JoinEndsInSeparator(xs, sep);
    }
  }
}
