/**
 * The few `str` operations the cookie parser relies on: `strip`, `split`
 * on one separator character, `partition` and `in`.
 */
module Text {
  import opened Wrappers

  /** Python's `str.isspace` for one character. */
  predicate IsSpace(c: char)
  {
    || c == ' ' || '\t' <= c <= '\r' || '\U{1c}' <= c <= '\U{1f}'
    || c == '\U{85}' || c == '\U{a0}' || c == '\U{1680}'
    || '\U{2000}' <= c <= '\U{200a}' || c == '\U{2028}' || c == '\U{2029}'
    || c == '\U{202f}' || c == '\U{205f}' || c == '\U{3000}'
  }

  /** Neither starts nor ends with whitespace. */
  predicate IsStripped(s: string)
  {
    s == [] || (!IsSpace(s[0]) && !IsSpace(s[|s| - 1]))
  }

  /** `s.lstrip()`: drops the leading whitespace. */
  function TrimStart(s: string): (r: string)
    ensures |r| <= |s|
    ensures r == [] || !IsSpace(r[0])
  {
    if s == [] || !IsSpace(s[0]) then s else TrimStart(s[1..])
  }

  /** `lstrip` keeps a suffix and drops only whitespace. */
  lemma {:induction false} TrimStartSuffix(s: string)
    ensures TrimStart(s) == s[|s| - |TrimStart(s)|..]
    ensures forall i :: 0 <= i < |s| - |TrimStart(s)| ==> IsSpace(s[i])
  {
    if s != [] && IsSpace(s[0]) {
      TrimStartSuffix(s[1..]);
    }
  }

  /** `s.rstrip()`: drops the trailing whitespace. */
  function TrimEnd(s: string): (r: string)
    ensures |r| <= |s|
    ensures r == [] || !IsSpace(r[|r| - 1])
  {
    if s == [] || !IsSpace(s[|s| - 1]) then s else TrimEnd(s[..|s| - 1])
  }

  /** `rstrip` keeps a prefix and drops only whitespace. */
  lemma {:induction false} TrimEndPrefix(s: string)
    ensures TrimEnd(s) == s[..|TrimEnd(s)|]
    ensures forall i :: |TrimEnd(s)| <= i < |s| ==> IsSpace(s[i])
  {
    if s != [] && IsSpace(s[|s| - 1]) {
      TrimEndPrefix(s[..|s| - 1]);
    }
  }

  /**
   * `s.strip()`: the slice of `s` left once the whitespace at both ends is
   * dropped, and only that whitespace.
   */
  function Strip(s: string): (r: string)
    ensures |r| <= |s|
    ensures IsStripped(r)
    ensures exists i, j ::
      && 0 <= i <= j <= |s| && r == s[i..j]
      && (forall k :: 0 <= k < i ==> IsSpace(s[k]))
      && (forall k :: j <= k < |s| ==> IsSpace(s[k]))
  {
    var t := TrimStart(s);
    var r := TrimEnd(t);
    TrimStartSuffix(s);
    TrimEndPrefix(t);
    assert r != [] ==> r[0] == t[0];
    var i := |s| - |t|;
    var j := i + |r|;
    assert r == s[i..j];
    assert forall k :: j <= k < |s| ==> s[k] == t[k - i];
    r
  }

  /** Stripping only removes characters. */
  lemma StripChars(s: string, c: char)
    requires c in Strip(s)
    ensures c in s
  {
    var t := TrimStart(s);
    var r := Strip(s);
    TrimStartSuffix(s);
    TrimEndPrefix(t);
    var i :| 0 <= i < |r| && r[i] == c;
    assert r[i] == t[i] == s[|s| - |t| + i];
  }

  /** A string without surrounding whitespace is its own strip. */
  lemma StripStripped(s: string)
    requires IsStripped(s)
    ensures Strip(s) == s
  {
  }

  /** Stripping twice strips no more than once. */
  lemma StripIdempotent(s: string)
    ensures Strip(Strip(s)) == Strip(s)
  {
    StripStripped(Strip(s));
  }

  /** Whitespace in front of a string does not change its strip. */
  lemma StripAfterSpace(c: char, s: string)
    requires IsSpace(c)
    ensures Strip([c] + s) == Strip(s)
  {
    assert ([c] + s)[1..] == s;
  }

  /** The first index of `c` in `s`, if any. */
  function FindChar(s: string, c: char): (r: Option<nat>)
    ensures r.None? ==> forall i :: 0 <= i < |s| ==> s[i] != c
    ensures r.Some? ==> r.value < |s| && s[r.value] == c && forall i :: 0 <= i < r.value ==> s[i] != c
  {
    if s == [] then None
    else if s[0] == c then Some(0)
    else match FindChar(s[1..], c)
      case None => None
      case Some(i) => Some(i + 1)
  }

  /** `s.split(sep)` for a one-character separator: the pieces between separators. */
  function Split(s: string, sep: char): (r: seq<string>)
    ensures |r| >= 1
    decreases |s|
  {
    match FindChar(s, sep)
    case None => [s]
    case Some(i) => [s[..i]] + Split(s[i + 1..], sep)
  }

  /** No piece of a split holds the separator. */
  lemma {:induction false} SplitPiecesLackSeparator(s: string, sep: char)
    ensures forall i :: 0 <= i < |Split(s, sep)| ==> sep !in Split(s, sep)[i]
    decreases |s|
  {
    match FindChar(s, sep)
    case None =>
    case Some(i) =>
      SplitPiecesLackSeparator(s[i + 1..], sep);
      assert forall j :: 0 <= j < i ==> s[..i][j] != sep;
  }

  /** `sep.join(ps)` */
  function Join(ps: seq<string>, sep: char): string
    requires ps != []
  {
    if |ps| == 1 then ps[0] else ps[0] + [sep] + Join(ps[1..], sep)
  }

  /** Joining a piece in front of further pieces puts a separator between them. */
  lemma JoinCons(a: string, rest: seq<string>, sep: char)
    requires rest != []
    ensures Join([a] + rest, sep) == a + [sep] + Join(rest, sep)
  {
    assert ([a] + rest)[1..] == rest;
  }

  /** A string is its part before index `i`, the character at `i`, and the rest. */
  lemma SliceAround(s: string, i: nat)
    requires i < |s|
    ensures s == s[..i] + [s[i]] + s[i + 1..]
  {
  }

  /** Splitting at a found separator gives the head and the split of the rest. */
  lemma SplitAt(s: string, sep: char, i: nat)
    requires FindChar(s, sep) == Some(i)
    ensures Split(s, sep) == [s[..i]] + Split(s[i + 1..], sep)
  {
  }

  /** Joining the pieces of a split gives back the string. */
  lemma {:induction false} JoinSplit(s: string, sep: char)
    ensures Join(Split(s, sep), sep) == s
    decreases |s|
  {
    match FindChar(s, sep)
    case None =>
    case Some(i) =>
      var tail := s[i + 1..];
      var ps := Split(tail, sep);
      SplitAt(s, sep, i);
      JoinSplit(tail, sep);
      JoinCons(s[..i], ps, sep);
      SliceAround(s, i);
  }

  /** Splitting pieces joined by a separator none of them contains gives the pieces back. */
  lemma {:induction false} SplitJoin(ps: seq<string>, sep: char)
    requires ps != []
    requires forall i :: 0 <= i < |ps| ==> sep !in ps[i]
    ensures Split(Join(ps, sep), sep) == ps
    decreases |ps|
  {
    if |ps| > 1 {
      var rest := Join(ps[1..], sep);
      JoinHead(ps, sep);
      FindAfter(ps[0], [sep] + rest, sep);
      SplitAt(Join(ps, sep), sep, |ps[0]|);
      SplitJoin(ps[1..], sep);
      assert ps == [ps[0]] + ps[1..];
    } else {
      assert FindChar(ps[0], sep) == None;
    }
  }

  /** A join of several pieces is the first, a separator, and the join of the rest. */
  lemma JoinHead(ps: seq<string>, sep: char)
    requires |ps| > 1
    ensures var s := Join(ps, sep);
      && s == ps[0] + ([sep] + Join(ps[1..], sep))
      && s[..|ps[0]|] == ps[0]
      && s[|ps[0]| + 1..] == Join(ps[1..], sep)
  {
    var s := Join(ps, sep);
    assert s == ps[0] + ([sep] + Join(ps[1..], sep));
  }

  /** Searching past a prefix without `c` finds the first `c` of the rest. */
  lemma {:induction false} FindAfter(a: string, b: string, c: char)
    requires c !in a
    ensures FindChar(a + b, c) == match FindChar(b, c) case None => None case Some(j) => Some(|a| + j)
    decreases |a|
  {
    if a == [] {
      assert a + b == b;
    } else {
      var s := a + b;
      assert s[0] == a[0];
      assert s[1..] == a[1..] + b;
      FindAfter(a[1..], b, c);
      match FindChar(b, c)
      case None =>
        assert FindChar(s[1..], c) == None;
      case Some(j) =>
        assert FindChar(s[1..], c) == Some(|a| - 1 + j);
    }
  }

  /** `s.partition(c)` when `c in s`: the text before the first `c` and after it. */
  function Partition(s: string, c: char): (r: (string, string))
    requires c in s
  {
    var i := FindChar(s, c).value;
    (s[..i], s[i + 1..])
  }

  /** The partition rebuilds the string, and its head holds no `c`. */
  lemma PartitionParts(s: string, c: char)
    requires c in s
    ensures var r := Partition(s, c);
      c !in r.0 && s == r.0 + [c] + r.1
  {
    var i := FindChar(s, c).value;
    assert s == s[..i] + [c] + s[i + 1..];
  }
}
