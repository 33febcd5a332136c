/** The Python string operations data_filter.py relies on: `str.split()`
    with no argument, `str.strip()` with no argument, and
    `str.replace('\n', ' ')`. Both `split` and `strip` use Python's notion of
    whitespace, `IsSpace` below. */
module TextOps {

  /** Python's `str.isspace` for one character: the ASCII separators and
      the Unicode space characters. */
  predicate IsSpace(c: char) {
    var n := c as int;
    || n == 0x20 || 0x09 <= n <= 0x0D || 0x1C <= n <= 0x1F || n == 0x85 || n == 0xA0
    || n == 0x1680 || 0x2000 <= n <= 0x200A || n == 0x2028 || n == 0x2029
    || n == 0x202F || n == 0x205F || n == 0x3000
  }

  /** No character of `s` is whitespace. */
  predicate NoSpace(s: string) {
    forall i :: 0 <= i < |s| ==> !IsSpace(s[i])
  }

  /** Every character of `s` is whitespace. */
  predicate AllSpace(s: string) {
    forall i :: 0 <= i < |s| ==> IsSpace(s[i])
  }

  /** The end of the run of non-whitespace characters starting at `p`: the
      first whitespace position at or after p, or |s| if there is none. */
  function WordEnd(s: string, p: nat): (e: nat)
    requires p <= |s|
    ensures p <= e <= |s| && (e < |s| ==> IsSpace(s[e]))
    ensures forall k :: p <= k < e ==> !IsSpace(s[k])
    decreases |s| - p
  {
    if p == |s| || IsSpace(s[p]) then p else WordEnd(s, p + 1)
  }

  /** The words of `s` from position `p` on, scanning left to right: skip
      whitespace, take a word up to the next whitespace, repeat. */
  function SplitFrom(s: string, p: nat): seq<string>
    requires p <= |s|
    decreases |s| - p
  {
    if p == |s| then []
    else if IsSpace(s[p]) then SplitFrom(s, p + 1)
    else
      var e := WordEnd(s, p);
      [s[p..e]] + SplitFrom(s, e)
  }

  /** `s[i..j]` is a maximal run of non-whitespace characters: it is
      non-empty, holds no whitespace, and has whitespace or an end of `s` on
      each side. */
  predicate WordAt(s: string, i: int, j: int) {
    && 0 <= i < j <= |s|
    && (forall k :: i <= k < j ==> !IsSpace(s[k]))
    && (i == 0 || IsSpace(s[i - 1]))
    && (j == |s| || IsSpace(s[j]))
  }

  /** No run of non-whitespace crosses position `p`. */
  predicate Boundary(s: string, p: nat)
    requires p <= |s|
  {
    p == 0 || p == |s| || IsSpace(s[p - 1]) || IsSpace(s[p])
  }

  /** The characters at positions i to j-1 of `s` are those of the slice. */
  lemma NoSpaceSlice(s: string, i: nat, j: nat)
    requires i <= j <= |s| && forall k :: i <= k < j ==> !IsSpace(s[k])
    ensures NoSpace(s[i..j])
  {
    forall k | 0 <= k < j - i ensures !IsSpace(s[i..j][k]) {
      assert s[i..j][k] == s[i + k];
    }
  }

  /** `s.split()`: the maximal runs of non-whitespace characters, in order.
      Every word is non-empty and holds no whitespace. */
  function Split(s: string): (words: seq<string>)
    ensures forall w :: w in words ==> w != [] && NoSpace(w)
  {
    SplitWords(s);
    SplitFrom(s, 0)
  }

  /** `split()` returns exactly the maximal runs of non-whitespace: w is one
      of the words of `s` if and only if it is some `s[i..j]` with no
      whitespace inside and whitespace or an end of `s` on either side. */
  lemma SplitWords(s: string)
    ensures forall w :: w in SplitFrom(s, 0) <==> exists i, j :: WordAt(s, i, j) && s[i..j] == w
  {
    forall w | w in SplitFrom(s, 0) ensures exists i, j :: WordAt(s, i, j) && s[i..j] == w {
      var i, j := WordFrom(s, 0, w);
    }
    forall i, j | WordAt(s, i, j) ensures s[i..j] in SplitFrom(s, 0) {
      RunFrom(s, 0, i, j);
    }
  }

  /** Each word found from a boundary p on is a maximal run at or after p. */
  lemma {:induction false} WordFrom(s: string, p: nat, w: string) returns (i: int, j: int)
    requires p <= |s| && Boundary(s, p) && w in SplitFrom(s, p)
    ensures p <= i && WordAt(s, i, j) && s[i..j] == w
    decreases |s| - p
  {
    if IsSpace(s[p]) {
      i, j := WordFrom(s, p + 1, w);
    } else {
      var e := WordEnd(s, p);
      if w in SplitFrom(s, e) {
        i, j := WordFrom(s, e, w);
      } else {
        i, j := p, e;
      }
    }
  }

  /** Each maximal run at or after a boundary p is found from p on. */
  lemma {:induction false} RunFrom(s: string, p: nat, i: int, j: int)
    requires p <= |s| && Boundary(s, p) && p <= i && WordAt(s, i, j)
    ensures s[i..j] in SplitFrom(s, p)
    decreases |s| - p
  {
    if IsSpace(s[p]) {
      RunFrom(s, p + 1, i, j);
    } else {
      var e := WordEnd(s, p);
      if i == p {
        assert j == e;
      } else {
        assert i > e;
        RunFrom(s, e, i, j);
      }
    }
  }

  /** `s` with its whitespace removed. */
  function Squeeze(s: string): string {
    if s == [] then [] else (if IsSpace(s[0]) then [] else [s[0]]) + Squeeze(s[1..])
  }

  /** The words concatenated. */
  function Concat(words: seq<string>): string {
    if words == [] then [] else words[0] + Concat(words[1..])
  }

  lemma {:induction false} SqueezeAppend(a: string, b: string)
    ensures Squeeze(a + b) == Squeeze(a) + Squeeze(b)
  {
    if a != [] {
      assert (a + b)[1..] == a[1..] + b;
      SqueezeAppend(a[1..], b);
    } else {
      assert a + b == b;
    }
  }

  lemma {:induction false} SqueezeNoSpace(w: string)
    requires NoSpace(w)
    ensures Squeeze(w) == w
  {
    if w != [] {
      SqueezeNoSpace(w[1..]);
    }
  }

  /** Splitting loses exactly the whitespace: the words, put back together,
      are the input without its whitespace characters. Together with
      SplitWords this says that Split neither drops nor invents
      characters. */
  lemma SplitKeepsCharacters(s: string)
    ensures Concat(Split(s)) == Squeeze(s)
  {
    SqueezeFrom(s, 0);
    assert s[0..] == s;
  }

  lemma {:induction false} SqueezeFrom(s: string, p: nat)
    requires p <= |s|
    ensures Concat(SplitFrom(s, p)) == Squeeze(s[p..])
    decreases |s| - p
  {
    if p == |s| {
    } else if IsSpace(s[p]) {
      SqueezeFrom(s, p + 1);
      assert s[p..][1..] == s[p + 1..];
    } else {
      var e := WordEnd(s, p);
      SqueezeFrom(s, e);
      assert s[p..] == s[p..e] + s[e..];
      SqueezeAppend(s[p..e], s[e..]);
      NoSpaceSlice(s, p, e);
      SqueezeNoSpace(s[p..e]);
      assert ([s[p..e]] + SplitFrom(s, e))[1..] == SplitFrom(s, e);
    }
  }

  /** A whitespace-free non-empty string is one word. */
  lemma SplitSingleWord(s: string)
    requires s != [] && NoSpace(s)
    ensures Split(s) == [s]
  {
    var e := WordEnd(s, 0);
    assert e == |s|;
    assert s[0..e] == s;
    assert SplitFrom(s, 0) == [s[0..e]] + SplitFrom(s, e);
  }

  /** `s.replace('\n', ' ')`. */
  function ReplaceNewlines(s: string): (r: string)
    ensures |r| == |s| && '\n' !in r
    ensures forall i :: 0 <= i < |s| ==> r[i] == (if s[i] == '\n' then ' ' else s[i])
  {
    seq(|s|, i requires 0 <= i < |s| => if s[i] == '\n' then ' ' else s[i])
  }

  /** Number of whitespace characters at the start of `s`. */
  function Leading(s: string): (n: nat)
    ensures n <= |s| && AllSpace(s[..n]) && (n < |s| ==> !IsSpace(s[n]))
  {
    if s == [] || !IsSpace(s[0]) then 0 else 1 + Leading(s[1..])
  }

  /** Number of whitespace characters at the end of `s`. */
  function Trailing(s: string): (n: nat)
    ensures n <= |s| && AllSpace(s[|s| - n..]) && (n < |s| ==> !IsSpace(s[|s| - 1 - n]))
  {
    if s == [] || !IsSpace(s[|s| - 1]) then 0
    else
      var m := Trailing(s[..|s| - 1]);
      assert s[..|s| - 1][|s| - 1 - m..] == s[|s| - 1 - m..|s| - 1];
      1 + m
  }

  /** `s.strip()`: `s` without its leading and trailing whitespace. The
      result is a contiguous part of `s`, everything cut off is whitespace,
      and the result neither starts nor ends with whitespace. */
  function Strip(s: string): (r: string)
    ensures r == [] || (!IsSpace(r[0]) && !IsSpace(r[|r| - 1]))
    ensures exists i :: 0 <= i <= |s| - |r| && s[i..i + |r|] == r && AllSpace(s[..i]) && AllSpace(s[i + |r|..])
  {
    var l := Leading(s);
    var t := s[l..];
    var e := |t| - Trailing(t);
    var r := t[..e];
    assert s[l..l + e] == r;
    assert s[l + e..] == t[e..];
    assert AllSpace(s[..l]) && AllSpace(s[l + e..]);
    r
  }

  /** The text cleaning of one field: newlines become spaces, then the
      ends are stripped. */
  function Clean(s: string): (r: string)
    ensures '\n' !in r
    ensures r == [] || (!IsSpace(r[0]) && !IsSpace(r[|r| - 1]))
  {
    Strip(ReplaceNewlines(s))
  }

  /** A string without newlines and without whitespace at its ends is
      already clean. */
  lemma CleanFixedPoint(s: string)
    requires '\n' !in s && (s == [] || (!IsSpace(s[0]) && !IsSpace(s[|s| - 1])))
    ensures Clean(s) == s
  {
    assert ReplaceNewlines(s) == s;
    var t := s[Leading(s)..];
    assert t == s;
    assert Trailing(t) == 0;
  }

  /** Cleaning twice is cleaning once. */
  lemma CleanIdempotent(s: string)
    ensures Clean(Clean(s)) == Clean(s)
  {
    CleanFixedPoint(Clean(s));
  }
}
