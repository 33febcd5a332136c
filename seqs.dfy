/** Option, sequence and vector helpers shared by the decomposition, projection and
    ranking models: reversal (numpy's `[::-1]` slice) and the dot product of
    two real vectors. */
module Seqs {

  /** A value that may be absent (Python's `None`). */
  datatype Option<T> = None | Some(value: T)

  /** `s[::-1]`: the same elements, last first. */
  function Reverse<T>(s: seq<T>): (r: seq<T>)
    ensures |r| == |s|
    ensures forall i :: 0 <= i < |s| ==> r[i] == s[|s| - 1 - i]
  {
    seq(|s|, i requires 0 <= i < |s| => s[|s| - 1 - i])
  }

  /** Reversal keeps the elements: x occurs in Reverse(s) exactly when it
      occurs in s. */
  lemma ReverseMembers<T>(s: seq<T>)
    ensures forall x :: x in Reverse(s) <==> x in s
  {
    var r := Reverse(s);
    forall x ensures x in r <==> x in s {
      if x in r {
        var a :| 0 <= a < |r| && r[a] == x;
        assert s[|s| - 1 - a] == x;
      }
      if x in s {
        var a :| 0 <= a < |s| && s[a] == x;
        assert r[|s| - 1 - a] == x;
      }
    }
  }

  /** Reversing twice gives back the original sequence. */
  lemma ReverseInvolution<T>(s: seq<T>)
    ensures Reverse(Reverse(s)) == s
  {
    assert forall i :: 0 <= i < |s| ==> Reverse(Reverse(s))[i] == s[i];
  }

  /** Reversal of a non-empty sequence moves its head to the end. */
  lemma ReverseCons<T>(s: seq<T>)
    requires |s| > 0
    ensures Reverse(s) == Reverse(s[1..]) + [s[0]]
  {
    assert forall i :: 0 <= i < |s| ==> Reverse(s)[i] == (Reverse(s[1..]) + [s[0]])[i];
  }

  /** Every row of `m` has exactly `cols` entries. */
  predicate RowsOfWidth(m: seq<seq<real>>, cols: nat) {
    forall i :: 0 <= i < |m| ==> |m[i]| == cols
  }

  /** Column `j` of a matrix given as a sequence of rows: numpy's `m[:, j]`. */
  function Column(m: seq<seq<real>>, j: nat): (c: seq<real>)
    requires forall i :: 0 <= i < |m| ==> j < |m[i]|
    ensures |c| == |m| && forall i :: 0 <= i < |m| ==> c[i] == m[i][j]
  {
    seq(|m|, i requires 0 <= i < |m| => m[i][j])
  }

  /** Sum of the element-wise products of two vectors of the same length. */
  function Dot(a: seq<real>, b: seq<real>): real
    requires |a| == |b|
  {
    if |a| == 0 then 0.0 else a[0] * b[0] + Dot(a[1..], b[1..])
  }

  /** The dot product distributes over concatenation of both operands. */
  lemma {:induction false} DotAppend(a: seq<real>, a': seq<real>, b: seq<real>, b': seq<real>)
    requires |a| == |b| && |a'| == |b'|
    ensures Dot(a + a', b + b') == Dot(a, b) + Dot(a', b')
  {
    if |a| > 0 {
      assert (a + a')[1..] == a[1..] + a';
      assert (b + b')[1..] == b[1..] + b';
      DotAppend(a[1..], a', b[1..], b');
    } else {
      assert a + a' == a' && b + b' == b';
    }
  }

  /** The dot product does not depend on the order of the coordinates, as
      long as both vectors are reordered the same way (here: reversed). */
  lemma {:induction false} DotReverse(a: seq<real>, b: seq<real>)
    requires |a| == |b|
    ensures Dot(Reverse(a), Reverse(b)) == Dot(a, b)
  {
    if |a| > 0 {
      ReverseCons(a);
      ReverseCons(b);
      DotAppend(Reverse(a[1..]), [a[0]], Reverse(b[1..]), [b[0]]);
      DotReverse(a[1..], b[1..]);
    }
  }

  /** A vector whose entries are all zero has a zero dot product with anything. */
  lemma {:induction false} DotZero(a: seq<real>, b: seq<real>)
    requires |a| == |b|
    requires forall i :: 0 <= i < |a| ==> a[i] == 0.0
    ensures Dot(a, b) == 0.0
  {
    if |a| > 0 {
      DotZero(a[1..], b[1..]);
    }
  }

  /** Dot product with the t-th unit vector picks entry t. */
  lemma {:induction false} DotUnit(a: seq<real>, b: seq<real>, t: nat)
    requires |a| == |b| && t < |a|
    requires a[t] == 1.0
    requires forall i :: 0 <= i < |a| && i != t ==> a[i] == 0.0
    ensures Dot(a, b) == b[t]
  {
    if t == 0 {
      DotZero(a[1..], b[1..]);
    } else {
      DotUnit(a[1..], b[1..], t - 1);
    }
  }
}
