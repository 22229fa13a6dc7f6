/** The list and array primitives the agents and the table lean on:
    Python's sum and max, numpy's zeros and argmax, and Python's
    negative indexing. */
module Vectors {
  import opened Wrappers

  /** Python's max() and min() of two numbers: the first argument wins a
      tie. */
  function MaxReal(a: real, b: real): real { if a >= b then a else b }
  function MinReal(a: real, b: real): real { if a <= b then a else b }
  function MaxInt(a: int, b: int): int { if a >= b then a else b }

  lemma NonNegativeProduct(a: real, b: real)
    requires a >= 0.0 && b >= 0.0
    ensures a * b >= 0.0
  {
  }

  /** sum() over a list of integers. */
  function Sum(s: seq<int>): int {
    if |s| == 0 then 0 else s[0] + Sum(s[1..])
  }

  /** Adding d to one entry adds d to the sum. */
  lemma {:induction false} SumUpdate(s: seq<int>, i: nat, d: int)
    requires i < |s|
    ensures Sum(s[i := s[i] + d]) == Sum(s) + d
  {
    if i > 0 {
      assert s[i := s[i] + d][1..] == s[1..][i - 1 := s[i] + d];
      SumUpdate(s[1..], i - 1, d);
    }
  }

  lemma {:induction false} SumOfZeros(n: nat)
    ensures Sum(seq(n, _ => 0)) == 0
  {
    if n > 0 {
      assert seq(n, _ => 0)[1..] == seq(n - 1, _ => 0);
      SumOfZeros(n - 1);
    }
  }

  /** Python's max over a non-empty list. */
  function MaxOf(s: seq<int>): (m: int)
    requires |s| > 0
    ensures m in s && forall x :: x in s ==> x <= m
  {
    if |s| == 1 then s[0]
    else
      var rest := MaxOf(s[1..]);
      assert forall x :: x in s ==> x == s[0] || x in s[1..];
      if s[0] >= rest then s[0] else rest
  }

  /** np.argmax over a non-empty vector: the position of the FIRST largest
      entry. */
  function ArgMax(q: seq<real>): (i: nat)
    requires |q| > 0
    ensures i < |q|
    ensures forall j :: 0 <= j < |q| ==> q[j] <= q[i]
    ensures forall j :: 0 <= j < i ==> q[j] < q[i]
  {
    if |q| == 1 then 0
    else
      var k := ArgMax(q[..|q| - 1]);
      if q[|q| - 1] > q[k] then |q| - 1 else k
  }

  /** The position of the first largest entry is unique: any position
      that holds a maximum and is preceded only by smaller entries is the
      one argmax returns. */
  lemma ArgMaxIsFirstMaximum(q: seq<real>, i: nat)
    requires i < |q|
    requires forall j :: 0 <= j < |q| ==> q[j] <= q[i]
    requires forall j :: 0 <= j < i ==> q[j] < q[i]
    ensures ArgMax(q) == i
  {
  }

  /** np.zeros(n) */
  function Zeros(n: nat): (z: seq<real>)
    ensures |z| == n && forall j :: 0 <= j < n ==> z[j] == 0.0
  {
    seq(n, _ => 0.0)
  }

  /** np.zeros((rows, cols)) */
  function ZeroMatrix(rows: nat, cols: nat): (m: seq<seq<real>>)
    ensures |m| == rows && forall i :: 0 <= i < rows ==> m[i] == Zeros(cols)
  {
    seq(rows, _ => Zeros(cols))
  }

  /** Python and numpy indexing: -n <= i < 0 counts from the end; anything
      outside [-n, n) is an IndexError. */
  function PyIndex(i: int, n: nat): (r: Option<nat>)
    ensures r.Some? <==> -(n as int) <= i < n
    ensures r.Some? ==> r.value < n && (r.value == i || r.value == i + n)
  {
    if 0 <= i < n then Some(i) else if -(n as int) <= i < 0 then Some((i + n) as nat) else None
  }
}
