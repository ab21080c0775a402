/** The generic vector algebra of `vector_alg.py`: component-wise arithmetic,
    equality, the dot product, and a `Vector` object whose backing array is
    updated in place by index assignment. */
module VectorAlg {
  import opened Outcomes

  /** Python index resolution for a container of length `n`: an index in
      [-n, n) is valid and a negative one counts from the end. */
  function ResolveIndex(index: int, n: nat): (r: Result<nat>)
    ensures r.Ok? <==> -(n as int) <= index < n
    ensures r.Ok? ==> r.value < n && (r.value == index || r.value == index + n)
    ensures r.Err? ==> r.error == IndexError
  {
    if 0 <= index < n then Ok(index)
    else if -(n as int) <= index < 0 then Ok(index + n)
    else Err(IndexError)
  }

  /** `a + b`: operands of equal length are added component by component. */
  function Add(a: seq<real>, b: seq<real>): (r: seq<real>)
    requires |a| == |b|
    ensures |r| == |a|
    ensures forall i :: 0 <= i < |r| ==> r[i] == a[i] + b[i]
  {
    seq(|a|, i requires 0 <= i < |a| => a[i] + b[i])
  }

  /** `a - b`: operands of equal length are subtracted component by component. */
  function Sub(a: seq<real>, b: seq<real>): (r: seq<real>)
    requires |a| == |b|
    ensures |r| == |a|
    ensures forall i :: 0 <= i < |r| ==> r[i] == a[i] - b[i]
  {
    seq(|a|, i requires 0 <= i < |a| => a[i] - b[i])
  }

  /** `s * v` and `v * s`: both Python operators compute `s * array`. */
  function Scale(s: real, v: seq<real>): (r: seq<real>)
    ensures |r| == |v|
    ensures forall i :: 0 <= i < |r| ==> r[i] == s * v[i]
  {
    seq(|v|, i requires 0 <= i < |v| => s * v[i])
  }

  /** `-v`, written in the source as `-1 * v`. */
  function Neg(v: seq<real>): (r: seq<real>)
    ensures |r| == |v|
    ensures forall i :: 0 <= i < |r| ==> r[i] == -v[i]
  {
    Scale(-1.0, v)
  }

  /** `v / s`, written in the source as `1. / s * v`; `1. / 0` raises. */
  function Div(v: seq<real>, s: real): (r: Result<seq<real>>)
    ensures r.Ok? <==> s != 0.0
    ensures r.Err? ==> r.error == ZeroDivisionError
    ensures r.Ok? ==> |r.value| == |v| && Scale(s, r.value) == v
  {
    if s == 0.0 then Err(ZeroDivisionError)
    else
      var q := Scale(1.0 / s, v);
      forall i | 0 <= i < |v| ensures Scale(s, q)[i] == v[i] {
        calc {
          Scale(s, q)[i];
          s * ((1.0 / s) * v[i]);
          (s * (1.0 / s)) * v[i];
          v[i];
        }
      }
      assert Scale(s, q) == v;
      Ok(q)
  }

  /** `a == b`: false (never an error) when the sizes differ, otherwise
      whether every component matches. */
  function Equal(a: seq<real>, b: seq<real>): (r: bool)
    ensures r <==> a == b
  {
    |a| == |b| && forall i :: 0 <= i < |a| ==> a[i] == b[i]
  }

  /** `dot(a, b)`: the sum of the component products. */
  function Dot(a: seq<real>, b: seq<real>): real
    requires |a| == |b|
  {
    if |a| == 0 then 0.0 else a[0] * b[0] + Dot(a[1..], b[1..])
  }

  /** Subtraction is addition of the negation. */
  lemma SubIsAddNeg(a: seq<real>, b: seq<real>)
    requires |a| == |b|
    ensures Sub(a, b) == Add(a, Neg(b))
  {
    assert forall i :: 0 <= i < |a| ==> Sub(a, b)[i] == Add(a, Neg(b))[i];
  }

  /** Negation is an involution. */
  lemma NegNeg(v: seq<real>)
    ensures Neg(Neg(v)) == v
  {
    assert forall i :: 0 <= i < |v| ==> Neg(Neg(v))[i] == v[i];
  }

  /** Displacing `a` by `b` and then taking the difference from `a` gives back `b`. */
  lemma AddSubCancel(a: seq<real>, b: seq<real>)
    requires |a| == |b|
    ensures Sub(Add(a, b), a) == b
  {
    assert forall i :: 0 <= i < |a| ==> Sub(Add(a, b), a)[i] == b[i];
  }

  /** Addition does not depend on the order of the operands. */
  lemma AddCommutes(a: seq<real>, b: seq<real>)
    requires |a| == |b|
    ensures Add(a, b) == Add(b, a)
  {
    assert forall i :: 0 <= i < |a| ==> Add(a, b)[i] == Add(b, a)[i];
  }

  lemma {:induction false} DotSymmetric(a: seq<real>, b: seq<real>)
    requires |a| == |b|
    ensures Dot(a, b) == Dot(b, a)
  {
    if |a| > 0 {
      DotSymmetric(a[1..], b[1..]);
    }
  }

  lemma {:induction false} DotSelfNonNegative(v: seq<real>)
    ensures Dot(v, v) >= 0.0
  {
    if |v| > 0 {
      DotSelfNonNegative(v[1..]);
      assert v[0] * v[0] >= 0.0;
    }
  }

  /** A vector with a non-zero component has a positive squared length. */
  lemma {:induction false} DotSelfPositive(v: seq<real>, k: nat)
    requires k < |v| && v[k] != 0.0
    ensures Dot(v, v) > 0.0
  {
    DotSelfNonNegative(v[1..]);
    if k == 0 {
      calc {
        Dot(v, v);
        ==
        v[0] * v[0] + Dot(v[1..], v[1..]);
        >=
        v[0] * v[0];
        > { SquarePositive(v[0]); }
        0.0;
      }
    } else {
      DotSelfPositive(v[1..], k - 1);
      assert v[0] * v[0] >= 0.0;
    }
  }

  /** The squared length of the zero vector is zero. */
  lemma {:induction false} DotSelfOfZero(v: seq<real>)
    requires forall i :: 0 <= i < |v| ==> v[i] == 0.0
    ensures Dot(v, v) == 0.0
  {
    if |v| > 0 {
      DotSelfOfZero(v[1..]);
    }
  }

  /** The squared length vanishes exactly for the zero vector. */
  lemma DotSelfZero(v: seq<real>)
    ensures Dot(v, v) == 0.0 <==> forall i :: 0 <= i < |v| ==> v[i] == 0.0
  {
    if forall i :: 0 <= i < |v| ==> v[i] == 0.0 {
      DotSelfOfZero(v);
    } else {
      var k :| 0 <= k < |v| && v[k] != 0.0;
      DotSelfPositive(v, k);
    }
  }

  lemma SquarePositive(x: real)
    requires x != 0.0
    ensures x * x > 0.0
  {
    if x < 0.0 { assert x * x == (-x) * (-x); }
  }

  /** Scaling distributes over the dot product in its first argument. */
  lemma {:induction false} DotScale(s: real, a: seq<real>, b: seq<real>)
    requires |a| == |b|
    ensures Dot(Scale(s, a), b) == s * Dot(a, b)
  {
    if |a| > 0 {
      DotScale(s, a[1..], b[1..]);
      assert forall i :: 0 <= i < |a| - 1 ==> Scale(s, a)[1..][i] == Scale(s, a[1..])[i];
      assert Scale(s, a)[1..] == Scale(s, a[1..]);
    }
  }

  /** A `Vector` object: `data` is the numpy array it wraps. The arithmetic
      operators above build fresh vectors; only index assignment changes one. */
  class Vector {
    const data: array<real>

    /** `Vector(*args)`: one component per argument, none for no arguments. */
    constructor (args: seq<real>)
      ensures fresh(data)
      ensures data[..] == args && Size() == |args|
    {
      data := new real[|args|](i requires 0 <= i < |args| => args[i]);
    }

    /** `size()`: the number of components. */
    function Size(): nat
      reads this
    {
      data.Length
    }

    /** `v[index]`: reads the resolved slot, or raises IndexError. */
    function GetItem(index: int): (r: Result<real>)
      reads this, data
      ensures r.Ok? <==> -data.Length <= index < data.Length
      ensures r.Ok? ==> r.value == data[if index < 0 then index + data.Length else index]
      ensures r.Err? ==> r.error == IndexError
    {
      var k :- ResolveIndex(index, data.Length);
      Ok(data[k])
    }

    /** `v[index] = value`: changes the resolved component only, or raises
        IndexError and changes nothing. */
    method SetItem(index: int, value: real) returns (r: Result<()>)
      modifies data
      ensures r.Ok? <==> -data.Length <= index < data.Length
      ensures r.Ok? ==> data[..] == old(data[..])[(if index < 0 then index + data.Length else index) := value]
      ensures r.Err? ==> r.error == IndexError && data[..] == old(data[..])
    {
      var k := ResolveIndex(index, data.Length);
      if k.Err? {
        return Err(k.error);
      }
      data[k.value] := value;
      r := Ok(());
    }
  }
}
