/** The 3-component vector of `vector_3d.py`: its value type, the cross
    product, and the `Vector3D` object whose named fields x, y, z are kept
    in step with slots 0, 1, 2 of the array it inherits from `Vector`. */
module Vector3 {
  import opened Outcomes
  import opened VectorAlg

  /** The value of a Vector3D: exactly three components. */
  type Vec3 = v: seq<real> | |v| == 3 witness [0.0, 0.0, 0.0]

  /** The named components, in index order. */
  const Components: seq<string> := ["x", "y", "z"]

  /** `Components.index(name)`, which raises ValueError for any other name. */
  function ComponentIndex(name: string): (r: Result<nat>)
    ensures r.Ok? <==> name in Components
    ensures r.Ok? ==> r.value < |Components| && Components[r.value] == name
    ensures r.Err? ==> r.error == ValueError
  {
    if name == "x" then Ok(0)
    else if name == "y" then Ok(1)
    else if name == "z" then Ok(2)
    else Err(ValueError)
  }

  /** The dot product of two 3-vectors, written out. */
  lemma Dot3(a: seq<real>, b: seq<real>)
    requires |a| == 3 && |b| == 3
    ensures Dot(a, b) == a[0] * b[0] + a[1] * b[1] + a[2] * b[2]
  {
    var a1, b1 := a[1..], b[1..];
    var a2, b2 := a1[1..], b1[1..];
    assert Dot(a2[1..], b2[1..]) == 0.0;
    calc {
      Dot(a, b);
      a[0] * b[0] + Dot(a1, b1);
      a[0] * b[0] + (a1[0] * b1[0] + Dot(a2, b2));
      a[0] * b[0] + (a1[0] * b1[0] + (a2[0] * b2[0] + Dot(a2[1..], b2[1..])));
      a[0] * b[0] + a[1] * b[1] + a[2] * b[2];
    }
  }

  /** `cross(a, b)`: the right-handed cross product. */
  function Cross(a: Vec3, b: Vec3): Vec3
  {
    [a[1] * b[2] - a[2] * b[1],
     a[2] * b[0] - a[0] * b[2],
     a[0] * b[1] - a[1] * b[0]]
  }

  /** The cross product is orthogonal to both of its operands. */
  lemma CrossOrthogonal(a: Vec3, b: Vec3)
    ensures Dot(Cross(a, b), a) == 0.0 && Dot(Cross(a, b), b) == 0.0
  {
    Dot3(Cross(a, b), a);
    Dot3(Cross(a, b), b);
  }

  /** Swapping the operands negates the cross product. */
  lemma CrossAntiSymmetric(a: Vec3, b: Vec3)
    ensures Cross(a, b) == Neg(Cross(b, a))
  {
    assert forall i :: 0 <= i < 3 ==> Cross(a, b)[i] == Neg(Cross(b, a))[i];
  }

  /** A vector crossed with itself is the zero vector. */
  lemma CrossSelf(a: Vec3)
    ensures Cross(a, a) == [0.0, 0.0, 0.0]
  {
  }

  /** The cases checked against e1 = (1, 0, 0). */
  lemma CrossWithE1()
    ensures Cross([1.0, 0.0, 0.0], [0.0, 1.0, 0.0]) == [0.0, 0.0, 1.0]
    ensures Cross([1.0, 0.0, 0.0], [0.0, 0.0, 1.0]) == [0.0, -1.0, 0.0]
    ensures Cross([1.0, 0.0, 0.0], [1.0, 1.0, 1.0]) == [0.0, -1.0, 1.0]
    ensures Cross([1.0, 0.0, 0.0], [1.0, 0.0, 0.0]) == [0.0, 0.0, 0.0]
  {
  }

  /** A `Vector3D` object. Python inheritance from `Vector` is modelled by
      composition: `base` is the inherited part, holding the array. The
      named fields are instance attributes; `attrs` holds any other
      attribute assigned to the object. */
  class Vector3D {
    const base: Vector
    var x: real
    var y: real
    var z: real
    var attrs: map<string, real>

    /** x, y and z always equal array slots 0, 1 and 2. */
    ghost predicate Valid()
      reads this, base, base.data
    {
      base.data.Length == 3 && base.data[0] == x && base.data[1] == y && base.data[2] == z
    }

    /** The components: the array, which agrees with the named fields. */
    function Value(): (v: Vec3)
      reads this, base, base.data
      requires Valid()
      ensures v == [x, y, z]
    {
      base.data[..]
    }

    /** The part of `__init__` after the arity check: the named fields are
        read from the array. */
    constructor FromBase(b: Vector)
      requires b.data.Length == 3
      ensures base == b && Valid() && attrs == map[]
      ensures b.data[..] == old(b.data[..])
    {
      base := b;
      x, y, z := b.data[0], b.data[1], b.data[2];
      attrs := map[];
    }

    /** `Vector3D(*args)`: raises ValueError unless exactly three components
        are given. */
    static method Create(args: seq<real>) returns (r: Result<Vector3D>)
      ensures r.Ok? <==> |args| == 3
      ensures r.Err? ==> r.error == ValueError
      ensures r.Ok? ==> fresh(r.value) && fresh(r.value.base) && fresh(r.value.base.data)
      ensures r.Ok? ==> r.value.Valid() && r.value.Value() == args && r.value.attrs == map[]
    {
      var b := new Vector(args);
      if b.Size() != 3 {
        return Err(ValueError);
      }
      var v := new Vector3D.FromBase(b);
      r := Ok(v);
    }

    /** `size()`: always 3, the size of the inherited array. */
    function Size(): (n: nat)
      reads this, base, base.data
      requires Valid()
      ensures n == base.Size()
    {
      3
    }

    /** `v.name = value`: a component name also writes the matching array
        slot; any other name leaves the array alone. */
    method SetAttr(name: string, value: real)
      requires Valid()
      modifies this, base.data
      ensures Valid()
      ensures name in Components ==>
        Value() == old(Value())[ComponentIndex(name).value := value] && attrs == old(attrs)
      ensures name !in Components ==>
        Value() == old(Value()) && attrs == old(attrs)[name := value]
    {
      var k := ComponentIndex(name);
      if k.Ok? {
        var _ := base.SetItem(k.value, value);
        if k.value == 0 {
          x := value;
        } else if k.value == 1 {
          y := value;
        } else {
          z := value;
        }
      } else {
        attrs := attrs[name := value];
      }
    }

    /** `v[index] = value`: assigns the component `Components[index]`, so
        -1, -2 and -3 reach z, y and x; any other index raises IndexError. */
    method SetItem(index: int, value: real) returns (r: Result<()>)
      requires Valid()
      modifies this, base.data
      ensures Valid() && attrs == old(attrs)
      ensures r.Ok? <==> -3 <= index < 3
      ensures r.Ok? ==> Value() == old(Value())[(if index < 0 then index + 3 else index) := value]
      ensures r.Err? ==> r.error == IndexError && Value() == old(Value())
    {
      var k := ResolveIndex(index, |Components|);
      if k.Err? {
        return Err(IndexError);
      }
      assert ComponentIndex(Components[k.value]) == Ok(k.value);
      SetAttr(Components[k.value], value);
      r := Ok(());
    }
  }
}
