/**
 * A four-component vector backed by an array of four numbers, read and
 * written in place. Numbers are modelled as reals: the vector does no
 * arithmetic, it only stores what it is given.
 */
module Vector4 {

  class Vector4 {
    /** The array backing the vector: x, y, z and w at indices 0 to 3. It is never replaced. */
    const elements: array<real>

    ghost predicate Valid()
      reads this
    {
      elements.Length == 4
    }

    /** `new Vector4(x, y, z, w)`: a fresh backing array holding the four coordinates in order. */
    constructor (x: real, y: real, z: real, w: real)
      ensures Valid() && fresh(elements)
      ensures elements[..] == [x, y, z, w]
    {
      var a := new real[4];
      a[0], a[1], a[2], a[3] := x, y, z, w;
      elements := a;
      assert a[..] == [x, y, z, w];
    }

    /** `Vector4.fromZero()`: a new vector with every coordinate 0. */
    static method FromZero() returns (v: Vector4)
      ensures fresh(v) && fresh(v.elements) && v.Valid()
      ensures forall i :: 0 <= i < 4 ==> v.Get(i) == 0.0
    {
      v := new Vector4(0.0, 0.0, 0.0, 0.0);
    }

    /** `toArray()`: a new array with the coordinates, so writing to it leaves the vector as it is. */
    method ToArray() returns (copy: array<real>)
      requires Valid()
      ensures fresh(copy) && copy.Length == 4
      ensures copy[..] == elements[..]
    {
      copy := new real[4](i requires 0 <= i < 4 reads elements => elements[i]);
    }

    /** `get(index)`: the coordinate at `index`, 0 for x up to 3 for w. */
    function Get(index: int): real
      requires Valid() && 0 <= index < 4
      reads this, elements
    {
      elements[index]
    }

    /** `set(index, value)`: the coordinate at `index` becomes `value`, the others keep theirs. */
    method Set(index: int, value: real)
      requires Valid() && 0 <= index < 4
      modifies elements
      ensures Get(index) == value
      ensures forall i :: 0 <= i < 4 && i != index ==> Get(i) == old(Get(i))
      ensures elements[..] == old(elements[..])[index := value]
    {
      elements[index] := value;
    }

    /** The getter `x`: the coordinate `get(0)` reads. */
    function X(): (r: real)
      requires Valid()
      reads this, elements
      ensures r == Get(0)
    {
      elements[0]
    }

    /** The getter `y`: the coordinate `get(1)` reads. */
    function Y(): (r: real)
      requires Valid()
      reads this, elements
      ensures r == Get(1)
    {
      elements[1]
    }

    /** The getter `z`: the coordinate `get(2)` reads. */
    function Z(): (r: real)
      requires Valid()
      reads this, elements
      ensures r == Get(2)
    {
      elements[2]
    }

    /** The getter `w`: the coordinate `get(3)` reads. */
    function W(): (r: real)
      requires Valid()
      reads this, elements
      ensures r == Get(3)
    {
      elements[3]
    }

    /** The setter `x`: the same change as `set(0, x)`. */
    method SetX(x: real)
      requires Valid()
      modifies elements
      ensures elements[..] == old(elements[..])[0 := x]
      ensures X() == x && Y() == old(Y()) && Z() == old(Z()) && W() == old(W())
    {
      elements[0] := x;
    }

    /** The setter `y`: the same change as `set(1, y)`. */
    method SetY(y: real)
      requires Valid()
      modifies elements
      ensures elements[..] == old(elements[..])[1 := y]
      ensures X() == old(X()) && Y() == y && Z() == old(Z()) && W() == old(W())
    {
      elements[1] := y;
    }

    /** The setter `z`: the same change as `set(2, z)`. */
    method SetZ(z: real)
      requires Valid()
      modifies elements
      ensures elements[..] == old(elements[..])[2 := z]
      ensures X() == old(X()) && Y() == old(Y()) && Z() == z && W() == old(W())
    {
      elements[2] := z;
    }

    /** The setter `w`: the same change as `set(3, w)`. */
    method SetW(w: real)
      requires Valid()
      modifies elements
      ensures elements[..] == old(elements[..])[3 := w]
      ensures X() == old(X()) && Y() == old(Y()) && Z() == old(Z()) && W() == w
    {
      elements[3] := w;
    }
  }

  /**
   * The copy `toArray` returns is independent of the vector: writing to the
   * copy changes neither the vector's coordinates nor the copy's other cells.
   */
  method WriteToCopy(v: Vector4, index: int, value: real) returns (copy: array<real>)
    requires v.Valid() && 0 <= index < 4
    ensures fresh(copy) && copy[..] == v.elements[..][index := value]
    ensures v.elements[..] == old(v.elements[..])
  {
    copy := v.ToArray();
    copy[index] := value;
  }
}
