/**
 * A 4 by 4 matrix backed by an array of numbers in column-major order: the
 * cell in column `x` and row `y` sits at index `y * 4 + x`. Numbers are
 * modelled as reals; the matrix does no arithmetic.
 */
module Matrix4 {
  import opened Wrappers
  import opened Strings

  /** The backing index of the cell at column `x` and row `y`. */
  function CellIndex(x: int, y: int): int {
    y * 4 + x
  }

  /** The sixteen cells of a 4 by 4 matrix fill indices 0 to 15, each index once. */
  lemma CellIndices(x: int, y: int, x': int, y': int)
    requires 0 <= x < 4 && 0 <= y < 4 && 0 <= x' < 4 && 0 <= y' < 4
    ensures 0 <= CellIndex(x, y) < 16
    ensures CellIndex(x, y) == CellIndex(x', y') <==> x == x' && y == y'
  {
    if CellIndex(x, y) == CellIndex(x', y') {
      assert (y - y') * 4 == x' - x;
    }
  }

  /** Every backing index below 16 is the cell of exactly one column and row. */
  lemma IndexCell(i: int) returns (x: int, y: int)
    requires 0 <= i < 16
    ensures 0 <= x < 4 && 0 <= y < 4 && CellIndex(x, y) == i
  {
    x, y := i % 4, i / 4;
  }

  /** The backing array of `fromIdentity`, as written. */
  const IDENTITY: seq<real> := [1.0, 0.0, 0.0, 0.0, 0.0, 1.0, 0.0, 0.0, 0.0, 0.0, 1.0, 0.0, 0.0, 0.0, 0.0, 1.0]

  /** The identity literal holds 1 on the diagonal and 0 everywhere else. */
  lemma IdentityDiagonal(x: int, y: int)
    requires 0 <= x < 4 && 0 <= y < 4
    ensures |IDENTITY| == 16
    ensures IDENTITY[CellIndex(x, y)] == if x == y then 1.0 else 0.0
  {
    var s := IDENTITY;
    assert s[0] == 1.0 && s[5] == 1.0 && s[10] == 1.0 && s[15] == 1.0;
    assert s[1] == 0.0 && s[2] == 0.0 && s[3] == 0.0 && s[4] == 0.0 && s[6] == 0.0 && s[7] == 0.0;
    assert s[8] == 0.0 && s[9] == 0.0 && s[11] == 0.0 && s[12] == 0.0 && s[13] == 0.0 && s[14] == 0.0;
  }

  /** The error `fromIterable` throws for an iterable of `length` elements, too few for a matrix. */
  function TooFewElements(length: nat): Exception {
    RangeError("Iterable does not have enough elements. " + "Min is 16, got " + NatToString(length))
  }

  class Matrix4 {
    /** The array backing the matrix: 16 cells in column-major order, then whatever else it was given. */
    var elements: array<real>

    ghost predicate Valid()
      reads this
    {
      elements.Length >= 16
    }

    /** The constructor keeps the exact array it is given, without copying it. */
    constructor (backing: array<real>)
      ensures elements == backing
    {
      elements := backing;
    }

    /** `Matrix4.fromIdentity()`: a new matrix with 1 on the diagonal and 0 elsewhere. */
    static method FromIdentity() returns (m: Matrix4)
      ensures fresh(m) && fresh(m.elements) && m.Valid() && m.elements.Length == 16
      ensures m.elements[..] == IDENTITY
      ensures forall x, y :: 0 <= x < 4 && 0 <= y < 4 ==> m.Get(x, y) == if x == y then 1.0 else 0.0
    {
      var backing := new real[16](i requires 0 <= i < 16 => IDENTITY[i]);
      assert backing[..] == IDENTITY;
      m := new Matrix4(backing);
      forall x, y | 0 <= x < 4 && 0 <= y < 4
        ensures m.Get(x, y) == if x == y then 1.0 else 0.0
      {
        IdentityDiagonal(x, y);
      }
    }

    /**
     * `Matrix4.fromIterable(iterable)`: a RangeError when there are fewer
     * than 16 elements, otherwise a matrix over a new array holding all of
     * them, extra elements included.
     */
    static method FromIterable(iterable: seq<real>) returns (r: Result<Matrix4, Exception>)
      ensures |iterable| < 16 ==> r == Failure(TooFewElements(|iterable|))
      ensures |iterable| >= 16 ==> (r.Success? && fresh(r.value) && fresh(r.value.elements)
        && r.value.Valid() && r.value.elements[..] == iterable)
    {
      var backing := new real[|iterable|](i requires 0 <= i < |iterable| => iterable[i]);
      if backing.Length < 4 * 4 {
        return Failure(TooFewElements(backing.Length));
      }
      var m := new Matrix4(backing);
      return Success(m);
    }

    /** `get(x, y)`: the number at backing index `y * 4 + x`. */
    function Get(x: int, y: int): real
      requires 0 <= CellIndex(x, y) < elements.Length
      reads this, elements
    {
      elements[y * 4 + x]
    }

    /** `set(x, y, value)`: the cell at `x`, `y` becomes `value`, every other backing index keeps its number. */
    method Set(x: int, y: int, value: real)
      requires 0 <= CellIndex(x, y) < elements.Length
      modifies elements
      ensures Get(x, y) == value
      ensures forall i :: 0 <= i < elements.Length && i != CellIndex(x, y) ==> elements[i] == old(elements[i])
      ensures elements[..] == old(elements[..])[CellIndex(x, y) := value]
    {
      elements[y * 4 + x] := value;
    }

    /** The getter `columns`. */
    function Columns(): nat {
      4
    }

    /** The getter `rows`. */
    function Rows(): nat {
      4
    }

    /** Every cell within `columns` and `rows` is a cell of the backing array of a valid matrix. */
    lemma CellsInside(x: int, y: int)
      requires Valid() && 0 <= x < Columns() && 0 <= y < Rows()
      ensures 0 <= CellIndex(x, y) < elements.Length
    {
      CellIndices(x, y, x, y);
    }
  }

  /** Writing a cell leaves the other fifteen cells of the matrix as they were. */
  method SetThenGet(m: Matrix4, x: int, y: int, value: real, x': int, y': int) returns (before: real, after: real)
    requires m.Valid() && 0 <= x < 4 && 0 <= y < 4 && 0 <= x' < 4 && 0 <= y' < 4
    modifies m.elements
    ensures after == if x == x' && y == y' then value else before
  {
    m.CellsInside(x', y');
    before := m.Get(x', y');
    m.CellsInside(x, y);
    m.Set(x, y, value);
    CellIndices(x, y, x', y');
    after := m.Get(x', y');
  }
}
