/** Volume and panning tables of the channel mixer (TPanTable).

    The two static `float[128]` tables of the source are the two arrays of a
    `Tables` object; floats are modelled as reals, and the cosine of the pan
    curve is a parameter `c` (its value at each index), since the model has
    no trigonometry. */
module PanTable {

  /** Number of entries of each table: volumes and pans are quantised to 0..127. */
  const TableSize: nat := 128

  /** The largest table index. */
  const MaxIndex: int := 127

  /** A C `short`, the argument type of `GetVol`. */
  newtype short = x: int | -32768 <= x < 32768

  /** Clamps `val` into `[min, max]`; a value above `max` gives `max`, one below
      `min` gives `min`, any other value is returned as it is. */
  function Range(val: int, min: int, max: int): (r: int)
    ensures min <= max ==> min <= r <= max
    ensures min <= val <= max ==> r == val
    ensures val > max ==> r == max
    ensures val <= max && val < min ==> r == min
  {
    if val > max then max else if val < min then min else val
  }

  /** Clamping is idempotent when the bounds are ordered. */
  lemma RangeIdempotent(val: int, min: int, max: int)
    requires min <= max
    ensures Range(Range(val, min, max), min, max) == Range(val, min, max)
  {
  }

  /** The perceptual volume curve: the square of `i / 127`. */
  function VolCurve(i: int): real
  {
    (i as real / 127.0) * (i as real / 127.0)
  }

  /** The volume curve is non-decreasing over the non-negative indices, starts
      at exact silence and reaches unity gain at the last index. */
  lemma VolCurveMonotone(i: int, j: int)
    requires 0 <= i <= j
    ensures VolCurve(i) <= VolCurve(j)
  {
    var x, y := i as real / 127.0, j as real / 127.0;
    assert 0.0 <= x <= y;
    assert x * x <= x * y by {
      assert x * (y - x) >= 0.0;
    }
    assert x * y <= y * y by {
      assert y * (y - x) >= 0.0;
    }
  }

  lemma VolCurveEnds()
    ensures VolCurve(0) == 0.0 && VolCurve(MaxIndex) == 1.0
  {
  }

  /** The static pan and volume tables. */
  class Tables {
    const panTable: array<real>
    const volTable: array<real>

    ghost predicate Valid()
      reads this
    {
      panTable.Length == TableSize && volTable.Length == TableSize && panTable != volTable
    }

    /** The state `FillTable` leaves behind: each pan entry is the square of the
        cosine value at its index, and the volume table follows `VolCurve`,
        with entry 0 written as exact silence. */
    ghost predicate Filled(c: int -> real)
      reads this, panTable, volTable
      requires Valid()
    {
      && (forall i :: 0 <= i < TableSize ==> panTable[i] == c(i) * c(i))
      && volTable[0] == 0.0
      && (forall i :: 1 <= i < TableSize ==> volTable[i] == VolCurve(i))
    }

    constructor ()
      ensures Valid() && fresh(panTable) && fresh(volTable)
    {
      panTable := new real[TableSize];
      volTable := new real[TableSize];
    }

    /** Fills both tables: the pan table from the cosine values `c`, the volume
        table from index 1 on with `(i / 127)^2`, then entry 0 with silence. */
    method FillTable(c: int -> real)
      requires Valid()
      modifies panTable, volTable
      ensures Filled(c)
    {
      for i := 0 to TableSize
        invariant forall k :: 0 <= k < i ==> panTable[k] == c(k) * c(k)
      {
        var val := c(i);
        panTable[i] := val * val;
      }
      for i := 1 to TableSize
        invariant forall k :: 0 <= k < TableSize ==> panTable[k] == c(k) * c(k)
        invariant forall k :: 1 <= k < i ==> volTable[k] == VolCurve(k)
      {
        var val := i as real / 127.0;
        volTable[i] := val * val;
      }
      volTable[0] := 0.0;
    }

    /** Looks up the gain for a quantised volume; any `short` is clamped into
        the table first, so the lookup is always in bounds. */
    function GetVol(vol: short): (r: real)
      reads this, volTable
      requires Valid()
      ensures r in volTable[..]
    {
      volTable[Range(vol as int, 0, MaxIndex)]
    }

    /** Once filled, every pan entry is a square and so never negative. */
    lemma PanEntriesNonNegative(c: int -> real, i: int)
      requires Valid() && Filled(c) && 0 <= i < TableSize
      ensures panTable[i] >= 0.0
    {
      var v := c(i);
      if v < 0.0 {
        assert v * v == (-v) * (-v);
      }
    }

    /** Once filled, the volume lookup follows the volume curve on the clamped
        index: silence at or below 0, unity gain at or above 127, and never
        decreasing as the requested volume grows. */
    lemma GetVolFilled(c: int -> real, v: short, w: short)
      requires Valid() && Filled(c)
      ensures GetVol(v) == VolCurve(Range(v as int, 0, MaxIndex))
      ensures v <= 0 ==> GetVol(v) == 0.0
      ensures v >= 127 ==> GetVol(v) == 1.0
      ensures v <= w ==> GetVol(v) <= GetVol(w)
    {
      var i, j := Range(v as int, 0, MaxIndex), Range(w as int, 0, MaxIndex);
      assert volTable[0] == VolCurve(0);
      assert GetVol(v) == VolCurve(i);
      assert GetVol(w) == VolCurve(j);
      VolCurveEnds();
      if v <= w {
        VolCurveMonotone(i, j);
      }
    }
  }
}
