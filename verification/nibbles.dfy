/** Packed 4-bit storage: two values per byte, the even position in the low
    half and the odd position in the high half, addressed by the 128-high
    column layout `x << 11 | z << 7 | y`. Writes return a new array. */
module Nibbles {
  import opened JavaInt

  datatype NibbleArray = NibbleArray(data: seq<Byte>)

  /** The largest byte index `GetData` reads; anything above reads as 0. */
  const READ_LIMIT: int := 16384

  // ---------------------------------------------------------------------
  // Reference definitions

  /** Bits 0..3 of a (signed) byte. */
  function LowNibble(b: int): int { b % 16 }

  /** Bits 4..7 of a (signed) byte. */
  function HighNibble(b: int): int { (b / 16) % 16 }

  /** The value stored at nibble position `p`. */
  function NibbleAt(data: seq<Byte>, p: nat): int
    requires p / 2 < |data|
  {
    if p % 2 == 0 then LowNibble(data[p / 2]) else HighNibble(data[p / 2])
  }

  /** The other nibble of the byte that holds position `p`. */
  function Sibling(p: nat): nat
  {
    if p % 2 == 0 then p + 1 else p - 1
  }

  /** Coordinates of a 16 x 128 x 16 column. */
  predicate InColumn(x: int, y: int, z: int)
  {
    0 <= x < 16 && 0 <= y < 128 && 0 <= z < 16
  }

  /** Position of a column cell: x-major, then z, then y. */
  function Position(x: int, y: int, z: int): int
  {
    x * 2048 + z * 128 + y
  }

  // ---------------------------------------------------------------------
  // Operations

  /** `new NibbleArray(n)`: `n >> 1` zero bytes; Java rejects a negative size. */
  function OfLength(n: Int32): (r: Result<NibbleArray>)
    ensures r.Err? <==> n < 0
    ensures r.Err? ==> r.error == NegativeArraySize
    ensures r.Ok? ==> 2 * |r.value.data| <= n <= 2 * |r.value.data| + 1
    ensures r.Ok? ==> forall j :: 0 <= j < |r.value.data| ==> r.value.data[j] == 0
  {
    var size := Shr(n, 1);
    assert Pow2(1) == 2;
    if size < 0 then Err(NegativeArraySize) else Ok(NibbleArray(seq(size, _ => 0)))
  }

  /** The nibble index of cell (x, y, z), computed with Java's shifts and `|`. */
  function Index(x: Int32, y: Int32, z: Int32): Int32
  {
    Or(Or(Shl(x, 11), Shl(z, 7)), y)
  }

  /** `getData(x, y, z)`: reads the nibble at `Index(x, y, z)`. Byte indices
      below 0 or above `READ_LIMIT` read as 0; the array length itself is
      not checked, so an index past the end throws. */
  function GetData(a: NibbleArray, x: Int32, y: Int32, z: Int32): (r: Result<int>)
    ensures r.Ok? ==> 0 <= r.value < 16
    ensures r.Err? ==> r.error == IndexOutOfBounds
    ensures var l := Index(x, y, z);
      r.Err? <==> 0 <= l / 2 <= READ_LIMIT && l / 2 >= |a.data|
  {
    var l := Index(x, y, z);
    var i1 := Shr(l, 1);
    var j1 := And(l, 1);
    assert Pow2(1) == 2;
    if i1 < 0 || i1 > READ_LIMIT then Ok(0)
    else if i1 >= |a.data| then Err(IndexOutOfBounds)
    else
      var b := a.data[i1];
      if j1 == 0 then
        Mask15(b);
        Ok(And(b, 15))
      else
        ReadHigh(b);
        Ok(And(Shr(b, 4), 15))
  }

  /** `setData(x, y, z, v)`: stores `v & 15` at `Index(x, y, z)`, keeping the
      other half of the byte. There is no guard: any index outside the array
      throws. */
  function SetData(a: NibbleArray, x: Int32, y: Int32, z: Int32, v: Int32): (r: Result<NibbleArray>)
    ensures var l := Index(x, y, z);
      r.Err? <==> !(0 <= l / 2 < |a.data|)
    ensures r.Err? ==> r.error == IndexOutOfBounds
    ensures r.Ok? ==> |r.value.data| == |a.data|
    ensures r.Ok? ==> var j := Index(x, y, z) / 2;
      forall i :: 0 <= i < |a.data| && i != j ==> r.value.data[i] == a.data[i]
    ensures r.Ok? ==> var l := Index(x, y, z);
      l >= 0 && NibbleAt(r.value.data, l) == v % 16
        && Sibling(l) / 2 == l / 2
        && NibbleAt(r.value.data, Sibling(l)) == NibbleAt(a.data, Sibling(l))
  {
    var i1 := Index(x, y, z);
    var j1 := Shr(i1, 1);
    var k1 := And(i1, 1);
    assert Pow2(1) == 2;
    Mask1(i1);
    if j1 < 0 || j1 >= |a.data| then Err(IndexOutOfBounds)
    else
      var b := a.data[j1];
      if k1 == 0 then
        WriteLow(b, v);
        Ok(NibbleArray(a.data[j1 := ToByte(Or(And(b, 240), And(v, 15)))]))
      else
        WriteHigh(b, v);
        Ok(NibbleArray(a.data[j1 := ToByte(Or(And(b, 15), Shl(And(v, 15), 4)))]))
  }

  // ---------------------------------------------------------------------
  // Byte-level facts

  /** `b >> 4 & 15` is the high nibble. */
  lemma ReadHigh(b: Byte)
    ensures And(Shr(b, 4), 15) == HighNibble(b)
  {
    assert Shr(b, 4) == b / 16 by { Pow2Facts(); }
    Mask15(b / 16);
  }

  /** The narrowing cast keeps both nibbles of an unsigned byte value. */
  lemma CastKeepsNibbles(u: int, h: int, w: int)
    requires 0 <= h < 16 && 0 <= w < 16 && u == 16 * h + w
    ensures LowNibble(ToByte(u)) == w && HighNibble(ToByte(u)) == h
  {
    DivModUnique(u, 16, h, w);
    if u >= 128 {
      DivModUnique(u - 256, 16, h - 16, w);
    }
  }

  /** `(byte) (b & 240 | v & 15)` replaces the low nibble only. */
  lemma WriteLow(b: Byte, v: Int32)
    ensures var nb := ToByte(Or(And(b, 240), And(v, 15)));
      LowNibble(nb) == v % 16 && HighNibble(nb) == HighNibble(b)
  {
    var h, w := (b / 16) % 16, v % 16;
    var u := Or(And(b, 240), And(v, 15));
    assert u == 16 * h + w by {
      assert And(b, 240) == 16 * h by { AndHighNibbleMask(b); }
      assert And(v, 15) == w by { Mask15(v); }
      OrOfNibbles(h, w);
    }
    CastKeepsNibbles(u, h, w);
  }

  /** `(byte) (b & 15 | (v & 15) << 4)` replaces the high nibble only. */
  lemma WriteHigh(b: Byte, v: Int32)
    ensures var nb := ToByte(Or(And(b, 15), Shl(And(v, 15), 4)));
      LowNibble(nb) == LowNibble(b) && HighNibble(nb) == v % 16
  {
    var h, w := v % 16, b % 16;
    var lo := And(b, 15);
    var hi := Shl(And(v, 15), 4);
    assert lo == w by { Mask15(b); }
    assert hi == 16 * h by { ShiftNibble(v); }
    var u := Or(lo, hi);
    assert u == 16 * h + w by {
      OrCommutes(w, 16 * h);
      OrOfNibbles(h, w);
    }
    CastKeepsNibbles(u, h, w);
  }

  /** `(v & 15) << 4` moves the low nibble of `v` into bits 4..7. */
  lemma ShiftNibble(v: Int32)
    ensures Shl(And(v, 15), 4) == 16 * (v % 16)
  {
    var w := And(v, 15);
    assert w == v % 16 by { Mask15(v); }
    assert Pow2(4) == 16 by { Pow2Facts(); }
    ShlSmall(w, 4);
  }

  /** Joining two nibbles with `|` is `16 * h + w`. */
  lemma OrOfNibbles(h: int, w: int)
    requires 0 <= h < 16 && 0 <= w < 16
    ensures Or(16 * h, w) == 16 * h + w
  {
    Pow2Facts();
    DivModUnique(16 * h, 16, h, 0);
    OrDisjoint(16 * h, w, 4);
  }

  // ---------------------------------------------------------------------
  // Properties

  /** Inside a column the Java index is the plain x-major position, so the
      shifted fields never overlap. */
  lemma IndexInColumn(x: Int32, y: Int32, z: Int32)
    requires InColumn(x, y, z)
    ensures Index(x, y, z) == Position(x, y, z)
    ensures 0 <= Index(x, y, z) / 2 < READ_LIMIT
  {
    var hx, hz := Shl(x, 11), Shl(z, 7);
    assert hx == x * 2048 by { Pow2Facts(); ShlSmall(x, 11); }
    assert hz == z * 128 by { Pow2Facts(); ShlSmall(z, 7); }
    var xz := Or(hx, hz);
    assert xz == x * 2048 + z * 128 by {
      Pow2Facts();
      DivModUnique(x * 2048, 2048, x, 0);
      OrDisjoint(x * 2048, z * 128, 11);
    }
    assert Or(xz, y) == xz + y by {
      Pow2Facts();
      DivModUnique(xz, 128, 16 * x + z, 0);
      OrDisjoint(xz, y, 7);
    }
  }

  /** Distinct column cells have distinct indices. */
  lemma IndexInjective(x: Int32, y: Int32, z: Int32, x2: Int32, y2: Int32, z2: Int32)
    requires InColumn(x, y, z) && InColumn(x2, y2, z2)
    requires Index(x, y, z) == Index(x2, y2, z2)
    ensures x == x2 && y == y2 && z == z2
  {
    IndexInColumn(x, y, z);
    IndexInColumn(x2, y2, z2);
    var p := Position(x, y, z);
    DivModUnique(p, 128, 16 * x + z, y);
    DivModUnique(p, 128, 16 * x2 + z2, y2);
    DivModUnique(16 * x + z, 16, x, z);
    DivModUnique(16 * x2 + z2, 16, x2, z2);
  }

  /** Within the read limit, `getData` is the nibble at the index: low half
      for an even index, high half for an odd one. */
  lemma GetDataReadsNibble(a: NibbleArray, x: Int32, y: Int32, z: Int32)
    requires var l := Index(x, y, z); 0 <= l / 2 <= READ_LIMIT && l / 2 < |a.data|
    ensures GetData(a, x, y, z) == Ok(NibbleAt(a.data, Index(x, y, z)))
  {
    var l := Index(x, y, z);
    assert Pow2(1) == 2;
    Mask1(l);
    Mask15(a.data[l / 2]);
    ReadHigh(a.data[l / 2]);
  }

  /** A byte index below 0 or above the read limit reads as 0, whatever the array. */
  lemma GetDataOutsideLimit(a: NibbleArray, x: Int32, y: Int32, z: Int32)
    requires var l := Index(x, y, z); l / 2 < 0 || l / 2 > READ_LIMIT
    ensures GetData(a, x, y, z) == Ok(0)
  {
    Pow2Facts();
  }

  /** A full 128-high column array (16384 bytes) answers every column cell
      with the nibble at its x-major position. */
  lemma ColumnRead(a: NibbleArray, x: Int32, y: Int32, z: Int32)
    requires InColumn(x, y, z) && |a.data| >= READ_LIMIT
    ensures GetData(a, x, y, z) == Ok(NibbleAt(a.data, Position(x, y, z)))
  {
    IndexInColumn(x, y, z);
    GetDataReadsNibble(a, x, y, z);
  }

  /** Reading back a written cell gives `v & 15`, unless the byte index lies
      above the read limit, where `getData` answers 0 although `setData` wrote. */
  lemma {:induction false} SetThenGet(a: NibbleArray, x: Int32, y: Int32, z: Int32, v: Int32)
    requires SetData(a, x, y, z, v).Ok?
    ensures var l := Index(x, y, z);
      GetData(SetData(a, x, y, z, v).value, x, y, z)
        == Ok(if l / 2 <= READ_LIMIT then And(v, 15) else 0)
  {
    var b := SetData(a, x, y, z, v).value;
    var l := Index(x, y, z);
    Mask15(v);
    if l / 2 <= READ_LIMIT {
      GetDataReadsNibble(b, x, y, z);
    } else {
      GetDataOutsideLimit(b, x, y, z);
    }
  }

  /** Writing one cell leaves every cell with a different index as it was,
      including the other nibble of the same byte. */
  lemma {:induction false} SetKeepsOthers(a: NibbleArray, x: Int32, y: Int32, z: Int32, v: Int32,
                                          x2: Int32, y2: Int32, z2: Int32)
    requires SetData(a, x, y, z, v).Ok?
    requires Index(x2, y2, z2) != Index(x, y, z)
    ensures GetData(SetData(a, x, y, z, v).value, x2, y2, z2) == GetData(a, x2, y2, z2)
  {
    var b := SetData(a, x, y, z, v).value;
    var l, l2 := Index(x, y, z), Index(x2, y2, z2);
    if l2 / 2 < 0 || l2 / 2 > READ_LIMIT {
      GetDataOutsideLimit(a, x2, y2, z2);
      GetDataOutsideLimit(b, x2, y2, z2);
    } else if l2 / 2 < |a.data| {
      GetDataReadsNibble(a, x2, y2, z2);
      GetDataReadsNibble(b, x2, y2, z2);
      if l2 / 2 == l / 2 {
        assert l2 == Sibling(l);
      }
    }
  }

  /** Within a column with a full array, a write is seen at its own cell and
      nowhere else. */
  lemma ColumnWrite(a: NibbleArray, x: Int32, y: Int32, z: Int32, v: Int32,
                    x2: Int32, y2: Int32, z2: Int32)
    requires InColumn(x, y, z) && InColumn(x2, y2, z2) && |a.data| >= READ_LIMIT
    ensures SetData(a, x, y, z, v).Ok?
    ensures GetData(SetData(a, x, y, z, v).value, x2, y2, z2)
      == if (x2, y2, z2) == (x, y, z) then Ok(v % 16) else GetData(a, x2, y2, z2)
  {
    IndexInColumn(x, y, z);
    Mask15(v);
    if (x2, y2, z2) == (x, y, z) {
      SetThenGet(a, x, y, z, v);
    } else {
      if Index(x2, y2, z2) == Index(x, y, z) {
        IndexInjective(x, y, z, x2, y2, z2);
      }
      SetKeepsOthers(a, x, y, z, v, x2, y2, z2);
    }
  }
}
