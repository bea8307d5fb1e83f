/** Bytes and the little-endian integers all wire formats here are built from. */
module Bytes {

  type Byte = bv8
  type Data = seq<Byte>

  type U8 = n: nat | n < 0x100
  type U16 = n: nat | n < 0x1_0000
  type U32 = n: nat | n < 0x1_0000_0000
  type U64 = n: nat | n < 0x1_0000_0000_0000_0000

  function Pow256(n: nat): (p: nat)
    ensures p > 0
  {
    if n == 0 then 1 else 256 * Pow256(n - 1)
  }

  function Value(b: Byte): (n: nat)
    ensures n < 256
  {
    ByteBound(b);
    b as nat
  }

  /** The byte with value `n`. */
  function ToByte(n: nat): (b: Byte)
    requires n < 256
    ensures Value(b) == n
  {
    if n == 0 then 0
    else
      SuccessorByte(ToByte(n - 1));
      ToByte(n - 1) + 1
  }

  /** `n` bytes, least significant first. */
  function Put(n: nat, value: nat): (bytes: Data)
    ensures |bytes| == n
  {
    if n == 0 then [] else [ToByte(value % 256)] + Put(n - 1, value / 256)
  }

  function Get(bytes: Data): nat {
    if bytes == [] then 0 else Value(bytes[0]) + 256 * Get(bytes[1..])
  }

  lemma SuccessorByte(b: Byte)
    requires b != 0xFF
    ensures Value(b + 1) == Value(b) + 1
  {
  }

  lemma ByteOfValue(b: Byte)
    ensures ToByte(Value(b)) == b
  {
    hide ToByte;
  }

  lemma ByteBound(b: Byte)
    ensures (b as nat) < 256
  {
  }

  lemma {:induction false} GetPut(n: nat, value: nat)
    requires value < Pow256(n)
    ensures Get(Put(n, value)) == value
  {
    hide Value;
    hide ToByte;
    if n > 0 {
      GetPut(n - 1, value / 256);
      assert Put(n, value)[1..] == Put(n - 1, value / 256);
    }
  }

  lemma {:induction false} PutGet(bytes: Data)
    ensures Get(bytes) < Pow256(|bytes|) && Put(|bytes|, Get(bytes)) == bytes
  {
    hide Value;
    hide ToByte;
    if bytes != [] {
      PutGet(bytes[1..]);
      ByteOfValue(bytes[0]);
      DigitApart(Value(bytes[0]), Get(bytes[1..]));
    }
  }

  lemma DigitApart(digit: nat, rest: nat)
    requires digit < 256
    ensures (digit + 256 * rest) % 256 == digit && (digit + 256 * rest) / 256 == rest
  {
  }

  lemma WordSizes()
    ensures Pow256(2) == 0x1_0000 && Pow256(4) == 0x1_0000_0000 && Pow256(8) == 0x1_0000_0000_0000_0000
  {
    assert Pow256(1) == 256;
    assert Pow256(3) == 0x100_0000;
    assert Pow256(5) == 0x100_0000_0000;
    assert Pow256(6) == 0x1_0000_0000_0000;
    assert Pow256(7) == 0x100_0000_0000_0000;
  }

  // ---------------------------------------------------------------- runs of fixed-width fields

  /** The width in bytes of each field, in wire order. */
  type Layout = seq<nat>

  function Width(layout: Layout): nat {
    if layout == [] then 0 else layout[0] + Width(layout[1..])
  }

  predicate Fits(layout: Layout, values: seq<nat>) {
    |values| == |layout| && forall i | 0 <= i < |layout| :: values[i] < Pow256(layout[i])
  }

  function PutFields(layout: Layout, values: seq<nat>): (bytes: Data)
    requires |values| == |layout|
    ensures |bytes| == Width(layout)
  {
    if layout == [] then [] else Put(layout[0], values[0]) + PutFields(layout[1..], values[1..])
  }

  function GetFields(layout: Layout, bytes: Data): (values: seq<nat>)
    requires |bytes| == Width(layout)
    ensures |values| == |layout|
  {
    if layout == [] then [] else [Get(bytes[..layout[0]])] + GetFields(layout[1..], bytes[layout[0]..])
  }

  lemma {:induction false} GetPutFields(layout: Layout, values: seq<nat>)
    requires Fits(layout, values)
    ensures GetFields(layout, PutFields(layout, values)) == values
  {
    if layout != [] {
      var bytes := PutFields(layout, values);
      GetPut(layout[0], values[0]);
      GetPutFields(layout[1..], values[1..]);
      assert bytes[..layout[0]] == Put(layout[0], values[0]);
      assert bytes[layout[0]..] == PutFields(layout[1..], values[1..]);
    }
  }

  lemma {:induction false} PutGetFields(layout: Layout, bytes: Data)
    requires |bytes| == Width(layout)
    ensures Fits(layout, GetFields(layout, bytes)) && PutFields(layout, GetFields(layout, bytes)) == bytes
  {
    hide Get;
    hide Put;
    hide Pow256;
    if layout != [] {
      var w, rest := layout[0], layout[1..];
      var values, later := GetFields(layout, bytes), GetFields(rest, bytes[w..]);
      PutGet(bytes[..w]);
      PutGetFields(rest, bytes[w..]);
      assert values == [Get(bytes[..w])] + later && values[1..] == later;
      forall i | 0 <= i < |layout|
        ensures values[i] < Pow256(layout[i])
      {
        if i > 0 {
          assert values[i] == later[i - 1] && layout[i] == rest[i - 1];
        }
      }
      assert bytes == bytes[..w] + bytes[w..];
    }
  }

  lemma {:induction false} WidthAppend(a: Layout, b: Layout)
    ensures Width(a + b) == Width(a) + Width(b)
  {
    if a == [] {
      assert a + b == b;
    } else {
      assert (a + b)[1..] == a[1..] + b;
      WidthAppend(a[1..], b);
    }
  }

  lemma CutApart<T>(a: seq<T>, b: seq<T>)
    ensures (a + b)[..|a|] == a && (a + b)[|a|..] == b
  {
  }

  lemma Regroup<T>(a: seq<T>, b: seq<T>, c: seq<T>, d: seq<T>)
    ensures a + b + c + d == a + (b + c + d)
  {
  }

  lemma Associate<T>(a: seq<T>, b: seq<T>, c: seq<T>)
    ensures a + b + c == a + (b + c)
  {
  }

  /** Some fields and what follows them are on the wire exactly when they are read back from it. */
  lemma SplitsIntoFields(layout: Layout, bytes: Data, values: seq<nat>, tail: Data)
    requires Fits(layout, values)
    ensures bytes == PutFields(layout, values) + tail <==>
              && |bytes| >= Width(layout)
              && GetFields(layout, bytes[..Width(layout)]) == values && bytes[Width(layout)..] == tail
  {
    assert |values| == |layout|;
    hide *;
    GetPutFields(layout, values);
    if bytes == PutFields(layout, values) + tail {
      CutApart(PutFields(layout, values), tail);
    }
    if |bytes| >= Width(layout) {
      PutGetFields(layout, bytes[..Width(layout)]);
      Rejoin(bytes, Width(layout));
    }
  }

  lemma Rejoin<T>(all: seq<T>, n: nat)
    requires n <= |all|
    ensures all == all[..n] + all[n..]
  {
  }

  lemma WidthOfThree(a: nat, b: nat, c: nat)
    ensures Width([a, b, c]) == a + b + c
  {
    assert [a, b, c][1..] == [b, c];
    assert [b, c][1..] == [c];
    assert Width([c]) == c;
  }

  lemma WidthOfFour(a: nat, b: nat, c: nat, d: nat)
    ensures Width([a, b, c, d]) == a + b + c + d
  {
    assert [a, b, c, d][1..] == [b, c, d];
    assert [b, c, d][1..] == [c, d];
    assert [c, d][1..] == [d];
    assert [d][1..] == [];
    assert Width([d]) == d;
    assert Width([c, d]) == c + Width([d]);
  }

  function PutU16(value: U16): (bytes: Data)
    ensures |bytes| == 2
  {
    Put(2, value)
  }

  function PutU32(value: U32): (bytes: Data)
    ensures |bytes| == 4
  {
    Put(4, value)
  }

  function PutU64(value: U64): (bytes: Data)
    ensures |bytes| == 8
  {
    Put(8, value)
  }

  function ReadU16(bytes: Data, offset: nat): U16
    requires offset + 2 <= |bytes|
  {
    WordSizes();
    PutGet(bytes[offset..offset + 2]);
    Get(bytes[offset..offset + 2])
  }

  function ReadU32(bytes: Data, offset: nat): U32
    requires offset + 4 <= |bytes|
  {
    WordSizes();
    PutGet(bytes[offset..offset + 4]);
    Get(bytes[offset..offset + 4])
  }

  function ReadU64(bytes: Data, offset: nat): U64
    requires offset + 8 <= |bytes|
  {
    WordSizes();
    PutGet(bytes[offset..offset + 8]);
    Get(bytes[offset..offset + 8])
  }

  /** Reading back a word that was appended at `offset`, and rewriting a word that was read. */
  lemma ReadsU16(bytes: Data, offset: nat, value: U16)
    requires offset + 2 <= |bytes|
    ensures ReadU16(bytes, offset) == value <==> bytes[offset..offset + 2] == PutU16(value)
  {
    WordSizes();
    GetPut(2, value);
    PutGet(bytes[offset..offset + 2]);
  }

  lemma ReadsU32(bytes: Data, offset: nat, value: U32)
    requires offset + 4 <= |bytes|
    ensures ReadU32(bytes, offset) == value <==> bytes[offset..offset + 4] == PutU32(value)
  {
    WordSizes();
    GetPut(4, value);
    PutGet(bytes[offset..offset + 4]);
  }

  lemma ReadsU64(bytes: Data, offset: nat, value: U64)
    requires offset + 8 <= |bytes|
    ensures ReadU64(bytes, offset) == value <==> bytes[offset..offset + 8] == PutU64(value)
  {
    WordSizes();
    GetPut(8, value);
    PutGet(bytes[offset..offset + 8]);
  }

  // ---------------------------------------------------------------- which bytes make up a word

  /** Words are little-endian. */
  lemma ReadU16Is(bytes: Data, at: nat)
    requires at + 2 <= |bytes|
    ensures ReadU16(bytes, at) == bytes[at] as nat + 0x100 * (bytes[at + 1] as nat)
  {
    GetTwo(bytes[at..at + 2]);
  }

  lemma ReadU32Is(bytes: Data, at: nat)
    requires at + 4 <= |bytes|
    ensures ReadU32(bytes, at)
         == bytes[at] as nat + 0x100 * (bytes[at + 1] as nat) + 0x1_0000 * (bytes[at + 2] as nat)
            + 0x100_0000 * (bytes[at + 3] as nat)
  {
    GetFour(bytes[at..at + 4]);
  }

  lemma ReadU64Is(bytes: Data, at: nat)
    requires at + 8 <= |bytes|
    ensures ReadU64(bytes, at) == ReadU32(bytes, at) + 0x1_0000_0000 * ReadU32(bytes, at + 4)
  {
    var word := bytes[at..at + 8];
    GetJoined(word[..4], word[4..]);
    WordSizes();
    assert word == word[..4] + word[4..];
    assert word[..4] == bytes[at..at + 4] && word[4..] == bytes[at + 4..at + 8];
  }

  lemma GetTwo(bytes: Data)
    requires |bytes| == 2
    ensures Get(bytes) == bytes[0] as nat + 0x100 * (bytes[1] as nat)
  {
    assert bytes[1..][1..] == [];
    assert Get(bytes[1..]) == Value(bytes[1]);
  }

  lemma GetFour(bytes: Data)
    requires |bytes| == 4
    ensures Get(bytes)
         == bytes[0] as nat + 0x100 * (bytes[1] as nat) + 0x1_0000 * (bytes[2] as nat) + 0x100_0000 * (bytes[3] as nat)
  {
    assert bytes[1..][1..] == bytes[2..];
    GetTwo(bytes[2..]);
    assert Get(bytes[1..]) == Value(bytes[1]) + 256 * Get(bytes[2..]);
  }

  lemma {:induction false} GetJoined(a: Data, b: Data)
    ensures Get(a + b) == Get(a) + Pow256(|a|) * Get(b)
  {
    hide Value;
    if a == [] {
      assert a + b == b;
    } else {
      assert (a + b)[1..] == a[1..] + b;
      GetJoined(a[1..], b);
      Shuffle(Value(a[0]), Get(a[1..]), Pow256(|a| - 1), Get(b));
    }
  }

  lemma Shuffle(digit: nat, rest: nat, power: nat, high: nat)
    ensures digit + 256 * (rest + power * high) == digit + 256 * rest + 256 * power * high
  {
  }

  // ---------------------------------------------------------------- where a field lies

  /** The fields are on the wire from `at` on. */
  ghost predicate HoldsFields(bytes: Data, at: nat, layout: Layout, values: seq<nat>) {
    && Fits(layout, values) && at + Width(layout) <= |bytes|
    && bytes[at..at + Width(layout)] == PutFields(layout, values)
  }

  ghost predicate HoldsField(bytes: Data, at: nat, width: nat, value: nat) {
    at + width <= |bytes| && Get(bytes[at..at + width]) == value
  }

  lemma NextField(bytes: Data, at: nat, layout: Layout, values: seq<nat>)
    requires layout != [] && HoldsFields(bytes, at, layout, values)
    ensures HoldsField(bytes, at, layout[0], values[0])
    ensures HoldsFields(bytes, at + layout[0], layout[1..], values[1..])
  {
    hide Put;
    hide Get;
    hide Pow256;
    GetPut(layout[0], values[0]);
    var fixed := bytes[at..at + Width(layout)];
    assert fixed[..layout[0]] == bytes[at..at + layout[0]];
    assert fixed[layout[0]..] == bytes[at + layout[0]..at + Width(layout)];
  }

  lemma TwoFields(bytes: Data, at: nat, a: nat, b: nat, x: nat, y: nat)
    requires HoldsFields(bytes, at, [a, b], [x, y])
    ensures HoldsField(bytes, at, a, x) && HoldsField(bytes, at + a, b, y)
  {
    NextField(bytes, at, [a, b], [x, y]);
    assert [a, b][1..] == [b] && [x, y][1..] == [y];
    NextField(bytes, at + a, [b], [y]);
    hide HoldsFields;
    hide HoldsField;
  }

  lemma ThreeFields(bytes: Data, at: nat, a: nat, b: nat, c: nat, x: nat, y: nat, z: nat)
    requires HoldsFields(bytes, at, [a, b, c], [x, y, z])
    ensures HoldsField(bytes, at, a, x) && HoldsField(bytes, at + a, b, y) && HoldsField(bytes, at + a + b, c, z)
  {
    NextField(bytes, at, [a, b, c], [x, y, z]);
    assert [a, b, c][1..] == [b, c] && [x, y, z][1..] == [y, z];
    TwoFields(bytes, at + a, b, c, y, z);
    hide HoldsFields;
    hide HoldsField;
  }

  lemma FourFields(bytes: Data, at: nat, a: nat, b: nat, c: nat, d: nat, w: nat, x: nat, y: nat, z: nat)
    requires HoldsFields(bytes, at, [a, b, c, d], [w, x, y, z])
    ensures HoldsField(bytes, at, a, w) && HoldsField(bytes, at + a, b, x)
    ensures HoldsField(bytes, at + a + b, c, y) && HoldsField(bytes, at + a + b + c, d, z)
  {
    NextField(bytes, at, [a, b, c, d], [w, x, y, z]);
    assert [a, b, c, d][1..] == [b, c, d] && [w, x, y, z][1..] == [x, y, z];
    ThreeFields(bytes, at + a, b, c, d, x, y, z);
    hide HoldsFields;
    hide HoldsField;
  }

  lemma FieldsSplit(bytes: Data, at: nat, layout: Layout, values: seq<nat>, k: nat)
    requires k <= |layout| && HoldsFields(bytes, at, layout, values)
    ensures HoldsFields(bytes, at, layout[..k], values[..k])
    ensures HoldsFields(bytes, at + Width(layout[..k]), layout[k..], values[k..])
  {
    assert layout == layout[..k] + layout[k..] && values == values[..k] + values[k..];
    WidthAppend(layout[..k], layout[k..]);
    FieldsJoin(layout[..k], layout[k..], values[..k], values[k..]);
    var first, fixed := PutFields(layout[..k], values[..k]), bytes[at..at + Width(layout)];
    assert fixed[..|first|] == bytes[at..at + |first|] && fixed[|first|..] == bytes[at + |first|..at + Width(layout)];
  }

  lemma {:induction false} FieldsJoin(a: Layout, b: Layout, x: seq<nat>, y: seq<nat>)
    requires |a| == |x| && |b| == |y|
    ensures PutFields(a + b, x + y) == PutFields(a, x) + PutFields(b, y)
  {
    hide Put;
    if a == [] {
      assert a + b == b && x + y == y;
    } else {
      assert (a + b)[1..] == a[1..] + b && (x + y)[1..] == x[1..] + y;
      FieldsJoin(a[1..], b, x[1..], y);
    }
  }

  /** A field of a word's width is what reading a word gives. */
  lemma FieldIsWord(bytes: Data, at: nat, value: nat)
    ensures HoldsField(bytes, at, 2, value) ==> ReadU16(bytes, at) == value
    ensures HoldsField(bytes, at, 4, value) ==> ReadU32(bytes, at) == value
    ensures HoldsField(bytes, at, 8, value) ==> ReadU64(bytes, at) == value
    ensures HoldsField(bytes, at, 1, value) ==> bytes[at] as nat == value
  {
    if at < |bytes| {
      assert bytes[at..at + 1][1..] == [];
      assert Get(bytes[at..at + 1]) == Value(bytes[at]);
    }
  }
}
