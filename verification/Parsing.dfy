/** Items read off the front of some bytes one after the other, as the snapshot and parameter decoders do. */
module Parsing {
  import opened Bytes

  datatype Parsed<+T, +E> = Parsed(value: T, rest: Data) | Refused(error: E)

  /** `count` items in a row; the first refusal is the answer. */
  function ParseMany<T, E>(parse: Data -> Parsed<T, E>, bytes: Data, count: nat): Parsed<seq<T>, E>
    decreases count
  {
    if count == 0 then Parsed([], bytes)
    else
      match parse(bytes)
      case Refused(error) => Refused(error)
      case Parsed(first, rest) => Preceded([first], ParseMany(parse, rest, count - 1))
  }

  /** Items already parsed put in front of those still to come. */
  function Preceded<T, E>(done: seq<T>, later: Parsed<seq<T>, E>): Parsed<seq<T>, E> {
    if later.Refused? then later else Parsed(done + later.value, later.rest)
  }

  function PutMany<T>(put: T -> Data, items: seq<T>): Data {
    if items == [] then [] else put(items[0]) + PutMany(put, items[1..])
  }

  /** `parse` takes off the front exactly what `put` writes for an acceptable item. */
  ghost predicate Inverse<T(!new), E(!new)>(parse: Data -> Parsed<T, E>, put: T -> Data, ok: T -> bool) {
    forall bytes, item, rest :: ParsesTo(parse, bytes, item, rest) <==> ok(item) && bytes == put(item) + rest
  }

  predicate ParsesTo<T(==), E(==)>(parse: Data -> Parsed<T, E>, bytes: Data, item: T, rest: Data) {
    parse(bytes) == Parsed(item, rest)
  }

  ghost predicate AllOk<T(!new)>(ok: T -> bool, items: seq<T>) {
    forall i | 0 <= i < |items| :: ok(items[i])
  }

  /** A run of items is parsed exactly when the wire forms of acceptable items are there. */
  lemma {:induction false} ParsesMany<T(!new), E(!new)>(
      parse: Data -> Parsed<T, E>, put: T -> Data, ok: T -> bool, bytes: Data, count: nat, items: seq<T>, rest: Data)
    requires Inverse(parse, put, ok)
    ensures ParseMany(parse, bytes, count) == Parsed(items, rest) <==>
              |items| == count && AllOk(ok, items) && bytes == PutMany(put, items) + rest
    decreases count
  {
    if count == 0 {
      if items == [] {
        assert PutMany(put, items) + rest == rest;
      }
    } else {
      if ParseMany(parse, bytes, count) == Parsed(items, rest) {
        var first := parse(bytes);
        assert ParsesTo(parse, bytes, first.value, first.rest);
        assert items == [first.value] + items[1..];
        ParsesMany(parse, put, ok, first.rest, count - 1, items[1..], rest);
        assert AllOk(ok, items[1..]);
        Associate(put(items[0]), PutMany(put, items[1..]), rest);
      }
      if |items| == count && AllOk(ok, items) && bytes == PutMany(put, items) + rest {
        var others := PutMany(put, items[1..]) + rest;
        Associate(put(items[0]), PutMany(put, items[1..]), rest);
        assert ParsesTo(parse, bytes, items[0], others);
        assert AllOk(ok, items[1..]);
        ParsesMany(parse, put, ok, others, count - 1, items[1..], rest);
        assert items == [items[0]] + items[1..];
      }
    }
  }

  /** The decoders' loop. */
  method TakeMany<T, E>(parse: Data -> Parsed<T, E>, bytes: Data, count: nat) returns (p: Parsed<seq<T>, E>)
    ensures p == ParseMany(parse, bytes, count)
  {
    PrecededByNone(ParseMany(parse, bytes, count));
    var items, rest: Data := [], bytes;
    for k := 0 to count
      invariant Preceded(items, ParseMany(parse, rest, count - k)) == ParseMany(parse, bytes, count)
    {
      match parse(rest)
      case Refused(error) => return Refused(error);
      case Parsed(item, next) =>
        PrecededTwice(items, [item], ParseMany(parse, next, count - k - 1));
        items, rest := items + [item], next;
    }
    assert items + [] == items;
    return Parsed(items, rest);
  }

  /** The encoders' loop. */
  method AppendMany<T>(out: Data, put: T -> Data, items: seq<T>) returns (bytes: Data)
    ensures bytes == out + PutMany(put, items)
  {
    bytes := out;
    assert items[0..] == items;
    for k := 0 to |items|
      invariant bytes + PutMany(put, items[k..]) == out + PutMany(put, items)
    {
      assert items[k..][0] == items[k] && items[k..][1..] == items[k + 1..];
      Associate(bytes, put(items[k]), PutMany(put, items[k + 1..]));
      bytes := bytes + put(items[k]);
    }
  }

  lemma PrecededByNone<T, E>(later: Parsed<seq<T>, E>)
    ensures Preceded([], later) == later
  {
    if later.Parsed? {
      assert [] + later.value == later.value;
    }
  }

  lemma PrecededTwice<T, E>(a: seq<T>, b: seq<T>, later: Parsed<seq<T>, E>)
    ensures Preceded(a, Preceded(b, later)) == Preceded(a + b, later)
  {
    if later.Parsed? {
      Associate(a, b, later.value);
    }
  }
}
