/** Wire-level number types and the few sequence facts the other modules share. */
module Bytes {

  type Byte = x: int | 0 <= x < 0x100

  /** A MIDI data byte: the high bit is clear. */
  type DataByte = x: int | 0 <= x < 0x80

  /** A channel, by its index 0..15. */
  type Channel = x: int | 0 <= x < 0x10

  /** A 14-bit value carried by two data bytes. */
  type U14 = x: int | 0 <= x < 0x4000

  const TWO_64: int := 0x1_0000_0000_0000_0000

  /** An unsigned 64-bit integer. */
  type U64 = x: int | 0 <= x < TWO_64

  datatype Option<+T> = None | Some(value: T)

  datatype Result<+T, +E> = Ok(value: T) | Err(error: E)

  predicate IsData(b: Byte) { b < 0x80 }

  /** Status bytes that reset the parser: every status byte below the real-time range. */
  predicate IsStatus(b: Byte) { 0x80 <= b < 0xF8 }

  predicate IsRealTime(b: Byte) { 0xF8 <= b }

  predicate IsChannelStatus(b: Byte) { 0x80 <= b < 0xF0 }

  predicate AllData(bs: seq<Byte>) {
    forall i | 0 <= i < |bs| :: IsData(bs[i])
  }

  function Flatten<T>(xs: seq<seq<T>>): seq<T> {
    if xs == [] then [] else xs[0] + Flatten(xs[1..])
  }

  lemma {:induction false} FlattenConcat<T>(xs: seq<seq<T>>, ys: seq<seq<T>>)
    ensures Flatten(xs + ys) == Flatten(xs) + Flatten(ys)
  {
    if xs == [] {
      assert xs + ys == ys;
    } else {
      assert (xs + ys)[1..] == xs[1..] + ys;
      FlattenConcat(xs[1..], ys);
    }
  }

  /** The elements satisfying `keep`, in order. */
  function Filter<T>(keep: T -> bool, xs: seq<T>): seq<T> {
    if xs == [] then [] else (if keep(xs[0]) then [xs[0]] else []) + Filter(keep, xs[1..])
  }

  lemma {:induction false} FilterConcat<T>(keep: T -> bool, xs: seq<T>, ys: seq<T>)
    ensures Filter(keep, xs + ys) == Filter(keep, xs) + Filter(keep, ys)
  {
    if xs == [] {
      assert xs + ys == ys;
    } else {
      var head := if keep(xs[0]) then [xs[0]] else [];
      assert (xs + ys)[1..] == xs[1..] + ys;
      FilterConcat(keep, xs[1..], ys);
      assert head + (Filter(keep, xs[1..]) + Filter(keep, ys)) == (head + Filter(keep, xs[1..])) + Filter(keep, ys);
    }
  }

  lemma {:induction false} FilterAll<T>(keep: T -> bool, xs: seq<T>)
    ensures (forall i | 0 <= i < |xs| :: keep(xs[i])) ==> Filter(keep, xs) == xs
    ensures (forall i | 0 <= i < |xs| :: !keep(xs[i])) ==> Filter(keep, xs) == []
  {
    if xs == [] {
    } else {
      FilterAll(keep, xs[1..]);
    }
  }

  lemma {:induction false} FilterHas<T>(keep: T -> bool, xs: seq<T>, x: T)
    requires x in xs && keep(x)
    ensures x in Filter(keep, xs)
  {
    if x == xs[0] {
    } else {
      FilterHas(keep, xs[1..], x);
    }
  }

  lemma {:induction false} FilterKeeps<T>(keep: T -> bool, xs: seq<T>)
    ensures forall i | 0 <= i < |Filter(keep, xs)| :: keep(Filter(keep, xs)[i])
  {
    if xs == [] {
    } else {
      FilterKeeps(keep, xs[1..]);
    }
  }

  function Min(a: int, b: int): int {
    if a <= b then a else b
  }
}
