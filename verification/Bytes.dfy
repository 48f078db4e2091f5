/** Bytes and their bits. */
module Bytes {
  import opened Powers

  type byte = x: int | 0 <= x < 256

  // uint8_t arithmetic
  function Plus(a: byte, b: byte): byte { (a + b) % 256 }
  function Xor(a: byte, b: byte): byte { ((a as bv8) ^ (b as bv8)) as int }

  // bit_is_set, on one byte
  predicate Bit(x: nat, k: nat) {
    if k == 0 then x % 2 == 1 else Bit(x / 2, k - 1)
  }

  // bit_set, on one byte
  function SetBit(x: nat, k: nat): nat { if Bit(x, k) then x else x + Pow2(k) }

  // the number with these bits, lowest first
  function Number(bits: seq<bool>): (n: nat)
    ensures n < Pow2(|bits|)
  {
    if bits == [] then 0 else (if bits[0] then 1 else 0) + 2 * Number(bits[1..])
  }

  function Pack(bits: seq<bool>): byte
    requires |bits| == 8
  {
    assert Pow2(8) == 2 * (2 * (2 * (2 * Pow2(4))));
    Number(bits)
  }

  lemma {:induction false} NumberBits(bits: seq<bool>, k: nat)
    requires k < |bits|
    ensures Bit(Number(bits), k) == bits[k]
  {
    hide Pow2;
    var low, rest := if bits[0] then 1 else 0, Number(bits[1..]);
    assert Number(bits) == low + 2 * rest;
    assert Number(bits) / 2 == rest && Number(bits) % 2 == low;
    if k > 0 { NumberBits(bits[1..], k - 1); }
  }

  lemma {:induction false} NumberSet(bits: seq<bool>, k: nat)
    requires k < |bits|
    ensures SetBit(Number(bits), k) == Number(bits[k := true])
  {
    var more := bits[k := true];
    if k > 0 {
      NumberSet(bits[1..], k - 1);
      assert more[1..] == bits[1..][k - 1 := true];
    } else {
      assert more[1..] == bits[1..];
    }
  }

  lemma PackBits(bits: seq<bool>)
    requires |bits| == 8
    ensures forall k | 0 <= k < 8 :: Bit(Pack(bits), k) == bits[k]
  {
    forall k | 0 <= k < 8 ensures Bit(Pack(bits), k) == bits[k] { NumberBits(bits, k); }
  }

  // --- in plain numbers ---

  // what a bit adds to a byte
  function On(b: bool, n: nat): nat { if b then n else 0 }

  lemma NumberStep(bits: seq<bool>)
    requires bits != []
    ensures Number(bits) == On(bits[0], 1) + 2 * Number(bits[1..])
  {
  }

  lemma NumberFour(bits: seq<bool>)
    requires |bits| >= 4
    ensures Number(bits) == On(bits[0], 1) + On(bits[1], 2) + On(bits[2], 4) + On(bits[3], 8)
      + 16 * Number(bits[4..])
  {
    hide Number;
    var b, c, d := bits[1..], bits[1..][1..], bits[1..][1..][1..];
    NumberStep(bits);
    NumberStep(b);
    NumberStep(c);
    NumberStep(d);
    assert d[1..] == bits[4..] && b[0] == bits[1] && c[0] == bits[2] && d[0] == bits[3];
  }

  lemma EmptyNumber()
    ensures Number([]) == 0
  {
  }

  // the number of a byte is the sum of the places of its bits
  lemma PackIs(bits: seq<bool>)
    requires |bits| == 8
    ensures Pack(bits) == On(bits[0], 1) + On(bits[1], 2) + On(bits[2], 4) + On(bits[3], 8) + On(bits[4], 16)
      + On(bits[5], 32) + On(bits[6], 64) + On(bits[7], 128)
  {
    hide Number, Pack;
    PackNumber(bits);
    NumberFour(bits);
    NumberFour(bits[4..]);
    assert bits[4..][4..] == [];
    EmptyNumber();
  }

  lemma PackNumber(bits: seq<bool>)
    requires |bits| == 8
    ensures Pack(bits) == Number(bits)
  {
  }

  // the places of a byte: 1, 2, 4 and so on up to 128
  predicate Has(x: nat, place: nat)
    requires place > 0
  {
    x / place % 2 == 1
  }

  // bit k is the place of that power of two
  lemma BitsAre(x: byte)
    ensures Bit(x, 0) == Has(x, 1) && Bit(x, 1) == Has(x, 2) && Bit(x, 2) == Has(x, 4) && Bit(x, 3) == Has(x, 8)
    ensures Bit(x, 4) == Has(x, 16) && Bit(x, 5) == Has(x, 32) && Bit(x, 6) == Has(x, 64) && Bit(x, 7) == Has(x, 128)
  {
    hide Bit;
    LowBits(x);
    LowBits(x / 16);
    BitFour(x, 0);
    BitFour(x, 1);
    BitFour(x, 2);
    BitFour(x, 3);
    Sixteenths(x);
  }

  lemma Sixteenths(x: nat)
    ensures x / 16 / 2 == x / 32 && x / 16 / 4 == x / 64 && x / 16 / 8 == x / 128
  {
  }

  lemma LowBits(x: nat)
    ensures Bit(x, 0) == (x % 2 == 1) && Bit(x, 1) == (x / 2 % 2 == 1) && Bit(x, 2) == (x / 4 % 2 == 1)
    ensures Bit(x, 3) == (x / 8 % 2 == 1)
  {
    hide Bit;
    BitZero(x);
    BitStep(x, 1);
    BitZero(x / 2);
    BitStep(x, 2);
    BitStep(x / 2, 1);
    BitZero(x / 2 / 2);
    BitStep(x, 3);
    BitStep(x / 2, 2);
    BitStep(x / 2 / 2, 1);
    BitZero(x / 2 / 2 / 2);
    Halved(x);
  }

  lemma Halved(x: nat)
    ensures x / 2 / 2 == x / 4 && x / 2 / 2 / 2 == x / 8 && x / 2 / 2 / 2 / 2 == x / 16
  {
  }

  lemma BitFour(x: nat, k: nat)
    ensures Bit(x, k + 4) == Bit(x / 16, k)
  {
    hide Bit;
    BitStep(x, k + 4);
    BitStep(x / 2, k + 3);
    BitStep(x / 2 / 2, k + 2);
    BitStep(x / 2 / 2 / 2, k + 1);
    Halved(x);
  }

  lemma BitStep(x: nat, k: nat)
    requires k > 0
    ensures Bit(x, k) == Bit(x / 2, k - 1)
  {
  }

  lemma BitZero(x: nat)
    ensures Bit(x, 0) == (x % 2 == 1)
  {
  }

  const NO_BITS: seq<bool> := [false, false, false, false, false, false, false, false]

  lemma NoBits()
    ensures Number(NO_BITS) == 0
  {
    assert NO_BITS[1..][1..][1..][1..] == [false, false, false, false];
    assert Number([false, false, false, false]) == 0;
  }

  // bit_set(mess, 8 * i + k)
  method SetFlag(mess: array<byte>, i: nat, k: nat, ghost bits: seq<bool>) returns (ghost more: seq<bool>)
    requires i < mess.Length && k < |bits| == 8 && mess[i] == Number(bits)
    modifies mess
    ensures more == bits[k := true] && mess[i] == Number(more)
    ensures forall j | 0 <= j < mess.Length && j != i :: mess[j] == old(mess[j])
  {
    NumberSet(bits, k);
    more := bits[k := true];
    assert Number(more) == Pack(more);
    mess[i] := SetBit(mess[i], k);
  }
}
