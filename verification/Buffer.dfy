/** The compacting I/O buffer (src/buffer.c). */
module Buffers {
  import opened Bytes

  // what is read from a channel at once never exceeds this (src/channel.c)
  const BUFFER_SIZE: nat := 256

  class Buffer {
    const base: array<byte>
    var pin: nat
    var pout: nat
    ghost var appended: seq<byte>
    ghost var consumed: seq<byte>

    // base <= pout <= pin <= end; everything appended was consumed or is pending, in order
    ghost predicate Valid()
      reads this, base
    {
      pout <= pin <= base.Length && appended == consumed + Pending()
    }

    ghost function Pending(): seq<byte>
      requires pout <= pin <= base.Length
      reads this, base
    {
      base[pout..pin]
    }

    // buffer_init
    constructor (n: nat)
      ensures Valid() && fresh(base) && base.Length == n && Pending() == [] && appended == []
    {
      base := new byte[n];
      pin, pout, appended, consumed := 0, 0, [], [];
    }

    // buffer_available
    function Available(): nat
      requires pout <= pin
      reads this
    {
      pin - pout
    }

    // buffer_space
    function Space(): nat
      requires pin <= base.Length
      reads this
    {
      base.Length - pin
    }

    // the byte at an offset from the output position
    function At(i: nat): (b: byte)
      requires Valid() && i < Available()
      reads this, base
      ensures b == Pending()[i]
    {
      base[pout + i]
    }

    // memmove towards the front
    method MoveDown(n: nat)
      requires pout + n <= base.Length
      modifies base
      ensures base[..n] == old(base[pout..pout + n])
    {
      ghost var all := base[..];
      var k := 0;
      while k < n
        invariant 0 <= k <= n
        invariant forall i | pout + k <= i < base.Length :: base[i] == all[i]
        invariant forall i | 0 <= i < k :: base[i] == all[pout + i]
      {
        base[k] := base[pout + k];
        k := k + 1;
      }
    }

    // bytes written from the input position on
    method Fill(bytes: seq<byte>)
      requires pin + |bytes| <= base.Length
      modifies base
      ensures base[..pin] == old(base[..pin]) && base[pin..pin + |bytes|] == bytes
    {
      ghost var all := base[..];
      var k := 0;
      while k < |bytes|
        invariant 0 <= k <= |bytes|
        invariant forall i | 0 <= i < pin :: base[i] == all[i]
        invariant forall i | 0 <= i < k :: base[pin + i] == bytes[i]
      {
        base[pin + k] := bytes[k];
        k := k + 1;
      }
    }

    // buffer_compact
    method Compact()
      requires Valid()
      modifies this`pin, this`pout, base
      ensures Valid() && pout == 0 && Pending() == old(Pending())
    {
      var a := Available();
      MoveDown(a);
      pout := 0;
      pin := pout + a;
    }

    // bytes written and taken in
    method TakeIn(bytes: seq<byte>)
      requires Valid() && pin + |bytes| <= base.Length
      modifies this`pin, this`appended, base
      ensures Valid() && Pending() == old(Pending()) + bytes && appended == old(appended) + bytes
    {
      ghost var was, from := Pending(), pin;
      Fill(bytes);
      pin := pin + |bytes|;
      appended := appended + bytes;
      assert base[pout..from] == was by { assert base[pout..from] == base[..from][pout..]; }
      assert base[pout..pin] == base[pout..from] + base[from..pin];
    }

    // buffer_read: some bytes at the front of the input fit behind the pending ones;
    // n < 0 is the error ENOBUFS
    method Read(input: seq<byte>) returns (n: int)
      requires Valid()
      modifies this`pin, this`pout, this`appended, base
      ensures Valid()
      ensures n < 0 <==> |old(Pending())| == base.Length
      ensures n < 0 ==> Pending() == old(Pending()) && appended == old(appended)
      ensures n >= 0 ==>
        && n <= |input| && Pending() == old(Pending()) + input[..n]
        && appended == old(appended) + input[..n]
      ensures n >= 0 && input != [] ==> n > 0
    {
      var count := Space();
      if count == 0 {
        Compact();
        count := Space();
        if count == 0 { return -1; }
      }
      n := *;
      if n < 1 || n > count || n > |input| { n := if |input| <= count then |input| else count; }
      TakeIn(input[..n]);
    }

    // buffer_append and the bytes stored there; false is the NULL pointer
    method Append(bytes: seq<byte>) returns (ok: bool)
      requires Valid()
      modifies this`pin, this`appended, base
      ensures Valid() && ok == (old(Space()) >= |bytes|)
      ensures Pending() == old(Pending()) + if ok then bytes else []
      ensures appended == old(appended) + if ok then bytes else []
    {
      ok := Space() >= |bytes|;
      if ok { TakeIn(bytes); }
    }

    // buffer_consume
    method Consume(n: nat)
      requires Valid() && n <= Available()
      modifies this`pin, this`pout, this`consumed
      ensures Valid() && appended == old(appended)
      ensures Pending() == old(Pending())[n..] && consumed == old(consumed) + old(Pending())[..n]
    {
      ghost var was := Pending();
      consumed := consumed + was[..n];
      assert was == was[..n] + was[n..];
      pout := pout + n;
      if pout == pin { pin, pout := 0, 0; }
    }
  }
}
