/** Messages on their way through the transmit buffer: ccwriter_append (src/ccwriter.c)
    over src/buffer.c. */
module Writers {
  import opened Bytes
  import opened Buffers
  import opened Framing

  // The messages that find room, in order: one that does not fit is left out whole, and a
  // shorter one after it may still fit.
  function Fitting(space: nat, ms: seq<seq<byte>>): (kept: seq<seq<byte>>)
    ensures forall m <- kept :: m in ms
    ensures |Flatten(kept)| <= space
  {
    if ms == [] then []
    else if |ms[0]| <= space then
      var rest := Fitting(space - |ms[0]|, ms[1..]);
      assert ([ms[0]] + rest)[1..] == rest;
      [ms[0]] + rest
    else Fitting(space, ms[1..])
  }

  // everything fits if and only if there is room for all
  lemma {:induction false} FittingAll(space: nat, ms: seq<seq<byte>>)
    ensures Fitting(space, ms) == ms <==> |Flatten(ms)| <= space
  {
    if ms != [] {
      if |ms[0]| <= space {
        FittingAll(space - |ms[0]|, ms[1..]);
        assert [ms[0]] + ms[1..] == ms;
        assert ([ms[0]] + Fitting(space - |ms[0]|, ms[1..]))[1..] == Fitting(space - |ms[0]|, ms[1..]);
      } else {
        FittingShort(space, ms[1..]);
      }
    }
  }

  lemma {:induction false} FittingShort(space: nat, ms: seq<seq<byte>>)
    ensures |Fitting(space, ms)| <= |ms|
  {
    if ms != [] {
      if |ms[0]| <= space { FittingShort(space - |ms[0]|, ms[1..]); } else { FittingShort(space, ms[1..]); }
    }
  }

  lemma {:induction false} FlattenPlus(a: seq<seq<byte>>, b: seq<seq<byte>>)
    ensures Flatten(a + b) == Flatten(a) + Flatten(b)
  {
    if a == [] {
      assert a + b == b;
    } else {
      assert (a + b)[1..] == a[1..] + b;
      FlattenPlus(a[1..], b);
    }
  }

  // one more message finds room behind those before it, or is left out
  lemma {:induction false} FittingMore(space: nat, ms: seq<seq<byte>>, m: seq<byte>)
    ensures var kept := Fitting(space, ms);
      Fitting(space, ms + [m]) == kept + if |m| <= space - |Flatten(kept)| then [m] else []
  {
    if ms == [] {
      assert ms + [m] == [m] && [m][1..] == [];
      assert Fitting(space, [m]) == if |m| <= space then [m] + [] else [];
    } else {
      assert (ms + [m])[0] == ms[0] && (ms + [m])[1..] == ms[1..] + [m];
      if |ms[0]| <= space {
        var rest := Fitting(space - |ms[0]|, ms[1..]);
        FittingMore(space - |ms[0]|, ms[1..], m);
        assert ([ms[0]] + rest)[1..] == rest;
      } else {
        FittingMore(space, ms[1..], m);
      }
    }
  }

  // Since the buffer held `was` and had this space, the messages ms were appended to it.
  ghost predicate Appended(buf: Buffer, space: nat, was: seq<byte>, ms: seq<seq<byte>>)
    reads buf, buf.base
  {
    && buf.Valid()
    && var kept := Flatten(Fitting(space, ms)); buf.Pending() == was + kept && buf.Space() == space - |kept|
  }

  lemma NoneAppended(buf: Buffer)
    requires buf.Valid()
    ensures Appended(buf, buf.Space(), buf.Pending(), [])
  {
    assert buf.Pending() + [] == buf.Pending();
  }

  // ccwriter_append and a message stored there
  method AppendMessage(buf: Buffer, m: seq<byte>, ghost space: nat, ghost was: seq<byte>, ghost ms: seq<seq<byte>>)
    returns (ghost more: seq<seq<byte>>)
    requires Appended(buf, space, was, ms)
    modifies buf`pin, buf`appended, buf.base
    ensures more == ms + [m] && Appended(buf, space, was, more)
  {
    hide Fitting, Flatten;
    FittingMore(space, ms, m);
    ghost var kept := Fitting(space, ms);
    FlattenOne(kept, m);
    assert kept + [] == kept;
    more := ms + [m];
    var ok := buf.Append(m);
    assert was + (Flatten(kept) + m) == was + Flatten(kept) + m;
  }

  lemma FlattenOne(a: seq<seq<byte>>, m: seq<byte>)
    ensures Flatten(a + [m]) == Flatten(a) + m
  {
    FlattenPlus(a, [m]);
    assert Flatten([m]) == m + Flatten([]);
  }

  // buffer_write: some of the pending bytes go out; n < 0 is the error ENOBUFS
  method Write(buf: Buffer) returns (n: int)
    requires buf.Valid()
    modifies buf`pin, buf`pout, buf`consumed
    ensures buf.Valid() && buf.appended == old(buf.appended) && (n < 0 <==> old(buf.Pending()) == [])
    ensures n < 0 ==> buf.Pending() == old(buf.Pending()) && buf.consumed == old(buf.consumed)
    ensures n >= 0 ==> n <= |old(buf.Pending())| && buf.consumed == old(buf.consumed) + old(buf.Pending())[..n]
    ensures n >= 0 ==> buf.Pending() == old(buf.Pending())[n..]
  {
    var count := buf.Available();
    if count == 0 { return -1; }
    n := *;
    if n < 0 || n > count { n := count; }
    if n > 0 { buf.Consume(n); }
  }

  // However full the transmit buffer gets, only whole messages are lost: what is appended
  // is framed at the other end without a byte dropped.
  lemma OverflowDropsWhole(p: Protocol, space: nat, ms: seq<seq<byte>>)
    requires forall m <- ms :: Message(p, m)
    ensures Parse(p, Flatten(Fitting(space, ms))) == (Fitting(space, ms), [])
  {
    hide Message, Parse, Flatten;
    ParseMessages(p, Fitting(space, ms));
  }

  // While a stream of messages is under way, whatever part of it has come through is
  // framed as its first messages, none broken and none invented.
  lemma PartArrives(p: Protocol, ms: seq<seq<byte>>, k: nat)
    requires (forall m <- ms :: Message(p, m)) && k <= |Flatten(ms)|
    ensures Parse(p, Flatten(ms)[..k]).0 <= ms
  {
    var s := Flatten(ms);
    hide Message, Parse, Flatten;
    ParseMessages(p, ms);
    ParseMore(p, s[..k], s[k..]);
    assert s[..k] + s[k..] == s;
  }
}
