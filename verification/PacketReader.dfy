/** The readers that process a message at a time, on their packet: pelco_d_do_read,
    pelco_p_do_read and vicon_do_read. */
module PacketReader {
  import opened Bytes
  import opened Buffers
  import opened Framing
  import opened Readers
  import opened Ccpacket
  import opened Codec
  import D = PelcoD
  import P = PelcoP
  import C = ViconCodec
  import V = ViconReader

  datatype Reader = OverPelcoD | OverPelcoP(deadzone: bool) | OverVicon

  function Of(r: Reader): Protocol {
    match r case OverPelcoD => PelcoD case OverPelcoP(_) => PelcoP case OverVicon => Vicon
  }

  // the sizes of messages that a packet is decoded from, and of those that are skipped
  predicate Telling(r: Reader, m: seq<byte>) {
    match r case OverPelcoD => |m| == 7 case OverPelcoP(_) => |m| == 8 case OverVicon => |m| == 6 || |m| == 10
  }

  predicate Skipped(r: Reader, m: seq<byte>) { r.OverVicon? && |m| == 2 }

  lemma MessagesTelling(r: Reader, s: seq<byte>)
    ensures forall m <- Parse(Of(r), s).0 :: Telling(r, m) || Skipped(r, m)
  {
    if r.OverVicon? { V.MessagesSized(s); } else { MessageSizes(Of(r), s); }
  }

  function Decode(r: Reader, m: seq<byte>, p: Packet): Packet
    requires Telling(r, m)
  {
    match r
    case OverPelcoD => D.Decode(m, p)
    case OverPelcoP(deadzone) => P.Decode(m, deadzone, p)
    case OverVicon => C.Decode(m, p)
  }

  // decoding keeps the expiry, and the receiver held before makes no difference
  lemma DecodedAnew(r: Reader, m: seq<byte>, p: Packet, receiver: int)
    requires Telling(r, m)
    ensures Decode(r, m, p).expire == p.expire && Decode(r, m, p.SetReceiver(receiver)) == Decode(r, m, p)
  {
    hide D.Decode, P.Decode, C.Decode;
    match r
    case OverPelcoD =>
      D.DecodeExpire(m, p);
      D.DecodeAnew(m, p, receiver);
    case OverPelcoP(deadzone) =>
      P.DecodeExpire(m, deadzone, p);
      P.DecodeAnew(m, deadzone, p, receiver);
    case OverVicon =>
      V.DecodeExpire(m, p);
      V.DecodeAnew(m, p, receiver);
  }

  // The packets handed on for these messages: one each, decoded from a cleared packet, and
  // none for the two-byte status messages of vicon.
  function Received(r: Reader, ms: seq<seq<byte>>, c: Packet): seq<Packet> {
    if ms == [] then []
    else var n := |ms| - 1; Received(r, ms[..n], c) + Handed(r, ms[n], c)
  }

  function Handed(r: Reader, m: seq<byte>, c: Packet): seq<Packet> {
    if Telling(r, m) then [Decode(r, m, c)] else []
  }

  lemma ReceivedMore(r: Reader, ms: seq<seq<byte>>, k: nat, c: Packet)
    requires k < |ms|
    ensures Received(r, ms[..k + 1], c) == Received(r, ms[..k], c) + Handed(r, ms[k], c)
  {
    assert ms[..k + 1][..k] == ms[..k];
    hide Handed;
  }

  lemma NoneReceived(r: Reader, c: Packet)
    ensures Received(r, [], c) == []
  {
  }

  lemma {:induction false} ReceivedPlus(r: Reader, a: seq<seq<byte>>, b: seq<seq<byte>>, c: Packet)
    ensures Received(r, a + b, c) == Received(r, a, c) + Received(r, b, c)
    decreases |b|
  {
    hide Handed;
    if b == [] {
      assert a + b == a;
    } else {
      var n := |b| - 1;
      assert (a + b)[..|a| + n] == a + b[..n] && (a + b)[|a| + n] == b[n];
      ReceivedPlus(r, a, b[..n], c);
    }
  }

  lemma {:induction false} ReceivedEach(r: Reader, ms: seq<seq<byte>>, c: Packet)
    requires forall m <- ms :: Telling(r, m)
    ensures |Received(r, ms, c)| == |ms|
    ensures forall i | 0 <= i < |ms| :: Received(r, ms, c)[i] == Decode(r, ms[i], c)
  {
    hide Decode, Telling;
    if ms != [] { ReceivedEach(r, ms[..|ms| - 1], c); }
  }

  // the messages longer than two bytes
  function Longer(ms: seq<seq<byte>>): seq<seq<byte>> {
    if ms == [] then []
    else var n := |ms| - 1; Longer(ms[..n]) + if |ms[n]| > 2 then [ms[n]] else []
  }

  // Every message framed hands on one packet, in order, decoded from a cleared one, but for
  // those of two bytes, which hand on none.
  lemma ReceivedExactly(r: Reader, s: seq<byte>, c: Packet)
    ensures var (ms, out) := (Longer(Parse(Of(r), s).0), Received(r, Parse(Of(r), s).0, c));
      |out| == |ms| && forall i | 0 <= i < |ms| :: Telling(r, ms[i]) && out[i] == Decode(r, ms[i], c)
  {
    hide *;
    MessagesTelling(r, s);
    ReceivedLonger(r, Parse(Of(r), s).0, c);
  }

  lemma {:induction false} ReceivedLonger(r: Reader, ms: seq<seq<byte>>, c: Packet)
    requires forall m <- ms :: Telling(r, m) || Skipped(r, m)
    ensures |Received(r, ms, c)| == |Longer(ms)|
    ensures forall i | 0 <= i < |Longer(ms)| ::
      Telling(r, Longer(ms)[i]) && Received(r, ms, c)[i] == Decode(r, Longer(ms)[i], c)
  {
    hide Decode;
    if ms != [] { ReceivedLonger(r, ms[..|ms| - 1], c); }
  }

  // pelco_decode_message of either protocol, decode_message of vicon
  method DecodeMessage(r: Reader, m: seq<byte>, pkt: PacketBuffer)
    requires Telling(r, m)
    modifies pkt
    ensures pkt.View() == Decode(r, m, old(pkt.View()))
  {
    hide D.Decode, P.Decode, C.Decode;
    match r
    case OverPelcoD => D.DecodeMessage(m, pkt);
    case OverPelcoP(deadzone) => P.DecodeMessage(m, deadzone, pkt);
    case OverVicon => V.DecodeMessage(m, pkt);
  }

  // one message: the packet is handed to ccreader_process_packet, which clears it
  method PassOn(r: Reader, m: seq<byte>, pkt: PacketBuffer, ghost c: Packet) returns (out: seq<Packet>)
    requires (Telling(r, m) || Skipped(r, m)) && Ready(pkt, c)
    modifies pkt
    ensures out == Handed(r, m, c) && Ready(pkt, c)
  {
    hide Decode, Cleared;
    if Skipped(r, m) { return []; }
    DecodedAnew(r, m, c, pkt.receiver);
    DecodeMessage(r, m, pkt);
    out := [pkt.View()];
    pkt.Clear();
  }

  method DecodeAll(r: Reader, msgs: seq<seq<byte>>, pkt: PacketBuffer, ghost c: Packet) returns (out: seq<Packet>)
    requires (forall m <- msgs :: Telling(r, m) || Skipped(r, m)) && Ready(pkt, c)
    modifies pkt
    ensures Ready(pkt, c) && out == Received(r, msgs, c)
  {
    hide Handed, Received, Ready, Telling, Skipped;
    out := [];
    NoneReceived(r, c);
    for i := 0 to |msgs|
      invariant Ready(pkt, c) && out == Received(r, msgs[..i], c)
    {
      ReceivedMore(r, msgs, i, c);
      var more := PassOn(r, msgs[i], pkt, c);
      out := out + more;
    }
    assert msgs[..|msgs|] == msgs;
  }

  // one read of any of the three: the packets handed on
  method ReadPackets(r: Reader, buf: Buffer, pkt: PacketBuffer, ghost c: Packet) returns (out: seq<Packet>)
    requires buf.Valid() && Ready(pkt, c)
    modifies pkt, buf`pin, buf`pout, buf`consumed
    ensures buf.Valid() && Ready(pkt, c) && |buf.Pending()| < 10
    ensures out == Received(r, Parse(Of(r), old(buf.Pending())).0, c)
    ensures Agrees(Of(r), buf.Pending(), Parse(Of(r), old(buf.Pending())).1)
  {
    hide Parse, Agrees, Received, Ready, Telling, Skipped;
    MessagesTelling(r, buf.Pending());
    var msgs := ReadMessages(buf, Of(r));
    out := DecodeAll(r, msgs, pkt, c);
  }

  // Receiving a stream, however it is cut into reads: the packets handed on are those of
  // the messages of the whole stream.
  method Receive(r: Reader, buf: Buffer, pkt: PacketBuffer, stream: seq<byte>, ghost c: Packet)
    returns (out: seq<Packet>)
    requires buf.Valid() && buf.Pending() == [] && buf.base.Length == BUFFER_SIZE && Ready(pkt, c)
    modifies pkt, buf`pin, buf`pout, buf`appended, buf`consumed, buf.base
    ensures buf.Valid() && Ready(pkt, c) && out == Received(r, Parse(Of(r), stream).0, c)
    ensures Agrees(Of(r), buf.Pending(), Parse(Of(r), stream).1)
  {
    hide Parse, Strip, Agrees, Received, Ready;
    var p := Of(r);
    out := [];
    var k := 0;
    NothingRead(p);
    NoneReceived(r, c);
    while k < |stream|
      invariant 0 <= k <= |stream| && buf.Valid() && |buf.Pending()| < 10 && Ready(pkt, c)
      invariant out == Received(r, Parse(p, stream[..k]).0, c) && Agrees(p, buf.Pending(), Parse(p, stream[..k]).1)
    {
      ghost var pending := buf.Pending();
      var n := buf.Read(stream[k..]);
      assert n > 0;  // never ENOBUFS
      ghost var chunk := stream[k..][..n];
      NextChunk(stream, k, n);
      AgreesMore(p, pending, stream[..k], chunk);
      var more := ReadPackets(r, buf, pkt, c);
      AgreesParsed(p, pending + chunk, stream[..k + n], buf.Pending());
      ReceivedPlus(r, Parse(p, stream[..k]).0, Parse(p, pending + chunk).0, c);
      out := out + more;
      k := k + n;
    }
    assert stream[..|stream|] == stream;
  }
}
