/** The receive loops over the buffer, against the framing of the whole stream. */
module Readers {
  import opened Bytes
  import opened Buffers
  import opened Framing

  // the sum of bytes 1 to n - 1
  function SumTo(s: seq<byte>, n: nat): byte
    requires 1 <= n <= |s|
  {
    if n == 1 then 0 else Plus(SumTo(s, n - 1), s[n - 1])
  }

  // the exclusive or of the first n bytes
  function XorTo(s: seq<byte>, n: nat): byte
    requires n <= |s|
  {
    if n == 0 then 0 else Xor(XorTo(s, n - 1), s[n - 1])
  }

  // calculate_checksum of pelco_d; the sum is kept in a byte, as it is returned
  method SumChecksum(mess: seq<byte>) returns (checksum: byte)
    requires |mess| >= 7
    ensures checksum == SumD(mess)
  {
    checksum := 0;
    for i := 1 to 6
      invariant checksum == SumTo(mess, i)
    {
      checksum := Plus(checksum, mess[i]);
    }
    SumOfFive(mess);
  }

  lemma SumOfFive(s: seq<byte>)
    requires |s| >= 7
    ensures SumTo(s, 6) == SumD(s)
  {
    hide Plus;
    assert SumTo(s, 2) == Plus(0, s[1]);
    assert SumTo(s, 4) == Plus(Plus(SumTo(s, 2), s[2]), s[3]);
  }

  // calculate_checksum of pelco_p
  method XorChecksum(mess: seq<byte>) returns (checksum: byte)
    requires |mess| >= 8
    ensures checksum == XorP(mess)
  {
    checksum := 0;
    for i := 0 to 7
      invariant checksum == XorTo(mess, i)
    {
      checksum := Xor(checksum, mess[i]);
    }
    XorOfSeven(mess);
  }

  lemma XorOfSeven(s: seq<byte>)
    requires |s| >= 8
    ensures XorTo(s, 7) == XorP(s)
  {
    hide Xor;
    assert XorTo(s, 1) == Xor(0, s[0]);
    assert XorTo(s, 3) == Xor(Xor(XorTo(s, 1), s[1]), s[2]);
    assert XorTo(s, 5) == Xor(Xor(XorTo(s, 3), s[3]), s[4]);
  }

  // pelco_discard_garbage: the first byte goes, and what follows up to a start byte or
  // to the end of the data
  method DiscardGarbage(buf: Buffer, p: Protocol)
    requires buf.Valid() && buf.Available() > 0
    modifies buf`pin, buf`pout, buf`consumed
    ensures buf.Valid() && buf.Pending() == Strip(p, old(buf.Pending())[1..])
  {
    var n := 1;
    ghost var s := buf.Pending();
    while n < buf.Available() && !Starts(p, buf.At(n))
      invariant 1 <= n <= buf.Available() && Strip(p, s[1..]) == Strip(p, s[n..])
    {
      assert s[n..][0] == s[n] && s[n..][1..] == s[n + 1..];
      n := n + 1;
    }
    if n < |s| { assert s[n..][0] == s[n]; }
    buf.Consume(n);
  }

  lemma StripSame(p: Protocol, s: seq<byte>)
    requires p.PelcoD? || p.PelcoP?
    ensures Parse(p, Strip(p, s)) == Parse(p, s)
  {
    StripParse(p, s, []);
    assert s + [] == s && Strip(p, s) + [] == Strip(p, s);
  }

  lemma {:induction false} ShortParse(p: Protocol, s: seq<byte>)
    requires (p.PelcoD? || p.PelcoP?) && |s| < Least(p)
    ensures Parse(p, s) == ([], Strip(p, s))
  {
    if s != [] && !Starts(p, s[0]) { ShortParse(p, s[1..]); }
  }

  // msgs and what the framing finds in the bytes s make up all
  ghost predicate Left(p: Protocol, all: seq<byte>, msgs: seq<seq<byte>>, s: seq<byte>) {
    Parse(p, all).0 == msgs + Parse(p, s).0 && Parse(p, all).1 == Parse(p, s).1
  }

  lemma LeftDrop(p: Protocol, all: seq<byte>, msgs: seq<seq<byte>>, s: seq<byte>)
    requires Left(p, all, msgs, s) && Act(p, s) == Drop
    ensures Left(p, all, msgs, s[1..])
    ensures p.PelcoD? || p.PelcoP? ==> Left(p, all, msgs, Strip(p, s[1..]))
  {
    ParseDrop(p, s);
    if p.PelcoD? || p.PelcoP? { StripSame(p, s[1..]); }
    hide Act, Parse;
  }

  lemma LeftTake(p: Protocol, all: seq<byte>, msgs: seq<seq<byte>>, s: seq<byte>, n: nat)
    requires Left(p, all, msgs, s) && Act(p, s) == Take(n)
    ensures Left(p, all, msgs + [s[..n]], s[n..])
  {
    ParseTake(p, s, n);
    hide Act, Parse;
  }

  lemma LeftAll(p: Protocol, all: seq<byte>)
    ensures Left(p, all, [], all)
  {
  }

  lemma LeftEnd(p: Protocol, all: seq<byte>, msgs: seq<seq<byte>>, s: seq<byte>)
    requires Left(p, all, msgs, s) && Parse(p, s) == ([], Strip(p, s))
    ensures Parse(p, all).0 == msgs && Parse(p, all).1 == Strip(p, s)
  {
  }

  lemma LeftWait(p: Protocol, all: seq<byte>, msgs: seq<seq<byte>>, s: seq<byte>)
    requires Left(p, all, msgs, s) && Act(p, s) == Wait
    ensures Parse(p, all).0 == msgs && Parse(p, all).1 == s
  {
  }

  // pelco_d_do_read and pelco_p_do_read
  method PelcoRead(buf: Buffer, p: Protocol) returns (msgs: seq<seq<byte>>)
    requires buf.Valid() && (p.PelcoD? || p.PelcoP?)
    modifies buf`pin, buf`pout, buf`consumed
    ensures buf.Valid() && |buf.Pending()| < Least(p)
    ensures msgs == Parse(p, old(buf.Pending())).0
    ensures Agrees(p, buf.Pending(), Parse(p, old(buf.Pending())).1)
  {
    msgs := [];
    ghost var all := buf.Pending();
    hide Parse, Strip, Buffer.Valid, Checked, Starts, Left, Agrees;
    LeftAll(p, all);
    while buf.Available() >= Least(p)
      invariant buf.Valid() && Left(p, all, msgs, buf.Pending())
      decreases buf.Available()
    {
      ghost var s := buf.Pending();
      var ok := Starts(p, buf.At(0));
      if ok { ok := ChecksumIsValid(buf, p); }
      if ok {
        LeftTake(p, all, msgs, s, Least(p));
        var mess := Front(buf, Least(p));
        buf.Consume(Least(p));
        msgs := msgs + [mess];
      } else {
        LeftDrop(p, all, msgs, s);
        DiscardGarbage(buf, p);
      }
    }
    ShortParse(p, buf.Pending());
    LeftEnd(p, all, msgs, buf.Pending());
  }

  // the message at the output position
  method Front(buf: Buffer, n: nat) returns (mess: seq<byte>)
    requires buf.Valid() && n <= buf.Available()
    ensures mess == buf.Pending()[..n]
  {
    mess := buf.base[buf.pout..buf.pout + n];
  }

  // the tests of pelco_decode_message after the first byte
  method ChecksumIsValid(buf: Buffer, p: Protocol) returns (ok: bool)
    requires buf.Valid() && (p.PelcoD? || p.PelcoP?) && buf.Available() >= Least(p)
    ensures ok == Checked(p, buf.Pending())
  {
    var mess := Front(buf, Least(p));
    CheckedFront(p, buf.Pending());
    if p.PelcoD? {
      var sum := SumChecksum(mess);
      ok := sum == mess[6];
    } else {
      ok := mess[6] == 0xAF;
      if ok {
        var sum := XorChecksum(mess);
        ok := sum == mess[7];
      }
    }
  }

  lemma CheckedFront(p: Protocol, s: seq<byte>)
    requires |s| >= Least(p)
    ensures Checked(p, s[..Least(p)]) == Checked(p, s)
  {
    CheckedStable(p, s[..Least(p)], s[Least(p)..]);
    assert s[..Least(p)] + s[Least(p)..] == s;
  }

  // the first two bytes of a vicon message decide its size
  lemma ViconHead(s: seq<byte>)
    requires |s| >= 2
    ensures s[..2][0] == s[0] && ViconSize(s[..2]) == ViconSize(s)
  {
  }

  // vicon_do_read
  method ViconRead(buf: Buffer) returns (msgs: seq<seq<byte>>)
    requires buf.Valid()
    modifies buf`pin, buf`pout, buf`consumed
    ensures buf.Valid() && |buf.Pending()| < 10
    ensures msgs == Parse(Vicon, old(buf.Pending())).0
    ensures buf.Pending() == Parse(Vicon, old(buf.Pending())).1
  {
    msgs := [];
    ghost var all := buf.Pending();
    hide Parse, Buffer.Valid, Left, FlagBit;
    LeftAll(Vicon, all);
    while buf.Available() >= 2
      invariant buf.Valid() && Left(Vicon, all, msgs, buf.Pending())
      decreases buf.Available()
    {
      ghost var s := buf.Pending();
      var head := Front(buf, 2);
      ViconHead(s);
      if !FlagBit(head[0]) {
        LeftDrop(Vicon, all, msgs, s);
        buf.Consume(1);  // unexpected byte
      } else {
        var size := ViconSize(head);
        if buf.Available() < size { break; }
        LeftTake(Vicon, all, msgs, s, size);
        var mess := Front(buf, size);
        buf.Consume(size);
        msgs := msgs + [mess];
      }
    }
    LeftWait(Vicon, all, msgs, buf.Pending());
    LeftOver(Vicon, all);
  }

  // the loop of the reader for each protocol that processes a message at a time
  method ReadMessages(buf: Buffer, p: Protocol) returns (msgs: seq<seq<byte>>)
    requires buf.Valid() && !p.Manchester?
    modifies buf`pin, buf`pout, buf`consumed
    ensures buf.Valid() && |buf.Pending()| < 10 && buf.appended == old(buf.appended)
    ensures msgs == Parse(p, old(buf.Pending())).0
    ensures Agrees(p, buf.Pending(), Parse(p, old(buf.Pending())).1)
  {
    if p.Vicon? { msgs := ViconRead(buf); } else { msgs := PelcoRead(buf, p); }
  }

  // Receiving a stream, however it is cut into reads: each read takes some of the bytes
  // that have come, never fails for want of space, and the messages found are those of
  // the stream as a whole.
  method Receive(buf: Buffer, p: Protocol, stream: seq<byte>) returns (msgs: seq<seq<byte>>)
    requires buf.Valid() && buf.Pending() == [] && buf.base.Length == BUFFER_SIZE && !p.Manchester?
    modifies buf`pin, buf`pout, buf`appended, buf`consumed, buf.base
    ensures buf.Valid() && buf.appended == old(buf.appended) + stream
    ensures msgs == Parse(p, stream).0
    ensures Agrees(p, buf.Pending(), Parse(p, stream).1)
  {
    hide Parse, Strip, Agrees;
    msgs := [];
    var k := 0;
    NothingRead(p);
    while k < |stream|
      invariant 0 <= k <= |stream| && buf.Valid() && |buf.Pending()| < 10
      invariant buf.appended == old(buf.appended) + stream[..k]
      invariant msgs == Parse(p, stream[..k]).0 && Agrees(p, buf.Pending(), Parse(p, stream[..k]).1)
    {
      ghost var pending := buf.Pending();
      var n := buf.Read(stream[k..]);
      assert n > 0;  // never ENOBUFS
      ghost var chunk := stream[k..][..n];
      NextChunk(stream, k, n);
      AgreesMore(p, pending, stream[..k], chunk);
      var more := ReadMessages(buf, p);
      AgreesParsed(p, pending + chunk, stream[..k + n], buf.Pending());
      msgs := msgs + more;
      k := k + n;
    }
    assert stream[..|stream|] == stream;
  }

  lemma NextChunk(stream: seq<byte>, k: nat, n: nat)
    requires k + n <= |stream|
    ensures stream[..k + n] == stream[..k] + stream[k..][..n]
  {
  }

  lemma NothingRead(p: Protocol)
    ensures Parse(p, []) == ([], []) && Agrees(p, [], [])
  {
  }

  // agreement with what is left of the bytes read is agreement with what is left of all
  lemma AgreesParsed(p: Protocol, s: seq<byte>, all: seq<byte>, pending: seq<byte>)
    requires Parse(p, all).1 == Parse(p, s).1 && Agrees(p, pending, Parse(p, s).1)
    ensures Agrees(p, pending, Parse(p, all).1)
  {
  }

  // Chunking independence: two receivers of the same bytes find the same messages, and
  // whatever comes next they go on alike, although their buffers may hold different garbage.
  lemma ChunkingIndependence(p: Protocol, s: seq<byte>, a: seq<byte>, b: seq<byte>, c: seq<byte>)
    requires Agrees(p, a, Parse(p, s).1) && Agrees(p, b, Parse(p, s).1)
    ensures Parse(p, a + c) == Parse(p, b + c)
  {
    if p.PelcoD? || p.PelcoP? {
      StripParse(p, a, c);
      StripParse(p, b, c);
    }
  }
}
