/** How byte streams fall into messages: what the readers of src/pelco_d.c, src/pelco_p.c,
    src/vicon.c and src/manchester.c make of all the bytes received so far. */
module Framing {
  import opened Bytes

  datatype Protocol = PelcoD | PelcoP | Vicon | Manchester

  // what the front of the bytes calls for: more bytes, a byte dropped, a message taken
  datatype Action = Wait | Drop | Take(n: nat)

  predicate FlagBit(b: byte) { Bit(b, 7) }

  // the least number of bytes that a reader looks at
  function Least(p: Protocol): nat {
    match p case PelcoD => 7 case PelcoP => 8 case Vicon => 2 case Manchester => 3
  }

  // the sum of bytes 1 to 5
  function SumD(s: seq<byte>): byte
    requires |s| >= 7
  {
    Plus(Plus(Plus(Plus(Plus(0, s[1]), s[2]), s[3]), s[4]), s[5])
  }

  // the exclusive or of bytes 0 to 6
  function XorP(s: seq<byte>): byte
    requires |s| >= 8
  {
    Xor(Xor(Xor(Xor(Xor(Xor(Xor(0, s[0]), s[1]), s[2]), s[3]), s[4]), s[5]), s[6])
  }

  // the three sizes of vicon messages
  function ViconSize(s: seq<byte>): nat
    requires |s| >= 2
  {
    if Bit(s[1], 4) && Bit(s[1], 6) then 10 else if Bit(s[1], 4) then 6 else 2
  }

  // a byte at which a message may start
  predicate Starts(p: Protocol, b: byte) {
    match p case PelcoD => b == 0xFF case PelcoP => b == 0xA0 case Vicon => FlagBit(b) case Manchester => FlagBit(b)
  }

  // a pelco message whose first byte fits
  predicate Checked(p: Protocol, s: seq<byte>)
    requires |s| >= Least(p)
  {
    match p
    case PelcoD => SumD(s) == s[6]
    case PelcoP => s[6] == 0xAF && XorP(s) == s[7]
    case _ => true
  }

  // The framing, one byte or one message at a time. The pelco readers skip bytes that
  // cannot start a message even when no whole message is there.
  function Act(p: Protocol, s: seq<byte>): (a: Action)
    ensures a.Take? ==> 1 <= a.n <= |s|
    ensures a.Drop? ==> s != []
  {
    if p.PelcoD? || p.PelcoP? then
      if s == [] then Wait
      else if !Starts(p, s[0]) then Drop
      else if |s| < Least(p) then Wait
      else if Checked(p, s) then Take(Least(p)) else Drop
    else if |s| < Least(p) then Wait
    else if !Starts(p, s[0]) then Drop
    else if p.Manchester? then Take(3)
    else if |s| < ViconSize(s) then Wait else Take(ViconSize(s))
  }

  // the messages in a stream, in order, and the bytes that may begin the next one
  function Parse(p: Protocol, s: seq<byte>): (r: (seq<seq<byte>>, seq<byte>))
    ensures |r.1| <= |s|
    decreases |s|
  {
    match Act(p, s)
    case Wait => ([], s)
    case Drop => Parse(p, s[1..])
    case Take(n) => var r := Parse(p, s[n..]); ([s[..n]] + r.0, r.1)
  }

  // an action is settled by the bytes it looks at
  lemma ActStable(p: Protocol, s: seq<byte>, c: seq<byte>)
    requires Act(p, s) != Wait
    ensures Act(p, s + c) == Act(p, s)
  {
    var t := s + c;
    assert t[0] == s[0];
    if |s| >= 2 { assert t[1] == s[1]; }
    if |s| >= Least(p) { CheckedStable(p, s, c); }
    hide Checked, Starts;
  }

  lemma SumStable(s: seq<byte>, c: seq<byte>)
    requires |s| >= 7
    ensures SumD(s + c) == SumD(s)
  {
    hide Plus;
    var t := s + c;
    assert t[1] == s[1] && t[2] == s[2] && t[3] == s[3] && t[4] == s[4] && t[5] == s[5];
  }

  lemma XorStable(s: seq<byte>, c: seq<byte>)
    requires |s| >= 8
    ensures XorP(s + c) == XorP(s)
  {
    hide Xor;
    var t := s + c;
    assert t[0] == s[0] && t[1] == s[1] && t[2] == s[2] && t[3] == s[3] && t[4] == s[4] && t[5] == s[5] && t[6] == s[6];
  }

  lemma CheckedStable(p: Protocol, s: seq<byte>, c: seq<byte>)
    requires |s| >= Least(p)
    ensures Checked(p, s + c) == Checked(p, s)
  {
    if p.PelcoD? { SumStable(s, c); }
    if p.PelcoP? { XorStable(s, c); }
    hide SumD, XorP;
  }

  lemma ActEmpty(p: Protocol)
    ensures Act(p, []) == Wait
  {
  }

  // Framing goes on where it stopped: the messages in a stream followed by more bytes are
  // those in the stream, then those in what was left of it followed by the bytes.
  lemma {:induction false} ParseMore(p: Protocol, s: seq<byte>, c: seq<byte>)
    ensures var (r, q) := (Parse(p, s), Parse(p, s + c));
      q.0 == r.0 + Parse(p, r.1 + c).0 && q.1 == Parse(p, r.1 + c).1
    decreases |s|
  {
    hide Act;
    if Act(p, s) == Wait {
      assert Parse(p, s) == ([], s);
    } else {
      ActStable(p, s, c);
      var n := if Act(p, s).Take? then Act(p, s).n else 1;
      assert (s + c)[n..] == s[n..] + c && (s + c)[..n] == s[..n];
      ParseMore(p, s[n..], c);
    }
  }

  lemma ParseDrop(p: Protocol, s: seq<byte>)
    requires Act(p, s) == Drop
    ensures Parse(p, s) == Parse(p, s[1..])
  {
  }

  lemma ParseTake(p: Protocol, s: seq<byte>, n: nat)
    requires Act(p, s) == Take(n)
    ensures Parse(p, s).0 == [s[..n]] + Parse(p, s[n..]).0 && Parse(p, s).1 == Parse(p, s[n..]).1
  {
  }

  // what is left over is less than the longest message
  lemma {:induction false} LeftOver(p: Protocol, s: seq<byte>)
    ensures |Parse(p, s).1| < if p.Vicon? then 10 else Least(p)
    ensures Act(p, Parse(p, s).1) == Wait
    decreases |s|
  {
    if Act(p, s) != Wait { LeftOver(p, s[if Act(p, s).Take? then Act(p, s).n else 1..]); }
  }

  // every pelco message has the one length
  lemma {:induction false} MessageSizes(p: Protocol, s: seq<byte>)
    requires !p.Vicon?
    ensures forall m <- Parse(p, s).0 :: |m| == Least(p)
    decreases |s|
  {
    if Act(p, s) != Wait { MessageSizes(p, s[if Act(p, s).Take? then Act(p, s).n else 1..]); }
  }

  // --- well-formed streams ---

  // a message that its reader takes whole
  predicate Message(p: Protocol, m: seq<byte>) {
    Act(p, m) == Take(|m|)
  }

  function Flatten(ms: seq<seq<byte>>): seq<byte> {
    if ms == [] then [] else ms[0] + Flatten(ms[1..])
  }

  // Messages sent back to back are found again, all of them and nothing else: no byte of
  // such a stream is dropped.
  lemma {:induction false} ParseMessages(p: Protocol, ms: seq<seq<byte>>)
    requires forall m <- ms :: Message(p, m)
    ensures Parse(p, Flatten(ms)) == (ms, [])
  {
    ActEmpty(p);
    if ms != [] {
      var m, rest := ms[0], Flatten(ms[1..]);
      assert Message(p, m);
      hide Act;
      ActStable(p, m, rest);
      assert (m + rest)[|m|..] == rest && (m + rest)[..|m|] == m;
      ParseMessages(p, ms[1..]);
      assert [m] + ms[1..] == ms;
    }
  }

  // every byte of a message but the first lacks the flag bit
  predicate FlagFirst(m: seq<byte>) {
    m != [] && FlagBit(m[0]) && forall i | 1 <= i < |m| :: !FlagBit(m[i])
  }

  // Self-synchronisation of vicon and manchester: a reader that starts in the middle of a
  // message loses the rest of that message and frames every later one.
  lemma {:induction false} Resync(p: Protocol, t: seq<byte>, ms: seq<seq<byte>>)
    requires p.Vicon? || p.Manchester?
    requires (forall b <- t :: !FlagBit(b)) && forall m <- ms :: Message(p, m)
    ensures Parse(p, t + Flatten(ms)).0 == ms
    ensures ms != [] ==> Parse(p, t + Flatten(ms)).1 == []
    decreases |t|
  {
    if t == [] {
      assert t + Flatten(ms) == Flatten(ms);
      ParseMessages(p, ms);
    } else {
      var s := t + Flatten(ms);
      assert s[1..] == t[1..] + Flatten(ms);
      if ms != [] { FlattenLong(p, ms); }
      Resync(p, t[1..], ms);
    }
  }

  lemma FlattenLong(p: Protocol, ms: seq<seq<byte>>)
    requires ms != [] && forall m <- ms :: Message(p, m)
    ensures |Flatten(ms)| >= Least(p)
  {
    assert Message(p, ms[0]);
  }

  // --- chunks ---

  // the leading bytes that no pelco message can start with are taken off
  function Strip(p: Protocol, s: seq<byte>): (r: seq<byte>)
    ensures |r| <= |s|
  {
    if s == [] || Starts(p, s[0]) then s else Strip(p, s[1..])
  }

  // What a reader keeps in its buffer agrees with what the stream leaves over: exactly,
  // but for leading garbage that a pelco reader drops only when more bytes have come.
  predicate Agrees(p: Protocol, pending: seq<byte>, rest: seq<byte>) {
    if p.PelcoD? || p.PelcoP? then Strip(p, pending) == rest else pending == rest
  }

  lemma {:induction false} StripParse(p: Protocol, s: seq<byte>, c: seq<byte>)
    requires p.PelcoD? || p.PelcoP?
    ensures Parse(p, s + c) == Parse(p, Strip(p, s) + c)
  {
    if s != [] && !Starts(p, s[0]) {
      assert (s + c)[1..] == s[1..] + c;
      StripParse(p, s[1..], c);
    }
  }

  // Whatever the reader still holds, it finds the same messages in the bytes to come as
  // the framing of the whole stream does.
  lemma AgreesMore(p: Protocol, pending: seq<byte>, s: seq<byte>, c: seq<byte>)
    requires Agrees(p, pending, Parse(p, s).1)
    ensures var (q, r) := (Parse(p, s + c), Parse(p, pending + c)); q.0 == Parse(p, s).0 + r.0 && q.1 == r.1
  {
    ParseMore(p, s, c);
    if p.PelcoD? || p.PelcoP? { StripParse(p, pending, c); }
  }

  // --- what the messages look like, byte by byte ---

  // the size that the second byte of a vicon message calls for
  function SizeFor(b: byte): nat { if !Has(b, 16) then 2 else if !Has(b, 64) then 6 else 10 }

  // Start and end bytes, sizes and checksums in plain numbers: pelco_d has the sum of five
  // bytes, pelco_p the exclusive or of seven.
  predicate Shape(p: Protocol, m: seq<byte>) {
    match p
    case PelcoD => |m| == 7 && m[0] == 0xFF && m[6] == (m[1] as int + m[2] + m[3] + m[4] + m[5]) % 256
    case PelcoP => |m| == 8 && m[0] == 0xA0 && m[6] == 0xAF && XorIs(m)
    case Vicon => |m| >= 2 && m[0] >= 128 && |m| == SizeFor(m[1])
    case Manchester => |m| == 3 && m[0] >= 128
  }

  predicate XorIs(m: seq<byte>)
    requires |m| == 8
  {
    Bits(m[7]) == XorAll(m[..7])
  }

  function Bits(b: byte): bv8 { b as bv8 }

  // the exclusive or of bytes
  function XorAll(m: seq<byte>): bv8 {
    if m == [] then 0 else XorAll(m[..|m| - 1]) ^ Bits(m[|m| - 1])
  }

  lemma SumStep(a: int, b: byte)
    ensures Plus(a % 256, b) == (a + b) % 256
  {
  }

  lemma SumIs(m: seq<byte>)
    requires |m| >= 7
    ensures SumD(m) == (m[1] as int + m[2] + m[3] + m[4] + m[5]) % 256
  {
    hide Plus;
    var a, b, c, d: int := m[1], m[1] as int + m[2], m[1] as int + m[2] + m[3], m[1] as int + m[2] + m[3] + m[4];
    SumStep(0, m[1]);
    SumStep(a, m[2]);
    SumStep(b, m[3]);
    SumStep(c, m[4]);
    SumStep(d, m[5]);
    assert a % 256 == a;
  }

  lemma XorStep(a: byte, b: byte)
    ensures Bits(Xor(a, b)) == Bits(a) ^ Bits(b)
  {
  }

  // the checksum loop with one more byte
  lemma XorMore(a: byte, m: seq<byte>, k: nat)
    requires k < |m| && Bits(a) == XorAll(m[..k])
    ensures Bits(Xor(a, m[k])) == XorAll(m[..k + 1])
  {
    hide Bits, Xor;
    XorStep(a, m[k]);
    assert m[..k + 1][..k] == m[..k];
  }

  // the bits of a byte, counted up to
  lemma {:induction false} Counted(a: nat) returns (x: bv8)
    requires a < 256
    ensures x as int == a
  {
    if a == 0 {
      x := 0;
    } else {
      x := Counted(a - 1);
      Increment(x);
      x := x + 1;
    }
  }

  lemma Increment(x: bv8)
    requires x != 255
    ensures (x + 1) as int == x as int + 1
  {
  }

  lemma BitsBack(x: bv8)
    ensures (x as int) as bv8 == x
  {
  }

  lemma BitsRound(a: byte)
    ensures Bits(a) as int == a
  {
    var x := Counted(a);
    BitsBack(x);
  }

  lemma SameByte(a: byte, b: byte)
    ensures Bits(a) == Bits(b) <==> a == b
  {
    hide Bits;
    BitsRound(a);
    BitsRound(b);
  }

  lemma XorPIs(m: seq<byte>)
    requires |m| == 8
    ensures XorP(m) == m[7] <==> XorIs(m)
  {
    NoXor(m);
    hide Xor, Bits, XorAll;
    var a := Xor(0, m[0]);
    var b := Xor(a, m[1]);
    var c := Xor(b, m[2]);
    var d := Xor(c, m[3]);
    var e := Xor(d, m[4]);
    var f := Xor(e, m[5]);
    XorMore(0, m, 0);
    XorMore(a, m, 1);
    XorMore(b, m, 2);
    XorMore(c, m, 3);
    XorMore(d, m, 4);
    XorMore(e, m, 5);
    XorMore(f, m, 6);
    SameByte(XorP(m), m[7]);
  }

  lemma NoXor(m: seq<byte>)
    ensures Bits(0) == XorAll(m[..0])
  {
  }

  lemma FlagIs(b: byte)
    ensures FlagBit(b) == (b >= 128)
  {
    hide Bit;
    BitsAre(b);
  }

  lemma SizeIs(s: seq<byte>)
    requires |s| >= 2
    ensures ViconSize(s) == SizeFor(s[1])
  {
    hide Bit, Has;
    BitsAre(s[1]);
  }

  // Exactly the messages of that shape are taken.
  lemma TakenExactly(p: Protocol, s: seq<byte>, n: nat)
    ensures Act(p, s) == Take(n) <==> n <= |s| && Shape(p, s[..n])
  {
    hide *;
    match p
    case PelcoD => TakenD(s, n);
    case PelcoP => TakenP(s, n);
    case Vicon => TakenV(s, n);
    case Manchester => TakenM(s, n);
  }

  lemma TakenD(s: seq<byte>, n: nat)
    ensures Act(PelcoD, s) == Take(n) <==> n <= |s| && Shape(PelcoD, s[..n])
  {
    hide SumD;
    if |s| >= 7 { SumIs(s); }
    if n <= |s| { assert |s[..n]| == n; }
  }

  lemma TakenP(s: seq<byte>, n: nat)
    ensures Act(PelcoP, s) == Take(n) <==> n <= |s| && Shape(PelcoP, s[..n])
  {
    hide XorP, XorIs;
    if |s| >= 8 {
      XorPIs(s[..8]);
      XorStable(s[..8], s[8..]);
      assert s[..8] + s[8..] == s;
    }
    if n <= |s| { assert |s[..n]| == n; }
  }

  lemma TakenV(s: seq<byte>, n: nat)
    ensures Act(Vicon, s) == Take(n) <==> n <= |s| && Shape(Vicon, s[..n])
  {
    hide ViconSize, SizeFor, FlagBit, Has;
    if s != [] { FlagIs(s[0]); }
    if |s| >= 2 { SizeIs(s); SizeLeast(s[1]); }
    if n <= |s| { assert |s[..n]| == n; }
  }

  lemma SizeLeast(b: byte)
    ensures SizeFor(b) >= 2
  {
  }

  lemma TakenM(s: seq<byte>, n: nat)
    ensures Act(Manchester, s) == Take(n) <==> n <= |s| && Shape(Manchester, s[..n])
  {
    hide FlagBit;
    if s != [] { FlagIs(s[0]); }
    if n <= |s| { assert |s[..n]| == n; }
  }

  // A byte is dropped exactly when it cannot start a message, which vicon and manchester
  // look at when two and three bytes are there, or starts a pelco message that is none.
  lemma DroppedExactly(p: Protocol, s: seq<byte>)
    ensures p.PelcoD? ==> (Act(p, s) == Drop <==> s != [] && (s[0] != 0xFF || (|s| >= 7 && !Shape(p, s[..7]))))
    ensures p.PelcoP? ==> (Act(p, s) == Drop <==> s != [] && (s[0] != 0xA0 || (|s| >= 8 && !Shape(p, s[..8]))))
    ensures p.Vicon? ==> (Act(p, s) == Drop <==> |s| >= 2 && s[0] < 128)
    ensures p.Manchester? ==> (Act(p, s) == Drop <==> |s| >= 3 && s[0] < 128)
  {
    hide Shape, Checked, ViconSize, FlagBit;
    if s != [] { FlagIs(s[0]); }
    if p.PelcoD? { TakenExactly(p, s, 7); }
    if p.PelcoP? { TakenExactly(p, s, 8); }
  }

  lemma MessageExactly(p: Protocol, m: seq<byte>)
    ensures Message(p, m) <==> Shape(p, m)
  {
    hide Act, Shape;
    TakenExactly(p, m, |m|);
    assert m[..|m|] == m;
  }

  // Whatever is received, nothing but messages of that shape is framed.
  lemma {:induction false} FramedShapes(p: Protocol, s: seq<byte>)
    ensures forall m <- Parse(p, s).0 :: Shape(p, m)
    decreases |s|
  {
    hide Act, Shape;
    match Act(p, s)
    case Wait =>
    case Drop => FramedShapes(p, s[1..]);
    case Take(n) =>
      TakenExactly(p, s, n);
      FramedShapes(p, s[n..]);
  }

  // Bytes of that shape at the front are framed, whatever follows them.
  lemma FrontFramed(p: Protocol, m: seq<byte>, c: seq<byte>)
    requires Shape(p, m)
    ensures Parse(p, m + c) == ([m] + Parse(p, c).0, Parse(p, c).1)
  {
    hide Act, Shape, Parse;
    TakenExactly(p, m + c, |m|);
    assert (m + c)[..|m|] == m && (m + c)[|m|..] == c;
    ParseTake(p, m + c, |m|);
  }

  lemma XorOther(a: bv8, b: bv8, c: bv8)
    requires b != c
    ensures a ^ b != a ^ c && b ^ a != c ^ a
  {
  }

  lemma {:induction false} XorAllChanged(m: seq<byte>, k: nat, b: byte)
    requires k < |m| && b != m[k]
    ensures XorAll(m[k := b]) != XorAll(m)
  {
    hide Bits;
    var l, t := |m| - 1, m[k := b];
    if k == l {
      assert t[..l] == m[..l];
      SameByte(m[k], b);
      XorOther(XorAll(m[..l]), Bits(m[l]), Bits(b));
    } else {
      assert t[..l] == m[..l][k := b];
      XorAllChanged(m[..l], k, b);
      XorOther(Bits(m[l]), XorAll(m[..l]), XorAll(t[..l]));
    }
  }

  lemma XorChanged(m: seq<byte>, k: nat, b: byte)
    requires |m| == 8 && k < 8 && XorIs(m) && b != m[k]
    ensures !XorIs(m[k := b])
  {
    hide Bits, XorAll;
    SameByte(m[k], b);
    if k == 7 {
      assert m[k := b][..7] == m[..7];
    } else {
      assert m[k := b][..7] == m[..7][k := b];
      XorAllChanged(m[..7], k, b);
    }
  }

  // One changed byte, wherever it is, and a pelco message is none any more: the reader
  // frames nothing of it.
  lemma OneByteChanged(p: Protocol, m: seq<byte>, k: nat, b: byte)
    requires p.PelcoD? || p.PelcoP?
    requires Shape(p, m) && k < |m| && b != m[k]
    ensures !Shape(p, m[k := b]) && Parse(p, m[k := b]).0 == []
  {
    hide Act, Parse, XorIs, Shape;
    ChangedShape(p, m, k, b);
    var t := m[k := b];
    MessageSizes(p, t);
    FramedShapes(p, t);
    ShortFrames(p, t);
  }

  lemma ChangedShape(p: Protocol, m: seq<byte>, k: nat, b: byte)
    requires p.PelcoD? || p.PelcoP?
    requires Shape(p, m) && k < |m| && b != m[k]
    ensures |m| == Least(p) && !Shape(p, m[k := b])
  {
    hide XorIs;
    if p.PelcoP? { XorChanged(m, k, b); }
  }

  // of as many bytes as one message has, all or nothing is framed
  lemma {:induction false} ShortFrames(p: Protocol, s: seq<byte>)
    requires (p.PelcoD? || p.PelcoP?) && |s| <= Least(p) && !(|s| == Least(p) && Shape(p, s))
    ensures Parse(p, s).0 == []
    decreases |s|
  {
    hide Shape, Starts, Checked;
    if |s| == Least(p) {
      TakenExactly(p, s, |s|);
      assert s[..|s|] == s;
    }
    if Act(p, s) == Drop { ShortFrames(p, s[1..]); }
  }
}
