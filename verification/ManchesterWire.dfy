/** The manchester messages in plain numbers (src/manchester.c): which bytes a packet is written
    as, and what any three bytes are read as. */
module ManchesterWire {
  import opened Bytes
  import opened Ccpacket
  import M = ManchesterCodec

  // --- writing ---

  // the level that a speed takes: steps of 256, and 7 from 1793 on
  function LevelAt(speed: int): nat {
    if speed <= 0 then 0 else if speed > 1792 then 7 else (speed - 1) / 256
  }

  // what a message adds to the address in its second and third byte: twice the command word,
  // and 2 for a movement with a speed
  datatype Word = Word(middle: nat, low: nat)

  function When(c: bool, w: Word): seq<Word> { if c then [w] else [] }

  // a movement: full speed has a word of its own
  function Move(speed: int, first: nat, full: nat): Word {
    if LevelAt(speed) == 7 then Word(full, 0) else Word(first + 2 * LevelAt(speed), 2)
  }

  // all that a packet is written as, in order; the wiper only without a camera command
  function Words(p: Packet): seq<Word> {
    MoveWords(p) + LensWords(p) + (AuxWords(p) + PresetWords(p))
  }

  function MoveWords(p: Packet): seq<Word> {
    (When(p.GetPan() == PanLeft && p.pan != 0, Move(p.pan, 32, 14))
     + When(p.GetPan() == PanRight && p.pan != 0, Move(p.pan, 48, 18)))
    + (When(p.GetTilt() == TiltDown && p.tilt != 0, Move(p.tilt, 0, 0))
       + When(p.GetTilt() == TiltUp && p.tilt != 0, Move(p.tilt, 16, 16)))
  }

  function LensWords(p: Packet): seq<Word> {
    (When(p.GetZoom() == ZoomIn, Word(6, 0)) + When(p.GetZoom() == ZoomOut, Word(12, 0)))
    + (When(p.GetFocus() == FocusNear, Word(10, 0)) + When(p.GetFocus() == FocusFar, Word(4, 0)))
    + (When(p.GetIris() == IrisClose, Word(8, 0)) + When(p.GetIris() == IrisOpen, Word(2, 0)))
  }

  function AuxWords(p: Packet): seq<Word> {
    (When(p.GetCamera() == CameraOff, Word(20, 0)) + When(p.GetCamera() == CameraOn, Word(22, 0)))
    + When(p.GetCamera() == Off && p.GetWiper() == WiperOn, Word(30, 0))
  }

  // presets 1 to 8 only
  function PresetWords(p: Packet): seq<Word> {
    var n: nat := if 1 <= p.preset <= 8 then p.preset else 0;
    When(n > 0 && p.GetPreset() == Recall, Word(30 + 2 * n, 0))
    + When(n > 0 && p.GetPreset() == Store, Word(46 + 2 * n, 0))
  }

  // the address less one goes in pieces of four, one and five bits
  predicate MessageBytes(m: seq<byte>, receiver: int, w: Word) {
    var r := receiver - 1;
    m == [128 + r / 64, r / 32 % 2 + w.middle, r % 32 * 4 + w.low]
  }

  function WordOf(x: M.Content): Word { Word(2 * x.extra + 16 * x.cmnd, if x.pt then 2 else 0) }

  function WordsOf(xs: seq<M.Content>): (ws: seq<Word>)
    ensures |ws| == |xs| && forall i | 0 <= i < |xs| :: ws[i] == WordOf(xs[i])
  {
    if xs == [] then [] else [WordOf(xs[0])] + WordsOf(xs[1..])
  }

  lemma {:induction false} EncodedAre(receiver: int, xs: seq<M.Content>)
    requires 1 <= receiver <= 1024 && forall x <- xs :: M.Fit(x)
    ensures var ms := M.Encoded(receiver, xs);
      |ms| == |xs| && forall i | 0 <= i < |ms| :: MessageBytes(ms[i], receiver, WordOf(xs[i]))
  {
    if xs != [] {
      EncodedIs(receiver, xs[0]);
      hide MessageBytes, WordOf, M.Fit, M.Encode;
      EncodedAre(receiver, xs[1..]);
    }
  }

  lemma EncodedIs(receiver: int, x: M.Content)
    requires 1 <= receiver <= 1024 && M.Fit(x)
    ensures MessageBytes(M.Encode(receiver, x), receiver, WordOf(x))
  {
  }

  lemma LevelIs(speed: int)
    ensures M.Level(speed) == LevelAt(speed)
  {
    LevelFromIs(0, speed);
  }

  lemma {:induction false} LevelFromIs(s: nat, speed: int)
    requires s <= 7 && LevelAt(speed) >= s
    ensures M.LevelFrom(s, speed) == LevelAt(speed)
    decreases 7 - s
  {
    if s < 7 && M.Speed(s) < speed { LevelFromIs(s + 1, speed); }
  }

  lemma WordsSplit(xs: seq<M.Content>, ys: seq<M.Content>)
    ensures WordsOf(xs + ys) == WordsOf(xs) + WordsOf(ys)
  {
    hide WordOf;
  }

  lemma WordsWhen(c: bool, x: M.Content)
    ensures WordsOf(M.If(c, x)) == When(c, WordOf(x))
  {
  }

  lemma PanWord(p: Packet)
    ensures WordOf(M.PanContent(p)) == if p.GetPan() == PanLeft then Move(p.pan, 32, 14) else Move(p.pan, 48, 18)
  {
    hide ModeOf, LevelAt, M.Level;
    LevelIs(p.pan);
  }

  lemma TiltWord(p: Packet)
    ensures WordOf(M.TiltContent(p)) == if p.GetTilt() == TiltDown then Move(p.tilt, 0, 0) else Move(p.tilt, 16, 16)
  {
    hide ModeOf, LevelAt, M.Level;
    LevelIs(p.tilt);
  }

  lemma PanIs(p: Packet)
    ensures WordsOf(M.If(M.Pans(p), M.PanContent(p)))
      == When(p.GetPan() == PanLeft && p.pan != 0, Move(p.pan, 32, 14))
        + When(p.GetPan() == PanRight && p.pan != 0, Move(p.pan, 48, 18))
  {
    hide ModeOf, WordsOf, WordOf, Move, M.PanContent;
    PanWord(p);
    WordsWhen(M.Pans(p), M.PanContent(p));
  }

  lemma TiltIs(p: Packet)
    ensures WordsOf(M.If(M.Tilts(p), M.TiltContent(p)))
      == When(p.GetTilt() == TiltDown && p.tilt != 0, Move(p.tilt, 0, 0))
        + When(p.GetTilt() == TiltUp && p.tilt != 0, Move(p.tilt, 16, 16))
  {
    hide ModeOf, WordsOf, WordOf, Move, M.TiltContent;
    TiltWord(p);
    WordsWhen(M.Tilts(p), M.TiltContent(p));
  }

  lemma MovesAre(p: Packet)
    ensures WordsOf(M.MoveContents(p)) == MoveWords(p)
  {
    hide M.If, M.Pans, M.Tilts, M.PanContent, M.TiltContent, When, Move, ModeOf, WordsOf, Packet.GetPan, Packet.GetTilt;
    PanIs(p);
    TiltIs(p);
    WordsSplit(M.If(M.Pans(p), M.PanContent(p)), M.If(M.Tilts(p), M.TiltContent(p)));
  }

  lemma ZoomIs(p: Packet)
    ensures WordsOf(M.ZoomContents(p)) == When(p.GetZoom() == ZoomIn, Word(6, 0)) + When(p.GetZoom() == ZoomOut,
      Word(12, 0))
  {
    hide ModeOf;
    ModeFits(p.flags, ForZoom);
  }

  lemma FocusIs(p: Packet)
    ensures WordsOf(M.FocusContents(p)) == When(p.GetFocus() == FocusNear, Word(10, 0))
      + When(p.GetFocus() == FocusFar, Word(4, 0))
  {
    hide ModeOf;
  }

  lemma IrisIs(p: Packet)
    ensures WordsOf(M.IrisContents(p)) == When(p.GetIris() == IrisClose, Word(8, 0))
      + When(p.GetIris() == IrisOpen, Word(2, 0))
  {
    hide ModeOf;
  }

  lemma LensIs(p: Packet)
    ensures WordsOf(M.LensContents(p)) == LensWords(p)
  {
    hide M.ZoomContents, M.FocusContents, M.IrisContents, When, ModeOf, WordsOf, Packet.GetZoom, Packet.GetFocus,
         Packet.GetIris;
    ZoomIs(p);
    FocusIs(p);
    IrisIs(p);
    WordsSplit(M.ZoomContents(p), M.FocusContents(p));
    WordsSplit(M.ZoomContents(p) + M.FocusContents(p), M.IrisContents(p));
  }

  lemma CameraWord(p: Packet)
    ensures When(p.GetCamera() != Off, WordOf(M.Content(false, 1, if p.GetCamera() == CameraOff then 2 else 3)))
      == When(p.GetCamera() == CameraOff, Word(20, 0)) + When(p.GetCamera() == CameraOn, Word(22, 0))
    ensures WordOf(M.Content(false, 1, 7)) == Word(30, 0)
  {
    hide ModeOf;
    ModeFits(p.flags, ForCamera);
  }

  lemma AuxIs(p: Packet)
    ensures WordsOf(M.AuxContents(p)) == AuxWords(p)
  {
    hide ModeOf, WordsOf, WordOf, When;
    CameraWord(p);
    var (x, y) := (M.Content(false, 1, if p.GetCamera() == CameraOff then 2 else 3), M.Content(false, 1, 7));
    var (c, w) := (p.GetCamera() != Off, p.GetCamera() == Off && p.GetWiper() == WiperOn);
    WordsWhen(c, x);
    WordsWhen(w, y);
    WordsSplit(M.If(c, x), M.If(w, y));
  }

  lemma PresetIs(p: Packet)
    ensures WordsOf(M.PresetContents(p)) == PresetWords(p)
  {
    hide ModeOf, WordsOf;
    WordsWhen(M.Presets(p), M.Content(false, if p.GetPreset() == Recall then 2 else 3,
      if M.Presets(p) then p.preset - 1 else 0));
  }

  lemma WordsAre(p: Packet)
    ensures WordsOf(M.Contents(p)) == Words(p)
  {
    hide M.MoveContents, M.LensContents, M.AuxContents, M.PresetContents, MoveWords, LensWords, AuxWords, PresetWords,
         WordsOf;
    MovesAre(p);
    LensIs(p);
    AuxIs(p);
    PresetIs(p);
    WordsSplit(M.MoveContents(p), M.LensContents(p));
    WordsSplit(M.AuxContents(p), M.PresetContents(p));
    WordsSplit(M.MoveContents(p) + M.LensContents(p), M.AuxContents(p) + M.PresetContents(p));
  }

  // For every packet: the bytes that manchester writes.
  lemma MessagesWritten(p: Packet)
    requires 1 <= p.receiver <= 1024
    ensures var ms := M.DoWrite(p);
      |ms| == |Words(p)| && forall i | 0 <= i < |ms| :: MessageBytes(ms[i], p.receiver, Words(p)[i])
  {
    hide M.Contents, Words, MessageBytes, M.Encoded, M.Fit, WordOf;
    M.ContentsFit(p);
    WordsAre(p);
    EncodedAre(p.receiver, M.Contents(p));
  }

  // --- reading ---

  function AddressIn(a: nat, b: nat, c: nat): nat { 1 + a % 16 * 64 + b % 2 * 32 + c / 4 % 32 }

  // what any three bytes change in the packet that the reader holds: by the bit of 2 in the
  // last byte a movement at one of eight speeds, otherwise one of 32 words
  lemma MessageRead(m: seq<byte>, p: Packet)
    requires |m| == 3
    ensures var (q, word) := (p.SetReceiver(AddressIn(m[0], m[1], m[2])), m[1] / 2 % 32);
      M.Absorb(m, p) == if Has(m[2], 2) then MoveRead(word, q) else WordRead(word, q)
  {
    hide Packet.SetPan, Packet.SetTilt, Packet.SetIris, Packet.SetFocus, Packet.SetZoom, Packet.SetCamera,
         Packet.SetWiper, Packet.SetPreset;
    WordParts(m[1]);
  }

  lemma WordParts(b: byte)
    ensures b / 2 % 32 == b / 16 % 4 * 8 + b / 2 % 8
  {
    var h := b / 2;
    assert h / 8 == b / 16;
    assert h == h / 8 * 8 + h % 8;
    FourEights(h / 8, h % 8);
  }

  lemma FourEights(a: nat, b: nat)
    requires b < 8
    ensures (a * 8 + b) % 32 == a % 4 * 8 + b
  {
    assert a * 8 + b == a / 4 * 32 + (a % 4 * 8 + b);
  }

  function MoveRead(word: nat, q: Packet): Packet {
    var speed := if word % 8 == 7 then 2047 else 256 + 256 * (word % 8);
    match word / 8
    case 0 => q.SetTilt(TiltDown, speed)
    case 1 => q.SetTilt(TiltUp, speed)
    case 2 => q.SetPan(PanLeft, speed)
    case _ => q.SetPan(PanRight, speed)
  }

  function WordRead(word: nat, q: Packet): Packet {
    match word
    case 0 => q.SetTilt(TiltDown, 2047)
    case 1 => q.SetIris(IrisOpen)
    case 2 => q.SetFocus(FocusFar)
    case 3 => q.SetZoom(ZoomIn)
    case 4 => q.SetIris(IrisClose)
    case 5 => q.SetFocus(FocusNear)
    case 6 => q.SetZoom(ZoomOut)
    case 7 => q.SetPan(PanLeft, 2047)
    case 8 => q.SetTilt(TiltUp, 2047)
    case 9 => q.SetPan(PanRight, 2047)
    case 10 => q.SetCamera(CameraOff)
    case 11 => q.SetCamera(CameraOn)
    case 15 => q.SetWiper(WiperOn)
    case _ =>
      if word >= 24 then q.SetPreset(Store, word - 23) else if word >= 16 then q.SetPreset(Recall, word - 15) else q
  }
}
