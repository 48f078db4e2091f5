/** The vicon reader on its packet (src/vicon.c). */
module ViconReader {
  import opened Bytes
  import opened Buffers
  import opened Framing
  import opened Readers
  import opened Ccpacket
  import opened Codec
  import opened ViconCodec

  // --- decoding in place ---

  method TogglesInto(t: Toggles, pkt: PacketBuffer)
    modifies pkt
    ensures pkt.View() == DecodeToggles(t, old(pkt.View()))
  {
    hide With;
    if t.ack { pkt.SetAck(AckAlarm); }
    if t.iris { pkt.SetIris(IrisAuto); }
    if t.pan { pkt.SetPan(PanAuto, 0); }
    if t.lens { pkt.SetLens(LensSpeed); }
  }

  // decode_aux and decode_preset
  method SwitchesInto(m: seq<byte>, pkt: PacketBuffer)
    requires |m| >= 6
    modifies pkt
    ensures pkt.View() == DecodePreset(PresetBit(m), m[5] % 16, DecodeWiper(Bit(m[4], 1), old(pkt.View())))
  {
    hide With, Bit, Packet.SetPreset;
    if Bit(m[4], 1) { pkt.SetWiper(WiperOn); }
    if Bit(m[5], 5) {
      pkt.SetPreset(Recall, m[5] % 16);
    } else if Bit(m[5], 6) {
      pkt.SetPreset(Store, m[5] % 16);
    }
  }

  // the part that vicon_decode_command and vicon_decode_extended share
  method CommonInto(m: seq<byte>, pkt: PacketBuffer)
    requires |m| >= 6
    modifies pkt
    ensures pkt.View() == DecodeCommon(m, old(pkt.View()))
  {
    hide Bit, MotionBits, ToggleBits, PresetBit, DecodeMotion, DecodeToggles, DecodeWiper, DecodePreset;
    pkt.SetReceiver(m[0] % 16 * 16 + m[1] % 16);
    MotionInto(MotionBits(m), pkt);
    TogglesInto(ToggleBits(m), pkt);
    SwitchesInto(m, pkt);
  }

  // decode_ex_preset, decode_ex_speed; a status is ignored
  method ExtendedInto(m: seq<byte>, pkt: PacketBuffer)
    requires |m| == 10
    modifies pkt
    ensures pkt.View() == DecodeExtended(m, old(pkt.View()))
  {
    hide With, Bit, Packet.SetPreset;
    if Bit(m[6], 4) {
      if !Bit(m[6], 1) {
        pkt.SetPreset(if Bit(m[6], 0) then Store else Recall, m[7] % 128);
        pkt.SetPanSpeed(m[8] % 128);
        pkt.SetTiltSpeed(m[9] % 128);
      }
    } else {
      pkt.SetPanSpeed(ElevenBits(m[6], m[7]));
      pkt.SetTiltSpeed(ElevenBits(m[8], m[9]));
    }
  }

  method DecodeMessage(m: seq<byte>, pkt: PacketBuffer)
    requires |m| == 6 || |m| == 10
    modifies pkt
    ensures pkt.View() == Decode(m, old(pkt.View()))
  {
    hide DecodeCommon, DecodeExtended;
    CommonInto(m, pkt);
    if |m| == 10 { ExtendedInto(m, pkt); }
  }

  // --- the messages of a stream ---

  predicate Sized(m: seq<byte>) { |m| == 2 || |m| == 6 || |m| == 10 }

  lemma {:induction false} MessagesSized(s: seq<byte>)
    ensures forall m <- Parse(Protocol.Vicon, s).0 :: Sized(m)
    decreases |s|
  {
    if Act(Protocol.Vicon, s) != Wait {
      MessagesSized(s[if Act(Protocol.Vicon, s).Take? then Act(Protocol.Vicon, s).n else 1..]);
    }
  }

  lemma PresetExpire(m: Mode, number: int, p: Packet)
    ensures p.SetPreset(m, number).expire == p.expire
  {
    hide With;
  }

  lemma TogglesExpire(t: Toggles, p: Packet)
    ensures DecodeToggles(t, p).expire == p.expire
  {
    hide With;
  }

  lemma DecodeExpire(m: seq<byte>, p: Packet)
    requires |m| == 6 || |m| == 10
    ensures Decode(m, p).expire == p.expire
  {
    hide With, Bit, DecodeMotion, DecodeToggles, MotionBits, ToggleBits, PresetBit, Packet.SetPreset;
    var a := p.SetReceiver(m[0] % 16 * 16 + m[1] % 16);
    MotionExpire(MotionBits(m), a);
    TogglesExpire(ToggleBits(m), DecodeMotion(MotionBits(m), a));
    var b := DecodeWiper(Bit(m[4], 1), DecodeToggles(ToggleBits(m), DecodeMotion(MotionBits(m), a)));
    PresetExpire(PresetBit(m), m[5] % 16, b);
    if |m| == 10 { PresetExpire(if Bit(m[6], 0) then Store else Recall, m[7] % 128, DecodeCommon(m, p)); }
  }

  // the receiver held before makes no difference
  lemma DecodeAnew(m: seq<byte>, p: Packet, receiver: int)
    requires |m| == 6 || |m| == 10
    ensures Decode(m, p.SetReceiver(receiver)) == Decode(m, p)
  {
    hide DecodeMotion, DecodeToggles, DecodeWiper, DecodePreset, Bit, MotionBits, ToggleBits, PresetBit, DecodeExtended;
    var to := m[0] % 16 * 16 + m[1] % 16;
    assert p.SetReceiver(receiver).SetReceiver(to) == p.SetReceiver(to);
  }
}
