/**
 * The agent's VWTP 2.0 transport (`VWTP2`): sending a KWP2000 message as
 * segmented frames, acknowledging a last packet, and handling one inbound
 * frame addressed to this ECU.
 *
 * The peer's CAN id is the agent's global `dest_vwtp_can_id`; it is passed to
 * each method here as `dest`.
 */
module Vwtp {
  import opened Bytes
  import opened Wrappers
  import opened Can
  import opened Kwp
  import opened Segmentation

  /** This ECU's VWTP CAN id. */
  const MyVwtpCanId := 0x740
  /** Where the KWP payload starts in a frame numbered 0. */
  const PayloadIndex := 3
  /** High nibble of an acknowledgement frame. */
  const AckOpcode: nibble := 0xb

  /** A run of frame bodies, each sent on arbitration id dest. */
  function Addressed(dest: nat, frames: seq<seq<byte>>): (r: seq<CanFrame>)
    ensures |r| == |frames|
  {
    if frames == [] then [] else [CanFrame(dest, frames[0])] + Addressed(dest, frames[1..])
  }

  lemma AddressedCons(dest: nat, frame: seq<byte>, rest: seq<seq<byte>>)
    ensures Addressed(dest, [frame] + rest) == [CanFrame(dest, frame)] + Addressed(dest, rest)
  {
    assert ([frame] + rest)[1..] == rest;
  }

  /** Frame k of an addressed run is frame body k, on arbitration id dest. */
  lemma {:induction false} AddressedAt(dest: nat, frames: seq<seq<byte>>, k: nat)
    requires k < |frames|
    ensures Addressed(dest, frames)[k] == CanFrame(dest, frames[k])
  {
    if k > 0 {
      AddressedAt(dest, frames[1..], k - 1);
    }
  }

  /** Addressing a run with one more frame body sends one more frame at the end. */
  lemma {:induction false} AddressedSnoc(dest: nat, frames: seq<seq<byte>>, frame: seq<byte>)
    ensures Addressed(dest, frames + [frame]) == Addressed(dest, frames) + [CanFrame(dest, frame)]
  {
    if frames != [] {
      assert (frames + [frame])[1..] == frames[1..] + [frame];
      AddressedSnoc(dest, frames[1..], frame);
    }
  }

  /** The acknowledgement byte for the next expected sequence number: `0xb0 + next`. */
  function AckByte(next: nibble): (b: byte)
    ensures HighNibble(b) == AckOpcode && LowNibble(b) == next
  {
    0xb0 + next
  }

  /**
   * What `handle_message` needs of a frame before it indexes it: a first byte
   * and, for a frame numbered 0, a length byte and two KWP bytes within that length.
   */
  predicate Readable(data: seq<byte>)
  {
    |data| >= 1 && (LowNibble(data[0]) == 0 ==> |data| >= 5 && data[2] >= 2)
  }

  /** The acknowledgement a frame calls for: one only when its opcode is "last packet". */
  function AckFor(data: seq<byte>): (r: Option<seq<byte>>)
    requires |data| >= 1
    ensures r.Some? <==> HighNibble(data[0]) == OpLastPacketAck
    ensures r.Some? ==> |r.value| == 1 && HighNibble(r.value[0]) == AckOpcode
                        && LowNibble(r.value[0]) == (LowNibble(data[0]) + 1) % 16
  {
    if HighNibble(data[0]) == OpLastPacketAck then Some([AckByte((LowNibble(data[0]) + 1) % 16)])
    else None
  }

  /**
   * The KWP (opcode, parameter) pair read from a frame: only a frame numbered 0
   * is read, whatever its opcode; the pair is the first two bytes of its payload.
   */
  function RequestOf(data: seq<byte>): (r: Option<(byte, byte)>)
    requires Readable(data)
    ensures r.Some? <==> LowNibble(data[0]) == 0
    ensures r.Some? ==> r.value == (data[3], data[4])
  {
    if LowNibble(data[0]) == 0 then
      var payloadLen := data[2];
      var kwpPayload := data[PayloadIndex..Min(PayloadIndex + payloadLen, |data|)];
      Some((kwpPayload[0], kwpPayload[1]))
    else None
  }

  /** The one request the agent answers: read ECU identification, item number. */
  predicate RequestsItemNumber(data: seq<byte>)
    requires Readable(data)
  {
    RequestOf(data) == Some((ReadEcuIdentification, ItemNumberParam))
  }

  /** The acknowledgement frames `handle_message` sends to dest for a frame. */
  function AckFrames(dest: nat, data: seq<byte>): seq<CanFrame>
    requires |data| >= 1
  {
    match AckFor(data)
    case Some(ack) => [CanFrame(dest, ack)]
    case None => []
  }

  /** The frames answering an item-number request for identity id when the transport's counter is s. */
  function ItemNumberFrames(dest: nat, id: Identity, s: nibble): seq<CanFrame>
  {
    Addressed(dest, Segment(ItemNumberMessage(id).Bytes(), s))
  }

  /** The counter after the item-number response for identity id has been sent from counter s. */
  function ItemNumberSeq(id: Identity, s: nibble): nibble
  {
    (s + |Segment(ItemNumberMessage(id).Bytes(), s)|) % 16
  }

  /**
   * Everything `handle_message` sends to dest for a frame when the transport's
   * counter is s: the acknowledgement, if any, then the item-number response
   * if the frame requests it.
   */
  function Reply(dest: nat, id: Identity, data: seq<byte>, s: nibble): seq<CanFrame>
    requires Readable(data)
  {
    AckFrames(dest, data) + (if RequestsItemNumber(data) then ItemNumberFrames(dest, id, s) else [])
  }

  /** The transport's counter after `handle_message` has handled a frame at counter s. */
  function SeqAfter(id: Identity, data: seq<byte>, s: nibble): nibble
    requires Readable(data)
  {
    if RequestsItemNumber(data) then ItemNumberSeq(id, s) else s
  }

  /**
   * What a reply consists of: the acknowledgement comes first exactly when the
   * frame's opcode is "last packet"; after it come the response's frames, one per
   * segment, all on dest; a frame not numbered 0 gets at most the
   * acknowledgement and leaves the counter where it was.
   */
  lemma ReplyShape(dest: nat, id: Identity, data: seq<byte>, s: nibble)
    requires Readable(data)
    ensures var r := Reply(dest, id, data, s);
      var acked := HighNibble(data[0]) == OpLastPacketAck;
      var frames := if RequestsItemNumber(data) then Segment(ItemNumberMessage(id).Bytes(), s) else [];
      |r| == (if acked then 1 else 0) + |frames|
      && (acked ==> r[0] == CanFrame(dest, [AckByte((LowNibble(data[0]) + 1) % 16)]))
      && (forall k :: 0 <= k < |frames| ==> r[k + |r| - |frames|] == CanFrame(dest, frames[k]))
      && (LowNibble(data[0]) != 0 ==> |r| <= 1 && SeqAfter(id, data, s) == s)
  {
    var r := Reply(dest, id, data, s);
    var acks := AckFrames(dest, data);
    var frames := if RequestsItemNumber(data) then Segment(ItemNumberMessage(id).Bytes(), s) else [];
    assert r == acks + Addressed(dest, frames);
    forall k | 0 <= k < |frames|
      ensures r[k + |r| - |frames|] == CanFrame(dest, frames[k])
    {
      AddressedAt(dest, frames, k);
    }
  }

  /**
   * Whatever KWP message the agent sends in a single frame from counter 0, its
   * own inbound handler reads that frame back as the message's opcode and
   * parameter, and acknowledges it with 0xb1.
   */
  lemma SingleFrameUnderstood(m: KwpMessage)
    requires 2 <= |m.Bytes()| <= 5
    ensures var frames := Segment(m.Bytes(), 0);
      |frames| == 1 && Readable(frames[0])
      && RequestOf(frames[0]) == Some((m.opcode, m.param))
      && AckFor(frames[0]) == Some([0xb1])
  {
    var p := m.Bytes();
    var frames := Segment(p, 0);
    SegmentCount(p);
    SegmentFrames(p, 0);
    assert frames[0] == [Pack(OpLastPacketAck, 0), 0x00, |p|] + p;
  }

  /**
   * The item-number response from counter 0 takes 8 frames and the counter ends
   * at 8; its first frame is `[0x20, 0x00, 0x30, 0x5a, 0x9b, '8', 'P', '0']`.
   */
  lemma ItemNumberFramesFromZero(dest: nat)
    ensures var frames := ItemNumberFrames(dest, DefaultIdentity(), 0);
      |frames| == 8
      && frames[0] == CanFrame(dest, [0x20, 0x00, 0x30, 0x5a, 0x9b, 0x38, 0x50, 0x30])
  {
    var p := ItemNumberMessage(DefaultIdentity()).Bytes();
    SegmentCount(p);
    FirstFrameFromZero(p);
    ItemNumberMessageBytes();
    assert p[..5] == [0x5a, 0x9b, 0x38, 0x50, 0x30];
  }

  /**
   * One iteration of `send`'s loop: with the frames `done` sent and the counter
   * at s, sending the frame at offset keeps the loop's account of what is sent.
   */
  lemma SendStep(dest: nat, done: seq<seq<byte>>, payload: seq<byte>, offset: nat, start: nibble, s: nibble,
                 sent0: seq<CanFrame>, sent: seq<CanFrame>)
    requires offset < |payload| <= 255
    requires Segment(payload, start) == done + SegmentFrom(payload, offset, s)
    requires sent == sent0 + Addressed(dest, done)
    requires s == (start + |done|) % 16
    ensures var data := Frame(payload, offset, s);
      Segment(payload, start) == (done + [data]) + SegmentFrom(payload, NextOffset(payload, offset, s), (s + 1) % 16)
      && sent + [CanFrame(dest, data)] == sent0 + Addressed(dest, done + [data])
      && (s + 1) % 16 == (start + |done + [data]|) % 16
  {
    SegmentFromStep(done, payload, offset, s);
    AddressedSnoc(dest, done, Frame(payload, offset, s));
    AddModulo(start + |done|, 1);
  }

  class Vwtp2 {
    const bus: Bus
    /** The part number and engine text `send_item_number` reads from the agent's globals. */
    const identity: Identity
    /** The persistent 4-bit frame counter. */
    var seqNum: nibble

    constructor (bus: Bus, identity: Identity)
      ensures this.bus == bus && this.identity == identity && seqNum == 0
    {
      this.bus := bus;
      this.identity := identity;
      seqNum := 0;
    }

    /** Frames on this ECU's VWTP id are the transport's. */
    function CanHandleMessage(message: CanFrame): (r: bool)
      ensures r <==> message.id == MyVwtpCanId
    {
      message.id == MyVwtpCanId
    }

    /**
     * Sends message to dest split into frames; the frames are Segment of its
     * bytes from the current counter, and the counter advances by one per frame.
     */
    method Send(message: KwpMessage, dest: nat)
      requires |message.Bytes()| <= 255
      modifies this, bus
      ensures bus.sent == old(bus.sent) + Addressed(dest, Segment(message.Bytes(), old(seqNum)))
      ensures seqNum == (old(seqNum) + |Segment(message.Bytes(), old(seqNum))|) % 16
    {
      var payloadStartIndex := 0;
      var payload: seq<byte> := message.Bytes();
      var messageLength := |payload|;
      var remainingLength := messageLength;
      ghost var start, sent0 := seqNum, bus.sent;
      ghost var done: seq<seq<byte>> := [];
      while remainingLength != 0
        invariant 0 <= payloadStartIndex <= messageLength
        invariant remainingLength == messageLength - payloadStartIndex
        invariant Segment(payload, start) == done + SegmentFrom(payload, payloadStartIndex, seqNum)
        invariant bus.sent == sent0 + Addressed(dest, done)
        invariant seqNum == (start + |done|) % 16
        decreases remainingLength
      {
        SendStep(dest, done, payload, payloadStartIndex, start, seqNum, sent0, bus.sent);
        done := done + [Frame(payload, payloadStartIndex, seqNum)];
        var sentLength := SendFrame(payload, payloadStartIndex, remainingLength, dest);
        remainingLength := remainingLength - sentLength;
        payloadStartIndex := payloadStartIndex + sentLength;
      }
      assert done == done + SegmentFrom(payload, payloadStartIndex, seqNum);
    }

    /**
     * One iteration of `send`'s loop: sends the frame numbered by the counter
     * that starts at payloadStartIndex, advances the counter, and returns how
     * many payload bytes the frame took.
     */
    method SendFrame(payload: seq<byte>, payloadStartIndex: nat, remainingLength: nat, dest: nat)
      returns (sentLength: nat)
      requires payloadStartIndex < |payload| <= 255
      requires remainingLength == |payload| - payloadStartIndex
      modifies this, bus
      ensures bus.sent == old(bus.sent) + [CanFrame(dest, Frame(payload, payloadStartIndex, old(seqNum)))]
      ensures seqNum == (old(seqNum) + 1) % 16
      ensures payloadStartIndex + sentLength == NextOffset(payload, payloadStartIndex, old(seqNum))
    {
      var messageLength := |payload|;
      var headerLength := HeaderLength;
      var firstFrame := seqNum == 0;
      if firstFrame {
        headerLength := FirstHeaderLength;
      }
      var payloadLength := FrameLength - headerLength;
      var lastFrame := payloadLength >= remainingLength;

      var opcode := OpMorePacketsNoAck;
      if lastFrame {
        opcode := OpLastPacketAck;
      }
      var firstByte := Pack(opcode, seqNum);

      var data: seq<byte> := [firstByte];
      if firstFrame {
        data := data + [0x00, messageLength];
      }

      var payloadEndIndex := payloadStartIndex + payloadLength;
      var framePayloadBytes: seq<byte> := payload[payloadStartIndex..Min(payloadEndIndex, messageLength)];
      data := data + framePayloadBytes;

      assert data == Frame(payload, payloadStartIndex, seqNum) by {
        assert payloadLength == Capacity(seqNum);
      }
      bus.Send(CanFrame(dest, data));
      sentLength := |framePayloadBytes|;
      seqNum := (seqNum + 1) % 16;
    }

    /** Sends the one-byte acknowledgement `0xb0 + next` to dest; the counter is untouched. */
    method SendAck(next: nibble, dest: nat)
      modifies bus
      ensures bus.sent == old(bus.sent) + [CanFrame(dest, [AckByte(next)])]
    {
      bus.Send(CanFrame(dest, [0xb0 + next]));
    }

    /**
     * Handles one frame on this ECU's VWTP id: the acknowledgement (if the frame
     * asks for one) goes out first; then a frame numbered 0 carrying the
     * item-number request is answered with the item-number response, segmented
     * from the current counter. Nothing else is sent and nothing else changes.
     */
    method HandleMessage(message: CanFrame, dest: nat)
      requires Readable(message.data)
      modifies this, bus
      ensures bus.sent == old(bus.sent) + Reply(dest, identity, message.data, old(seqNum))
        && seqNum == SeqAfter(identity, message.data, old(seqNum))
    {
      var data := message.data;
      var vwtpOpcode := HighNibble(data[0]);
      var vwtpSeq: int := LowNibble(data[0]);
      if vwtpOpcode == OpLastPacketAck {
        var vwtpNextSeq := (vwtpSeq + 1) % 16;
        SendAck(vwtpNextSeq, dest);
      }
      assert bus.sent == old(bus.sent) + AckFrames(dest, data) && seqNum == old(seqNum);
      if vwtpSeq == 0 {
        var payloadLen := data[2];
        var kwpPayload := data[PayloadIndex..Min(PayloadIndex + payloadLen, |data|)];
        var kwpOpcode := kwpPayload[0];
        var kwpParam := kwpPayload[1];
        assert kwpOpcode == data[3] && kwpParam == data[4];
        if kwpOpcode == ReadEcuIdentification {
          if kwpParam == ItemNumberParam {
            assert RequestsItemNumber(data);
            SendItemNumber(this, dest);
            return;
          }
        }
      }
      assert !RequestsItemNumber(data);
    }
  }

  /** Sends the item-number response through the transport tp to dest. */
  method SendItemNumber(tp: Vwtp2, dest: nat)
    modifies tp, tp.bus
    ensures tp.bus.sent == old(tp.bus.sent) + ItemNumberFrames(dest, tp.identity, old(tp.seqNum))
    ensures tp.seqNum == ItemNumberSeq(tp.identity, old(tp.seqNum))
  {
    var message := ItemNumberMessage(tp.identity);
    tp.Send(message, dest);
  }
}
