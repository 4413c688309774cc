/**
 * The agent's main loop: one received CAN frame at a time, either the raw-CAN
 * setup handshake from the tester or a VWTP frame for the transport.
 *
 * The handshake step is a pure function of the frame and the current peer id.
 * Three of its behaviours follow the nesting of the agent's conditionals:
 * the invalid-id flag (bit 0x10 of byte 5) is looked at only when byte 1 is the
 * setup-request opcode 0xc0; the peer id is taken and the response sent for
 * every frame addressed to this ECU, whatever byte 1 is; and the peer id is
 * overwritten before the application-type check can still drop the frame.
 */
module Agent {
  import opened Bytes
  import opened Wrappers
  import opened Can
  import opened Kwp
  import opened Vwtp

  const TesterCanId := 0x200
  const EcuLogicalAddress: byte := 0x01
  const SetupRequestOpcode: byte := 0xc0
  const SetupResponseOpcode: byte := 0xd0
  const Kwp2000AppType: byte := 0x01

  /** `struct.unpack('<H', ...)` of two bytes. */
  function LittleEndian16(lo: byte, hi: byte): (v: nat)
    ensures v < 0x10000 && v % 256 == lo && v / 256 == hi
  {
    lo + 256 * hi
  }

  /**
   * What the loop needs of a frame on the tester id before it indexes it: byte 0;
   * for a frame addressed to this ECU byte 1, byte 5 when byte 1 is 0xc0, and
   * bytes 4 to 6 unless the invalid-id flag already dropped the frame.
   */
  predicate SetupReadable(data: seq<byte>)
  {
    |data| >= 1
    && (data[0] == EcuLogicalAddress ==>
          |data| >= 2
          && (data[1] == SetupRequestOpcode ==> |data| >= 6)
          && (!(data[1] == SetupRequestOpcode && Bit4(data[5])) ==> |data| >= 7))
  }

  /** The peer id after a frame, and the response frame if one is sent. */
  datatype SetupResult = SetupResult(peer: nat, response: Option<CanFrame>)

  /** The handshake branch of the loop for a frame on arbitration id `id`. */
  function SetupStep(id: nat, data: seq<byte>, peer: nat): (r: SetupResult)
    requires id == TesterCanId ==> SetupReadable(data)
    ensures var taken := id == TesterCanId && data[0] == EcuLogicalAddress
                         && !(data[1] == SetupRequestOpcode && Bit4(data[5]));
      (r.peer == if taken then data[4] + 256 * data[5] else peer)
      && (r.response.Some? <==> taken && data[6] == Kwp2000AppType)
      && (r.response.Some? ==>
            r.response.value == CanFrame(0x201, [0x00, 0xd0, data[4], data[5], 0x40, 0x07, 0x01]))
  {
    if id != TesterCanId || data[0] != EcuLogicalAddress then SetupResult(peer, None)
    else if data[1] == SetupRequestOpcode && Bit4(data[5]) then SetupResult(peer, None)
    else
      var dest := LittleEndian16(data[4], data[5]);
      if data[6] != Kwp2000AppType then SetupResult(dest, None)
      else
        var responseData := [0x00, SetupResponseOpcode, dest % 256, dest / 256,
                             MyVwtpCanId % 256, MyVwtpCanId / 256, Kwp2000AppType];
        SetupResult(dest, Some(CanFrame(TesterCanId + 1, responseData)))
  }

  /** The agent's global state: the bus, the transport and the learned peer id. */
  class Ecu {
    const bus: Bus
    const tp: Vwtp2
    var destVwtpCanId: nat

    ghost predicate Valid()
    {
      tp.bus == bus
    }

    constructor ()
      ensures Valid() && fresh(bus) && fresh(tp)
      ensures bus.sent == [] && tp.seqNum == 0 && tp.identity == DefaultIdentity() && destVwtpCanId == 0
    {
      var b := new Bus();
      bus := b;
      tp := new Vwtp2(b, DefaultIdentity());
      destVwtpCanId := 0;
    }

    /**
     * The handshake for a tester frame addressed to this ECU: the learned peer id
     * and the response are those of SetupStep; the transport is untouched.
     */
    method Setup(data: seq<byte>)
      requires SetupReadable(data) && data[0] == EcuLogicalAddress
      modifies this, bus
      ensures var r := SetupStep(TesterCanId, data, old(destVwtpCanId));
        destVwtpCanId == r.peer
        && bus.sent == old(bus.sent) + (if r.response.Some? then [r.response.value] else [])
    {
      if data[1] == SetupRequestOpcode {
        var destVwtpCanIdInvalid := Bit4(data[5]);
        if destVwtpCanIdInvalid {
          return;
        }
      }
      destVwtpCanId := LittleEndian16(data[4], data[5]);
      if data[6] != Kwp2000AppType {
        return;
      }
      var responseData := [0x00, SetupResponseOpcode, destVwtpCanId % 256, destVwtpCanId / 256,
                           MyVwtpCanId % 256, MyVwtpCanId / 256, Kwp2000AppType];
      bus.Send(CanFrame(TesterCanId + 1, responseData));
    }

    /**
     * One iteration of the loop. A frame on the tester id goes through the
     * handshake and never reaches the transport; a frame on this ECU's VWTP id
     * is handled by the transport with the current peer id; any other frame
     * changes nothing.
     */
    method Step(message: CanFrame)
      requires Valid()
      requires message.id == TesterCanId ==> SetupReadable(message.data)
      requires message.id == MyVwtpCanId ==> Readable(message.data)
      modifies this, tp, bus
      ensures Valid()
      ensures message.id == TesterCanId ==>
        var r := SetupStep(message.id, message.data, old(destVwtpCanId));
        destVwtpCanId == r.peer && tp.seqNum == old(tp.seqNum)
        && bus.sent == old(bus.sent) + (if r.response.Some? then [r.response.value] else [])
      ensures message.id == MyVwtpCanId ==>
        destVwtpCanId == old(destVwtpCanId)
        && bus.sent == old(bus.sent) + Reply(destVwtpCanId, tp.identity, message.data, old(tp.seqNum))
        && tp.seqNum == SeqAfter(tp.identity, message.data, old(tp.seqNum))
      ensures message.id != TesterCanId && message.id != MyVwtpCanId ==>
        bus.sent == old(bus.sent) && tp.seqNum == old(tp.seqNum) && destVwtpCanId == old(destVwtpCanId)
    {
      var msgCanId := message.id;
      var data := message.data;
      if msgCanId == TesterCanId {
        if data[0] == EcuLogicalAddress {
          Setup(data);
          return;
        }
      }
      if tp.CanHandleMessage(message) {
        tp.HandleMessage(message, destVwtpCanId);
      }
    }
  }

  /** A tester's setup request naming peer id 0x740, with application type KWP2000. */
  const SetupRequestExample: seq<byte> := [0x01, 0xc0, 0x00, 0x10, 0x40, 0x07, 0x01]
  /** A single-frame item-number request numbered 0, last packet, KWP length 2. */
  const FirstRequestExample: seq<byte> := [0x10, 0x00, 0x02, 0x1a, 0x9b]
  /** The same request in a frame numbered 1. */
  const SecondRequestExample: seq<byte> := [0x11, 0x00, 0x02, 0x1a, 0x9b]

  /** The tester's setup request naming peer id 0x740 is answered on 0x201. */
  lemma SetupExample(peer: nat)
    ensures SetupReadable(SetupRequestExample)
    ensures var r := SetupStep(TesterCanId, SetupRequestExample, peer);
      r.peer == 0x740 && r.response == Some(CanFrame(0x201, [0x00, 0xd0, 0x40, 0x07, 0x40, 0x07, 0x01]))
  {
    assert !Bit4(0x07);
  }

  /**
   * An item-number request in a single frame numbered 0, at counter 0: the
   * ack 0xb1, then the 8 frames of the response; the counter ends at 8.
   */
  lemma FirstRequestReply(dest: nat)
    ensures Readable(FirstRequestExample)
    ensures var r := Reply(dest, DefaultIdentity(), FirstRequestExample, 0);
      |r| == 9 && r[0] == CanFrame(dest, [0xb1])
      && r[1] == CanFrame(dest, [0x20, 0x00, 0x30, 0x5a, 0x9b, 0x38, 0x50, 0x30])
      && SeqAfter(DefaultIdentity(), FirstRequestExample, 0) == 8
  {
    assert RequestsItemNumber(FirstRequestExample);
    ItemNumberFramesFromZero(dest);
  }

  /** The same request in a frame numbered 1 is only acknowledged, with 0xb2. */
  lemma SecondRequestReply(dest: nat, s: nibble)
    ensures Readable(SecondRequestExample)
    ensures Reply(dest, DefaultIdentity(), SecondRequestExample, s) == [CanFrame(dest, [0xb2])]
    ensures SeqAfter(DefaultIdentity(), SecondRequestExample, s) == s
  {
    assert !RequestsItemNumber(SecondRequestExample);
  }

  /**
   * A one-byte frame numbered 0, such as the peer's own acknowledgement 0xb0
   * of a frame numbered 15, is not readable; of all of them only `[0x10]`
   * is acknowledged before the handler fails on its missing bytes.
   */
  lemma ShortFrameUnreadable(data: seq<byte>)
    requires |data| == 1 && LowNibble(data[0]) == 0
    ensures !Readable(data)
    ensures AckFor(data).Some? <==> data[0] == 0x10
  {
  }

  /**
   * A tester's session, passed through `Step` frame by frame: a setup request
   * naming peer id 0x740, then a single-frame item-number request numbered 0,
   * then the same request in a frame numbered 1.
   */
  method SessionExample()
  {
    var ecu := new Ecu();
    SetupExample(0);
    ecu.Step(CanFrame(TesterCanId, SetupRequestExample));
    assert ecu.destVwtpCanId == 0x740;
    assert ecu.bus.sent == [CanFrame(0x201, [0x00, 0xd0, 0x40, 0x07, 0x40, 0x07, 0x01])];

    FirstRequestReply(0x740);
    ecu.Step(CanFrame(0x740, FirstRequestExample));
    assert |ecu.bus.sent| == 10 && ecu.tp.seqNum == 8;
    assert ecu.bus.sent[1] == CanFrame(0x740, [0xb1]);
    assert ecu.bus.sent[2] == CanFrame(0x740, [0x20, 0x00, 0x30, 0x5a, 0x9b, 0x38, 0x50, 0x30]);

    SecondRequestReply(0x740, 8);
    ecu.Step(CanFrame(0x740, SecondRequestExample));
    assert |ecu.bus.sent| == 11 && ecu.bus.sent[10] == CanFrame(0x740, [0xb2]);
  }
}
