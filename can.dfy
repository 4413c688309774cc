/**
 * The CAN bus the agent talks to. Only what the agent uses is modelled:
 * a frame is an arbitration id and its data bytes, and sending appends the
 * frame to the bus's transmit log.
 */
module Can {
  import opened Bytes

  /** A standard (non-extended) CAN frame. */
  datatype CanFrame = CanFrame(id: nat, data: seq<byte>)

  /** The bus handle; `sent` is every frame transmitted so far, in order. */
  class Bus {
    var sent: seq<CanFrame>

    constructor ()
      ensures sent == []
    {
      sent := [];
    }

    method Send(frame: CanFrame)
      modifies this
      ensures sent == old(sent) + [frame]
    {
      sent := sent + [frame];
    }
  }
}
