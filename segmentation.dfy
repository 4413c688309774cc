/**
 * VWTP 2.0 segmentation as the agent's `VWTP2.send` performs it, as a pure
 * function of the payload and the transport's sequence counter at the start.
 *
 * Each frame is at most 8 bytes. Its first byte is `opcode << 4 | seq`, with
 * opcode 0x2 (more packets follow, no ack wanted) or 0x1 (last packet, ack
 * requested). A frame whose sequence number is 0 carries the 3-byte header
 * `[b, 0x00, total length]` and five payload bytes; any other frame carries a
 * 1-byte header and seven. Whether a frame gets the long header depends only on
 * the counter being 0, not on the frame being the first of the message: a
 * message that starts at a non-zero counter has no length byte, and one long
 * enough to wrap the counter to 0 gets the header again mid-message. An empty
 * payload produces no frames.
 */
module Segmentation {
  import opened Bytes

  const FrameLength := 8
  const HeaderLength := 1
  const FirstHeaderLength := 3
  const OpLastPacketAck: nibble := 0x1
  const OpMorePacketsNoAck: nibble := 0x2

  /** Payload bytes a frame with sequence number s has room for. */
  function Capacity(s: nibble): nat
  {
    FrameLength - (if s == 0 then FirstHeaderLength else HeaderLength)
  }

  /** Where the frame numbered s that starts at offset stops taking payload bytes. */
  function NextOffset(payload: seq<byte>, offset: nat, s: nibble): (end: nat)
    requires offset < |payload|
    ensures offset < end <= |payload|
  {
    Min(offset + Capacity(s), |payload|)
  }

  /** The bytes of the frame numbered s that starts at offset. */
  function Frame(payload: seq<byte>, offset: nat, s: nibble): seq<byte>
    requires offset < |payload| <= 255
  {
    var opcode := if Capacity(s) >= |payload| - offset then OpLastPacketAck else OpMorePacketsNoAck;
    var header := [Pack(opcode, s)] + (if s == 0 then [0x00, |payload|] else []);
    header + payload[offset..NextOffset(payload, offset, s)]
  }

  /** The frames for the payload bytes from offset on, the first one numbered s. */
  function SegmentFrom(payload: seq<byte>, offset: nat, s: nibble): seq<seq<byte>>
    requires offset <= |payload| <= 255
    decreases |payload| - offset
  {
    if offset == |payload| then []
    else [Frame(payload, offset, s)] + SegmentFrom(payload, NextOffset(payload, offset, s), (s + 1) % 16)
  }

  /**
   * One iteration of `send`'s loop: with the frames before offset already sent,
   * sending the frame at offset leaves the frames from the next offset, numbered
   * from s + 1 modulo 16.
   */
  lemma SegmentFromStep(sent: seq<seq<byte>>, payload: seq<byte>, offset: nat, s: nibble)
    requires offset < |payload| <= 255
    ensures sent + SegmentFrom(payload, offset, s)
            == (sent + [Frame(payload, offset, s)])
               + SegmentFrom(payload, NextOffset(payload, offset, s), (s + 1) % 16)
  {
    var rest := SegmentFrom(payload, NextOffset(payload, offset, s), (s + 1) % 16);
    assert SegmentFrom(payload, offset, s) == [Frame(payload, offset, s)] + rest;
    assert sent + ([Frame(payload, offset, s)] + rest) == (sent + [Frame(payload, offset, s)]) + rest;
  }

  /** The frames `send` emits for a payload when the transport's counter is start. */
  function Segment(payload: seq<byte>, start: nibble): seq<seq<byte>>
    requires |payload| <= 255
  {
    SegmentFrom(payload, 0, start)
  }

  /** A receiver's view of one frame: drop 3 header bytes if its sequence number is 0, else 1. */
  function StripHeader(frame: seq<byte>): (r: seq<byte>)
    ensures |r| == if frame == [] then 0
                   else if LowNibble(frame[0]) == 0 then |frame| - Min(3, |frame|)
                   else |frame| - 1
  {
    if frame == [] then []
    else if LowNibble(frame[0]) == 0 then frame[Min(3, |frame|)..]
    else frame[1..]
  }

  /** The payload a receiver rebuilds from a run of frames. */
  function Reassemble(frames: seq<seq<byte>>): seq<byte>
  {
    if frames == [] then [] else StripHeader(frames[0]) + Reassemble(frames[1..])
  }

  /** Stripping one frame's header leaves exactly the payload bytes it carries. */
  lemma StripFrame(payload: seq<byte>, offset: nat, s: nibble)
    requires offset < |payload| <= 255
    ensures StripHeader(Frame(payload, offset, s)) == payload[offset..NextOffset(payload, offset, s)]
  {
    var opcode := if Capacity(s) >= |payload| - offset then OpLastPacketAck else OpMorePacketsNoAck;
    var header := [Pack(opcode, s)] + (if s == 0 then [0x00, |payload|] else []);
    var body := payload[offset..NextOffset(payload, offset, s)];
    assert Frame(payload, offset, s) == header + body;
    assert LowNibble(header[0]) == s;
  }

  lemma {:induction false} ReassembleSegmentFrom(payload: seq<byte>, offset: nat, s: nibble)
    requires offset <= |payload| <= 255
    ensures Reassemble(SegmentFrom(payload, offset, s)) == payload[offset..]
    decreases |payload| - offset
  {
    if offset < |payload| {
      var end := NextOffset(payload, offset, s);
      var rest := SegmentFrom(payload, end, (s + 1) % 16);
      var frames := SegmentFrom(payload, offset, s);
      assert frames == [Frame(payload, offset, s)] + rest;
      assert frames[1..] == rest;
      ReassembleSegmentFrom(payload, end, (s + 1) % 16);
      StripFrame(payload, offset, s);
      assert payload[offset..] == payload[offset..end] + payload[end..];
    }
  }

  /** Round trip: stripping every frame's header and joining the rest gives back the payload. */
  lemma SegmentRoundTrip(payload: seq<byte>, start: nibble)
    requires |payload| <= 255
    ensures Reassemble(Segment(payload, start)) == payload
  {
    ReassembleSegmentFrom(payload, 0, start);
  }

  /** One frame: 1 to 8 bytes, 8 unless it takes the last payload byte, opcode 0x1 exactly then. */
  lemma FrameShape(payload: seq<byte>, offset: nat, s: nibble)
    requires offset < |payload| <= 255
    ensures var f := Frame(payload, offset, s);
      var last := NextOffset(payload, offset, s) == |payload|;
      1 <= |f| <= FrameLength
      && (!last ==> |f| == FrameLength)
      && LowNibble(f[0]) == s
      && HighNibble(f[0]) == (if last then OpLastPacketAck else OpMorePacketsNoAck)
      && (s == 0 ==> |f| >= 3 && f[1] == 0x00 && f[2] == |payload|)
  {
    var opcode := if Capacity(s) >= |payload| - offset then OpLastPacketAck else OpMorePacketsNoAck;
    var header := [Pack(opcode, s)] + (if s == 0 then [0x00, |payload|] else []);
    var body := payload[offset..NextOffset(payload, offset, s)];
    assert Frame(payload, offset, s) == header + body;
    assert |header| + Capacity(s) == FrameLength;
    assert NextOffset(payload, offset, s) == |payload| <==> Capacity(s) >= |payload| - offset;
  }

  /** Frame k of SegmentFrom(payload, offset, s) is the frame numbered s + k at some offset o. */
  lemma {:induction false} FrameIndex(payload: seq<byte>, offset: nat, s: nibble, k: nat) returns (o: nat)
    requires offset <= |payload| <= 255
    requires k < |SegmentFrom(payload, offset, s)|
    ensures offset <= o < |payload|
    ensures SegmentFrom(payload, offset, s)[k] == Frame(payload, o, (s + k) % 16)
    ensures k == |SegmentFrom(payload, offset, s)| - 1 <==> NextOffset(payload, o, (s + k) % 16) == |payload|
    decreases k
  {
    var frames := SegmentFrom(payload, offset, s);
    var end := NextOffset(payload, offset, s);
    var rest := SegmentFrom(payload, end, (s + 1) % 16);
    assert frames == [Frame(payload, offset, s)] + rest;
    if k == 0 {
      o := offset;
      assert (s + k) % 16 == s;
      assert rest == [] <==> end == |payload|;
    } else {
      o := FrameIndex(payload, end, (s + 1) % 16, k - 1);
      AddModulo(s + 1, k - 1);
      var n: nibble := (s + k) % 16;
      assert ((s + 1) % 16 + (k - 1)) % 16 == n;
      assert frames[k] == rest[k - 1] == Frame(payload, o, n);
      assert k == |frames| - 1 <==> k - 1 == |rest| - 1;
    }
  }

  /** The shape of frame k of SegmentFrom(payload, offset, s). */
  lemma SegmentFromFrame(payload: seq<byte>, offset: nat, s: nibble, k: nat)
    requires offset <= |payload| <= 255
    requires k < |SegmentFrom(payload, offset, s)|
    ensures var frames := SegmentFrom(payload, offset, s);
      var f := frames[k];
      1 <= |f| <= FrameLength
      && (k < |frames| - 1 ==> |f| == FrameLength)
      && LowNibble(f[0]) == (s + k) % 16
      && HighNibble(f[0]) == (if k == |frames| - 1 then OpLastPacketAck else OpMorePacketsNoAck)
      && (LowNibble(f[0]) == 0 ==> |f| >= 3 && f[1] == 0x00 && f[2] == |payload|)
  {
    var o := FrameIndex(payload, offset, s, k);
    FrameShape(payload, o, (s + k) % 16);
  }

  /**
   * Every frame of a transfer: at most 8 bytes, and 8 unless it is the last;
   * sequence numbers start..; opcode 0x1 on the last frame only, 0x2 on every
   * other; a frame numbered 0 carries 0x00 and the payload length in bytes 1 and 2.
   */
  lemma SegmentFrames(payload: seq<byte>, start: nibble)
    requires |payload| <= 255
    ensures var frames := Segment(payload, start);
      forall k :: 0 <= k < |frames| ==>
        1 <= |frames[k]| <= FrameLength
        && (k < |frames| - 1 ==> |frames[k]| == FrameLength)
        && LowNibble(frames[k][0]) == (start + k) % 16
        && HighNibble(frames[k][0]) == (if k == |frames| - 1 then OpLastPacketAck else OpMorePacketsNoAck)
        && (LowNibble(frames[k][0]) == 0 ==> |frames[k]| >= 3 && frames[k][1] == 0x00 && frames[k][2] == |payload|)
  {
    var frames := Segment(payload, start);
    forall k | 0 <= k < |frames|
      ensures 1 <= |frames[k]| <= FrameLength
        && (k < |frames| - 1 ==> |frames[k]| == FrameLength)
        && LowNibble(frames[k][0]) == (start + k) % 16
        && HighNibble(frames[k][0]) == (if k == |frames| - 1 then OpLastPacketAck else OpMorePacketsNoAck)
        && (LowNibble(frames[k][0]) == 0 ==> |frames[k]| >= 3 && frames[k][1] == 0x00 && frames[k][2] == |payload|)
    {
      SegmentFromFrame(payload, 0, start, k);
    }
  }

  /**
   * From counter 0 a payload longer than five bytes opens with the frame
   * `[0x20, 0x00, length]` followed by its first five bytes.
   */
  lemma FirstFrameFromZero(payload: seq<byte>)
    requires 5 < |payload| <= 255
    ensures Segment(payload, 0) != []
    ensures Segment(payload, 0)[0] == [Pack(OpMorePacketsNoAck, 0), 0x00, |payload|] + payload[..5]
  {
    var rest := SegmentFrom(payload, NextOffset(payload, 0, 0), 1);
    assert Segment(payload, 0) == [Frame(payload, 0, 0)] + rest;
  }

  /** An empty payload sends nothing; any other sends at least one frame. */
  lemma SegmentEmpty(payload: seq<byte>, start: nibble)
    requires |payload| <= 255
    ensures Segment(payload, start) == [] <==> payload == []
  {
  }

  /**
   * Frames numbered 1.. carry seven bytes each: while the counter does not wrap,
   * n bytes take c frames with 7 * (c - 1) < n <= 7 * c.
   */
  lemma {:induction false} ContinuationCount(payload: seq<byte>, offset: nat, s: nibble)
    requires offset <= |payload| <= 255
    requires 1 <= s && |payload| - offset <= 7 * (16 - s)
    ensures var c := |SegmentFrom(payload, offset, s)|;
      7 * (c - 1) < |payload| - offset <= 7 * c
    decreases |payload| - offset
  {
    if offset == |payload| {
      assert SegmentFrom(payload, offset, s) == [];
    } else {
      var end := NextOffset(payload, offset, s);
      var rest := SegmentFrom(payload, end, (s + 1) % 16);
      assert |SegmentFrom(payload, offset, s)| == 1 + |rest|;
      if end < |payload| {
        assert end == offset + 7 && s + 1 < 16;
        ContinuationCount(payload, end, s + 1);
      } else {
        assert rest == [];
      }
    }
  }

  /** c is the ceiling of n / 7 exactly when 7 * (c - 1) < n <= 7 * c. */
  lemma CeilingOfSevenths(n: nat, c: nat)
    requires 7 * (c - 1) < n <= 7 * c
    ensures c == (n + 6) / 7
  {
  }

  /**
   * From counter 0, a payload of n bytes with 1 <= n <= 110 (so the counter
   * never comes back to 0) takes one frame if n <= 5 and 1 + ceil((n - 5) / 7)
   * otherwise.
   */
  lemma SegmentCount(payload: seq<byte>)
    requires 1 <= |payload| <= 110
    ensures |Segment(payload, 0)| == if |payload| <= 5 then 1 else 1 + (|payload| - 5 + 6) / 7
  {
    var end := NextOffset(payload, 0, 0);
    assert |Segment(payload, 0)| == 1 + |SegmentFrom(payload, end, 1)|;
    if end < |payload| {
      ContinuationCount(payload, end, 1);
      CeilingOfSevenths(|payload| - end, |SegmentFrom(payload, end, 1)|);
    }
  }
}
