# vagagent VWTP 2.0 / KWP2000 ECU emulator, modelled in Dafny

`vagagent.py` makes a Linux CAN interface behave like a VW engine ECU towards a
diagnostic tester. A tester opens a VW Transport Protocol 2.0 channel with a
raw-CAN setup handshake. It then sends KWP2000 requests in VWTP frames. The
agent answers one of them, "read ECU identification / item number" (0x1a 0x9b),
with a 48-byte KWP response split into VWTP frames of at most 8 bytes.

This project models the protocol logic of that script:

- `Bytes` holds octets and nibbles, and the bit operations the script uses on them.
- `Can` holds CAN frames and the bus. Sending appends to the bus's transmit log `sent`.
- `Kwp` holds the KWP message wire form (`KWP2000Message.bytes`) and the 46-byte
  item-number layout built by `send_item_number`.
- `Segmentation` is `VWTP2.send` as a pure function `Segment(payload, startSeq)`.
  Its lemmas cover the round trip, frame sizes, opcodes, sequence numbers and frame count.
- `Vwtp` is the `VWTP2` class (`Vwtp2`). It has the counter field `seqNum`.
  `Send` is the imperative loop, proved to emit exactly `Segment`. It also holds
  `SendAck`, `HandleMessage` and `CanHandleMessage`, and the decoding of an
  inbound frame (`AckFor`, `RequestOf`). `Reply` and `SeqAfter` say what
  `HandleMessage` sends and where it leaves the counter.
- `Agent` is the main loop. `SetupStep` is the handshake branch as a function of
  (frame id, frame bytes, current peer id). `Ecu.Step` is one loop iteration,
  proved against `SetupStep`, `Reply` and `SeqAfter`. `SessionExample` passes a
  tester's session of three frames through `Ecu.Step`; its assertions state what
  is sent after each frame.

Behaviours kept as the code has them:

- A frame gets the 3-byte header `[b, 0x00, length]` exactly when the transport's
  persistent counter is 0. Being the first frame of a message does not matter.
  So a second response, which starts at counter 8, has no length byte. A message
  that wraps the counter to 0 carries the header again in the middle.
- An empty payload sends no frame.
- The item-number response is 48 bytes: opcode 0x5a, parameter 0x9b, and 46 data bytes.
  From counter 0 it takes 8 frames. The first frame is `[0x20, 0x00, 0x30, 0x5a, 0x9b, '8', 'P', '0']`.
- A frame is answered only when its sequence nibble is 0. Its opcode does not matter.
  So `[0x11, 0x00, 0x02, 0x1a, 0x9b]` (sequence 1) gets only the ack `0xb2`.
- In the handshake, the invalid-id flag is checked only when byte 1 is 0xc0.
  The response is sent for any byte 1. The peer id is overwritten even when the
  app-type check then drops the frame.

## Model

| member | source | states |
|---|---|---|
| Bytes.HighNibble | vagagent.py:70 | definition: the opcode half `b >> 4` of a frame's first byte, modelled as `b / 16` (tied to the operator by `HighNibbleIsShift`) |
| Bytes.LowNibble | vagagent.py:71 | definition: the sequence half `b & 0xf`, modelled as `b % 16` (tied to the operator by `LowNibbleIsMask`) |
| Bytes.Bit4 | vagagent.py:155 | definition: the invalid-id flag `b & 0x10` as a test of bit 4 (tied to the operator by `Bit4IsMask`) |
| Bytes.Pack | vagagent.py:105 | the first byte `opcode << 4 OR seq` decodes back to the same opcode (high nibble) and sequence number (low nibble) |
| Bytes.HighNibbleIsShift | vagagent.py:70 | on an 8-bit value, the opcode decode `b >> 4` equals `b / 16`, the high nibble used throughout the model |
| Bytes.LowNibbleIsMask | vagagent.py:71 | on an 8-bit value, the sequence decode `b & 0xf` equals `b % 16` |
| Bytes.PackIsShiftOr | vagagent.py:105 | on 8-bit values below 16, `opcode << 4 OR seq` equals `opcode * 16 + seq` |
| Bytes.Bit4IsMask | vagagent.py:155 | on an 8-bit value, the invalid-id test `b & 0x10` is non-zero exactly when bit 4 (`(b / 16) % 2`) is set |
| Bytes.ByteSplit | vagagent.py:165-168 | on a 16-bit value, the setup response's `x & 0xff` is the low byte `x % 256` and `x >> 8` the high byte `x / 256`, as `LittleEndian16` and `SetupStep` state them |
| Bytes.AddModulo | vagagent.py:121 | stepping the counter with `& 0xf` after every frame ends where one reduction modulo 16 of the total count ends |
| Bytes.Ascii | vagagent.py:44-45 | a Python 2 string of ASCII characters (codes below 128) used as bytes: same length, each byte the character's code |
| Kwp.KwpMessage.Bytes | vagagent.py:54-55 | the wire form is two bytes longer than the data |
| Kwp.BytesInjective | vagagent.py:54-55 | two messages with the same wire form are the same message (opcode, parameter, data) |
| Kwp.Field | vagagent.py:132-136 | `"{:<n}"` packed as `ns`: exactly n bytes, byte i is the text's byte i while the text lasts and a space after |
| Kwp.FieldReadsBack | vagagent.py:132-136 | text that fits its field and does not end in a space is recovered by trimming trailing spaces |
| Kwp.ItemNumberData | vagagent.py:131-136 | the item-number data is 46 bytes and bytes 11..26 are the 15 constant bytes |
| Kwp.ItemNumberDataReadsBack | vagagent.py:131-136 | the 11-byte part-number field and the 20-byte engine field read back as the texts put in them |
| Kwp.ItemNumberMessage | vagagent.py:137-140 | for any part number and engine text, the response has opcode 0x5a, parameter 0x9b and a 48-byte wire form |
| Kwp.ItemNumberMessageBytes | vagagent.py:129-140 | with the configured identity the wire form is 0x5a 0x9b, "8P0907115AQ", the 15 constants, "2.0l R4/4V TFSI" and five spaces |
| Kwp.DefaultIdentity | vagagent.py:44-45 | definition: the configured part number and engine text, as ASCII bytes |
| Segmentation.Capacity | vagagent.py:95-99 | definition: a frame carries 8 - 3 = 5 payload bytes when the counter is 0 and 8 - 1 = 7 otherwise |
| Segmentation.Frame | vagagent.py:95-113 | definition: the frame built at an offset with counter s, `[opcode << 4 OR s]`, then `0x00, length` when s is 0, then the payload slice up to the next offset; its properties are `FrameShape` and `StripFrame` |
| Segmentation.SegmentFrom | vagagent.py:94-121 | definition: the frames the loop sends from an offset with counter s, stepping the counter modulo 16 after each; its properties are `SegmentFromStep`, `ReassembleSegmentFrom` and `SegmentFromFrame` |
| Segmentation.Segment | vagagent.py:88-121 | definition: the frames one `send` emits for a payload from the start counter; its properties are `SegmentRoundTrip`, `SegmentFrames`, `SegmentEmpty` and `SegmentCount` |
| Segmentation.NextOffset | vagagent.py:111-112 | a frame always takes at least one payload byte and never reads past the payload |
| Segmentation.StripHeader | vagagent.py:95-98 | the receiver drops 3 header bytes from a frame numbered 0 and 1 from any other |
| Segmentation.SegmentFromStep | vagagent.py:94-121 | with some frames already sent, the frames still due from an offset are its frame followed by those due from the next offset with counter `(s + 1) & 0xf` |
| Segmentation.StripFrame | vagagent.py:95-113 | stripping one frame's header leaves exactly the payload bytes that frame carries |
| Segmentation.ReassembleSegmentFrom | vagagent.py:94-121 | the frames sent from any offset and counter, with headers stripped, rebuild the rest of the payload |
| Segmentation.SegmentRoundTrip | vagagent.py:88-121 | stripping 3 bytes from frames numbered 0 and 1 from others, then joining, gives back `message.bytes()` exactly, from any start counter |
| Segmentation.FrameShape | vagagent.py:95-113 | one frame is 1..8 bytes and exactly 8 unless it takes the last payload byte; its low nibble is the counter; its opcode is 0x1 iff it takes the last byte and 0x2 otherwise; numbered 0 it carries 0x00 and the payload length in bytes 1 and 2 |
| Segmentation.FrameIndex | vagagent.py:94-121 | frame k of a run started at counter s is the frame numbered `(s + k) mod 16` at some offset inside the payload, and it is the run's last frame iff it reaches the payload's end |
| Segmentation.SegmentFromFrame | vagagent.py:94-121 | frame k is 1..8 bytes and exactly 8 unless last; it is numbered `(s + k) mod 16`; it has opcode 0x1 iff it is last and 0x2 otherwise; if numbered 0 its bytes 1, 2 are 0x00 and the payload length |
| Segmentation.SegmentFrames | vagagent.py:99-113 | the same facts for every frame of one `send` |
| Segmentation.FirstFrameFromZero | vagagent.py:95-113 | from counter 0 a payload longer than 5 bytes opens with `[0x20, 0x00, length]` and its first five bytes |
| Segmentation.SegmentEmpty | vagagent.py:94 | `send` emits no frame exactly when the payload is empty |
| Segmentation.ContinuationCount | vagagent.py:95-99 | while the counter stays non-zero every frame but the last carries 7 payload bytes: n bytes take c frames with 7(c - 1) < n <= 7c |
| Segmentation.SegmentCount | vagagent.py:94-121 | from counter 0, n bytes (1..110) take 1 frame if n <= 5, else 1 + ceil((n - 5) / 7) |
| Vwtp.Addressed | vagagent.py:115-118 | one CAN frame on the peer id per frame body |
| Vwtp.AddressedAt | vagagent.py:115-118 | the k-th CAN frame sent carries the k-th frame body, on the peer id |
| Vwtp.AddressedCons | vagagent.py:115-118 | addressing a frame followed by others sends that frame first |
| Vwtp.AddressedSnoc | vagagent.py:115-118 | sending one more frame body appends exactly one CAN frame at the end of the log |
| Vwtp.Readable | vagagent.py:70-83 | definition: the bytes `handle_message` indexes without an IndexError, a first byte and, for a frame numbered 0, bytes up to 4 with a length byte of at least 2 |
| Vwtp.AckByte | vagagent.py:126 | the ack byte `0xb0 + seq` has high nibble 0xb and the acknowledged next sequence number as low nibble |
| Vwtp.AckFor | vagagent.py:72-75 | an ack is due iff the frame's opcode is 0x1; it is one byte, `0xb0` with `(seq + 1) & 0xf` |
| Vwtp.RequestOf | vagagent.py:76-83 | a KWP request is read iff the sequence nibble is 0, whatever the opcode; it is (byte 3, byte 4) |
| Vwtp.AckFrames | vagagent.py:72-75 | definition: the ack frame `AckFor` calls for, addressed to the peer id, or none |
| Vwtp.RequestsItemNumber | vagagent.py:76-86 | definition: the frame is numbered 0 and carries the request 0x1a 0x9b |
| Vwtp.ItemNumberFrames | vagagent.py:129-141 | definition: the CAN frames of the item-number response for an identity, segmented from the counter and addressed to the peer id |
| Vwtp.ItemNumberSeq | vagagent.py:129-141 | definition: the counter after that response, the start plus its frame count modulo 16 |
| Vwtp.Reply | vagagent.py:72-86 | definition: what `handle_message` sends, the ack frames followed by the item-number response when one is requested; its properties are `ReplyShape` and the examples |
| Vwtp.SeqAfter | vagagent.py:72-86 | definition: the counter after `handle_message`, moved only when the response is sent |
| Vwtp.ReplyShape | vagagent.py:67-86 | what `handle_message` sends: the ack first iff the opcode is 0x1, then, only for a 0x1a 0x9b request, one frame per segment of the response, in order, all on the peer id; a frame not numbered 0 gets at most the ack and leaves the counter unchanged |
| Vwtp.SingleFrameUnderstood | vagagent.py:76-83 | a KWP message of 2..5 bytes sent from counter 0 is one frame; the handler reads back its opcode and parameter and acks it with 0xb1 |
| Vwtp.ItemNumberFramesFromZero | vagagent.py:129-141 | the item-number response sent from counter 0 is 8 frames, the first `[0x20, 0x00, 0x30, 0x5a, 0x9b, 0x38, 0x50, 0x30]` |
| Vwtp.SendStep | vagagent.py:94-121 | one loop iteration keeps the loop's account: frames sent plus frames still due are `Segment` of the payload, the log is the old log plus the frames sent, and the counter is the start plus their number, modulo 16 |
| Can.Bus.Send | vagagent.py:118 | `bus.send` (also at lines 127 and 173): the frame is appended to the transmit log and nothing else changes |
| Vwtp.Vwtp2.constructor | vagagent.py:60-62 | a new transport's counter is 0 |
| Vwtp.Vwtp2.CanHandleMessage | vagagent.py:64-65 | the transport accepts exactly the frames on arbitration id 0x740 |
| Vwtp.Vwtp2.Send | vagagent.py:88-121 | the loop appends exactly `Segment(message.bytes(), seq)` to the bus, addressed to the peer id; the counter ends at `(seq + frame count) mod 16` |
| Vwtp.Vwtp2.SendFrame | vagagent.py:95-121 | one iteration of the loop sends the frame numbered by the counter at the current offset, returns the number of payload bytes it took (up to the next offset) and steps the counter modulo 16 |
| Vwtp.Vwtp2.SendAck | vagagent.py:123-127 | one frame `[0xb0 + next]` goes to the peer id; the counter is unchanged |
| Vwtp.Vwtp2.HandleMessage | vagagent.py:67-86 | appends exactly the reply `ReplyShape` describes and leaves the counter advanced by the response's frame count when a response was sent, unchanged otherwise |
| Vwtp.SendItemNumber | vagagent.py:129-141 | the item-number message for the transport's identity is segmented from the current counter and sent to the peer id; the counter advances by its frame count |
| Agent.LittleEndian16 | vagagent.py:159 | `unpack('<H')` gives a 16-bit value whose low byte and high byte are the two input bytes |
| Agent.SetupReadable | vagagent.py:152-160 | definition: the bytes the handshake branch indexes without an IndexError or struct.error: byte 0, byte 1 when addressed to this ECU, byte 5 for a 0xc0 request, and bytes 4..6 when the branch reaches the `unpack` |
| Agent.SetupStep | vagagent.py:150-174 | the peer id becomes `data[4] + 256 * data[5]` iff the frame is on 0x200, is addressed to 0x01, and is not a 0xc0 request with bit 0x10 of byte 5 set, even when the app type then rejects it; a response is sent iff that holds and `data[6] == 0x01`; the response is `[0x00, 0xd0, data[4], data[5], 0x40, 0x07, 0x01]` on 0x201 |
| Agent.Ecu.constructor | vagagent.py:43 | at start the peer id is 0, the counter 0, the identity the configured one, and nothing has been sent |
| Agent.Ecu.Setup | vagagent.py:152-174 | a tester frame addressed to this ECU sets the peer id and sends the response exactly as `SetupStep` says |
| Agent.Ecu.Step | vagagent.py:147-176 | a 0x200 frame updates the peer id and sends the response exactly as `SetupStep` says, and never reaches the transport. A 0x740 frame gets the reply `ReplyShape` describes, on the current peer id. Any other frame changes nothing |
| Agent.ShortFrameUnreadable | vagagent.py:70-83 | a one-byte frame numbered 0, such as the peer's acknowledgement 0xb0, is not readable (the code fails at `data[2]`); only `[0x10]` is acknowledged before that |
| Agent.SetupExample | vagagent.py:150-174 | the setup request `[0x01, 0xc0, 0x00, 0x10, 0x40, 0x07, 0x01]` makes 0x740 the peer id and is answered with `[0x00, 0xd0, 0x40, 0x07, 0x40, 0x07, 0x01]` on 0x201 |
| Agent.FirstRequestReply | vagagent.py:67-141 | the request `[0x10, 0x00, 0x02, 0x1a, 0x9b]` at counter 0 is answered with the ack 0xb1 and the 8 response frames, and the counter ends at 8 |
| Agent.SecondRequestReply | vagagent.py:67-86 | the same request in a frame numbered 1 gets only the ack 0xb2 and leaves the counter unchanged |

## Left out

- The python-can plumbing is not modelled: opening the bus, iterating received frames, and the `Message` constructor. `Bus.Send` only appends the frame to the log `sent`. The arbitration id is not limited to 11 bits.
- The `print` diagnostics for a rejected handshake are not modelled. They are logging only.
- `handle_message` reads the global `data` and `tp`, not its argument and `self`. The model uses the frame's own bytes and its own transport. Those globals are the same objects whenever `handle_message` runs.
- The peer id is the global `dest_vwtp_can_id`. In the model it is the field `Ecu.destVwtpCanId` and is passed to the transport's methods.
- `send_item_number` reads the globals `vag_part_number` and `engine`. In the model they are the transport's constant `identity`, which the agent sets to the configured values (`Kwp.DefaultIdentity`).
- The body of `send`'s loop is the method `SendFrame` and the handshake branch of the main loop is the method `Ecu.Setup`. The statements are those of the code, split only so that each part is proved on its own.
- Vwtp.Vwtp2.HandleMessage: requires a readable frame. That is a first byte and, for a frame numbered 0, at least 5 bytes with a length byte of at least 2. The code raises IndexError on such frames. For a frame with opcode 0x1 the ack has already gone out. The peer's one-byte acknowledgement `0xb0` of a frame numbered 15 is such a frame, and it gets no ack (`Agent.ShortFrameUnreadable`).
- Agent.Ecu.Step: requires the bytes the handshake indexes (`SetupReadable`). The code raises IndexError, or struct.error from `unpack`, on shorter frames.
- Agent.SetupStep: requires the same bytes, for the same reason.
- Vwtp.Vwtp2.Send: requires a message of at most 255 bytes. The code raises ValueError when it builds a length byte above 255. When `send` starts at a non-zero counter, that happens only once the counter wraps to 0, after earlier frames were sent. That partial send is not modelled.
- The KWP parameter constants the code never uses are not modelled (extended ident, immobiliser, software version, engine type, VIN).
- The code has no multi-frame inbound reassembly, sequence checking or timeouts, so the model has none either.
- Python 2 `str`/`bytes` semantics are modelled only for ASCII text. Both constant strings are ASCII.
- The bit operations are modelled as arithmetic. Lemmas tie each one to the operator the code uses: `>> 4`, `& 0xf`, `<< 4 |` and `& 0x10` on 8-bit values (`HighNibbleIsShift`, `LowNibbleIsMask`, `PackIsShiftOr`, `Bit4IsMask`), and `& 0xff` and `>> 8` on the 16-bit peer id and own id of the setup response (`ByteSplit`). The counter steps `(s + 1) & 0xf` are `LowNibbleIsMask` applied to s + 1, which is at most 16.
