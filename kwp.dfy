/**
 * KWP2000 messages as the agent builds them: an opcode byte, a parameter byte
 * and data, and the one response it knows how to produce, the ECU item number.
 */
module Kwp {
  import opened Bytes

  const ReadEcuIdentification: byte := 0x1a
  const ReadEcuIdentificationResp: byte := 0x5a
  const ItemNumberParam: byte := 0x9b

  datatype KwpMessage = KwpMessage(opcode: byte, param: byte, data: seq<byte>) {
    /** The wire form: opcode, parameter, then the data. */
    function Bytes(): (r: seq<byte>)
      ensures |r| == 2 + |data|
    {
      [opcode, param] + data
    }
  }

  /** Distinct messages have distinct wire forms, so the wire form can be parsed back. */
  lemma BytesInjective(m: KwpMessage, n: KwpMessage)
    ensures m.Bytes() == n.Bytes() ==> m == n
  {
    if m.Bytes() == n.Bytes() {
      assert m.opcode == m.Bytes()[0] && n.opcode == n.Bytes()[0];
      assert m.param == m.Bytes()[1] && n.param == n.Bytes()[1];
      assert m.data == m.Bytes()[2..] && n.data == n.Bytes()[2..];
    }
  }

  const PartNumber := "8P0907115AQ"
  const Engine := "2.0l R4/4V TFSI"

  /** The identity the agent reports: its part number and engine text as bytes. */
  datatype Identity = Identity(partNumber: seq<byte>, engine: seq<byte>)

  /** The agent's configured identity. */
  function DefaultIdentity(): Identity
  {
    Identity(Ascii(PartNumber), Ascii(Engine))
  }

  /** The fixed 15-byte block between the part number and the engine text. */
  const IdentBlock: seq<byte> :=
    [0x20, 0x30, 0x30, 0x31, 0x30, 0x10, 0x00, 0x00, 0x00, 0x00, 0x01, 0x02, 0x03, 0x04, 0x05]

  /**
   * A text field of width n as `"{:<n}".format(s)` packed with struct's `ns`:
   * left-justified, padded with spaces, and cut to n bytes when longer.
   */
  function Field(s: seq<byte>, n: nat): (r: seq<byte>)
    ensures |r| == n
    ensures forall i :: 0 <= i < n ==> r[i] == if i < |s| then s[i] else Space
  {
    if |s| >= n then s[..n] else s + seq(n - |s|, _ => Space)
  }

  /** A field read back: its trailing spaces removed. */
  function TrimSpaces(f: seq<byte>): (r: seq<byte>)
    ensures |r| <= |f| && r == f[..|r|]
    ensures r == [] || r[|r| - 1] != Space
    ensures forall i :: |r| <= i < |f| ==> f[i] == Space
  {
    if f == [] || f[|f| - 1] != Space then f else TrimSpaces(f[..|f| - 1])
  }

  /** Text that fits its field and does not end in a space reads back unchanged. */
  lemma FieldReadsBack(s: seq<byte>, n: nat)
    requires |s| <= n
    requires s == [] || s[|s| - 1] != Space
    ensures TrimSpaces(Field(s, n)) == s
  {
  }

  /** The 46 data bytes of the item-number response. */
  function ItemNumberData(part: seq<byte>, engine: seq<byte>): (r: seq<byte>)
    ensures |r| == 46
    ensures r[11..26] == IdentBlock
  {
    Field(part, 11) + IdentBlock + Field(engine, 20)
  }

  /** Each field of the item-number data reads back as the text put in it. */
  lemma ItemNumberDataReadsBack(part: seq<byte>, engine: seq<byte>)
    requires |part| <= 11 && (part == [] || part[|part| - 1] != Space)
    requires |engine| <= 20 && (engine == [] || engine[|engine| - 1] != Space)
    ensures var r := ItemNumberData(part, engine);
      TrimSpaces(r[..11]) == part && r[11..26] == IdentBlock && TrimSpaces(r[26..]) == engine
  {
    var r := ItemNumberData(part, engine);
    assert r[..11] == Field(part, 11);
    assert r[26..] == Field(engine, 20);
    FieldReadsBack(part, 11);
    FieldReadsBack(engine, 20);
  }

  /** The response `send_item_number` hands to the transport. */
  function ItemNumberMessage(id: Identity): (m: KwpMessage)
    ensures m.opcode == ReadEcuIdentificationResp && m.param == ItemNumberParam
    ensures |m.Bytes()| == 48
  {
    KwpMessage(ReadEcuIdentificationResp, ItemNumberParam, ItemNumberData(id.partNumber, id.engine))
  }

  /** The response's bytes: the part number exactly filling its field, the engine text padded by five spaces. */
  lemma ItemNumberMessageBytes()
    ensures ItemNumberMessage(DefaultIdentity()).Bytes() ==
      [0x5a, 0x9b] + Ascii(PartNumber) + IdentBlock + Ascii(Engine) + [Space, Space, Space, Space, Space]
  {
    var part, engine := Ascii(PartNumber), Ascii(Engine);
    assert Field(part, 11) == part;
    assert Field(engine, 20) == engine + [Space, Space, Space, Space, Space];
  }
}
