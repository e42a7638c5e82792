/** Handshake fragments on the wire (section 4.2.2 of RFC 6347; dtls1_parse_fragment). */
module DtlsWire {
  import opened Bytes

  const HM_HEADER_LENGTH := 12

  /** SSL_MAX_HANDSHAKE_FLIGHT, and the range of the 16-bit message numbers. */
  const MAX_FLIGHT := 7
  const SEQ_MODULUS := 0x1_0000

  /** hm_header_st. */
  datatype Header = Header(typ: byte, msgLen: nat, seqNo: nat, fragOff: nat, fragLen: nat)
  {
    predicate Fits() {
      msgLen < 0x100_0000 && seqNo < 0x1_0000 && fragOff < 0x100_0000 && fragLen < 0x100_0000
    }
  }

  /** The header of a message sent as one fragment. */
  function WholeHeader(typ: byte, seqNo: nat, msgLen: nat): Header {
    Header(typ, msgLen, seqNo, 0, msgLen)
  }

  function PutHeader(h: Header): (s: seq<byte>)
    ensures |s| == HM_HEADER_LENGTH
  {
    [h.typ] + PutBe(h.msgLen, 3) + PutBe(h.seqNo, 2) + PutBe(h.fragOff, 3) + PutBe(h.fragLen, 3)
  }

  /** The twelve bytes of section 4.2.2 of RFC 6347, most significant byte first. */
  lemma HeaderBytes(h: Header)
    requires h.Fits()
    ensures PutHeader(h)
         == [h.typ,
             h.msgLen / 0x1_0000, h.msgLen / 0x100 % 0x100, h.msgLen % 0x100,
             h.seqNo / 0x100, h.seqNo % 0x100,
             h.fragOff / 0x1_0000, h.fragOff / 0x100 % 0x100, h.fragOff % 0x100,
             h.fragLen / 0x1_0000, h.fragLen / 0x100 % 0x100, h.fragLen % 0x100]
  {
    TwoBytes(h.seqNo);
    ThreeBytes(h.msgLen);
    ThreeBytes(h.fragOff);
    ThreeBytes(h.fragLen);
    hide PutBe;
  }

  lemma TwoBytes(x: nat)
    requires x < 0x1_0000
    ensures PutBe(x, 2) == [x / 0x100, x % 0x100]
  {
    assert PutBe(x / 256, 1) == PutBe(x / 256 / 256, 0) + [x / 256 % 256];
  }

  lemma ThreeBytes(x: nat)
    requires x < 0x100_0000
    ensures PutBe(x, 3) == [x / 0x1_0000, x / 0x100 % 0x100, x % 0x100]
  {
    TwoBytes(x / 256);
  }

  datatype Parsed = Parsed(header: Header, body: seq<byte>, rest: seq<byte>)

  /** dtls1_parse_fragment: a header, the fragment's bytes, and what follows them. */
  function ParseFragment(s: seq<byte>): (r: Option<Parsed>)
    ensures r.Some? ==> |r.value.rest| < |s| && |r.value.body| == r.value.header.fragLen
  {
    if |s| < HM_HEADER_LENGTH then None
    else
      var h := Header(s[0], GetBe(s[1..4]), GetBe(s[4..6]), GetBe(s[6..9]), GetBe(s[9..12]));
      if |s| - HM_HEADER_LENGTH < h.fragLen then None
      else Some(Parsed(h, s[12..12 + h.fragLen], s[12 + h.fragLen..]))
  }

  lemma ParsePut(h: Header, body: seq<byte>, rest: seq<byte>)
    requires h.Fits() && |body| == h.fragLen
    ensures ParseFragment(PutHeader(h) + body + rest) == Some(Parsed(h, body, rest))
  {
    var s := PutHeader(h) + body + rest;
    Pow256Values();
    GetPut(h.msgLen, 3);
    GetPut(h.seqNo, 2);
    GetPut(h.fragOff, 3);
    GetPut(h.fragLen, 3);
    assert s[1..4] == PutBe(h.msgLen, 3);
    assert s[4..6] == PutBe(h.seqNo, 2);
    assert s[6..9] == PutBe(h.fragOff, 3);
    assert s[9..12] == PutBe(h.fragLen, 3);
    assert s[12..12 + h.fragLen] == body && s[12 + h.fragLen..] == rest;
  }

  /** Whatever parses has a header whose fields fit, and is the serialisation of what was parsed. */
  lemma PutParse(s: seq<byte>)
    requires ParseFragment(s).Some?
    ensures var p := ParseFragment(s).value;
            p.header.Fits() && s == PutHeader(p.header) + p.body + p.rest
  {
    var p := ParseFragment(s).value;
    Pow256Values();
    GetBound(s[1..4]);
    GetBound(s[4..6]);
    GetBound(s[6..9]);
    GetBound(s[9..12]);
    PutGet(s[1..4]);
    PutGet(s[4..6]);
    PutGet(s[6..9]);
    PutGet(s[9..12]);
    assert PutHeader(p.header) == [s[0]] + s[1..4] + s[4..6] + s[6..9] + s[9..12] == s[..12];
  }
}
