/** The response parser inside snmp_getnext (netpulse/l2map.py), over every definite-length BER response. */
module SnmpResponse {
  import opened Wrappers
  import opened ByteStrings
  import opened OidText
  import opened Ber

  /** A decoded varbind; the identifier is absent for empty content, where the code writes "?". */
  datatype Varbind = Varbind(oid: Option<Oid>, tag: Byte, raw: Bytes)

  function ParseVarbind(content: Bytes): Result<Varbind, IndexError>
  {
    match TlvParse(content, 0)
    case Err(e) => Err(e)
    case Ok(o) =>
      match TlvParse(content, o.next)
      case Err(e) => Err(e)
      case Ok(v) => Ok(Varbind(OidParts(o.content), v.tag, v.content))
  }

  function ParseVarbinds(list: Bytes, q: nat, out: seq<Varbind>): Result<seq<Varbind>, IndexError>
    decreases |list| - q
  {
    if q >= |list| then Ok(out)
    else
      match TlvParse(list, q)
      case Err(e) => Err(e)
      case Ok(t) =>
        if t.tag != 0x30 then Ok(out)
        else
          match ParseVarbind(t.content)
          case Err(e) => Err(e)
          case Ok(v) => ParseVarbinds(list, t.next, out + [v])
  }

  /** The third field from pos on, after two that are skipped. */
  function SkipTwo(buf: Bytes, pos: nat): Result<nat, IndexError>
  {
    match TlvParse(buf, pos)
    case Err(e) => Err(e)
    case Ok(a) =>
      match TlvParse(buf, a.next)
      case Err(e) => Err(e)
      case Ok(b) => Ok(b.next)
  }

  function ParsePdu(pdu: Bytes): Result<seq<Varbind>, IndexError>
  {
    match TlvParse(pdu, 0)
    case Err(e) => Err(e)
    case Ok(id) =>
      match TlvParse(pdu, id.next)
      case Err(e) => Err(e)
      case Ok(status) =>
        match TlvParse(pdu, status.next)
        case Err(e) => Err(e)
        case Ok(index) =>
          match TlvParse(pdu, index.next)
          case Err(e) => Err(e)
          case Ok(list) =>
            if list.tag != 0x30 || FromBytes(status.content) != 0 then Ok([])
            else ParseVarbinds(list.content, 0, [])
  }

  /** The pairs of a response; none on an error status or on anything that raises. */
  function ParseResponse(data: Bytes): seq<Varbind>
  {
    match TlvParse(data, 0)
    case Err(_) => []
    case Ok(outer) =>
      match SkipTwo(outer.content, 0)
      case Err(_) => []
      case Ok(pos) =>
        match TlvParse(outer.content, pos)
        case Err(_) => []
        case Ok(pdu) =>
          match ParsePdu(pdu.content)
          case Err(_) => []
          case Ok(out) => out
  }

  method ReadVarbinds(list: Bytes) returns (r: Result<seq<Varbind>, IndexError>)
    ensures r == ParseVarbinds(list, 0, [])
  {
    var out: seq<Varbind> := [];
    var q := 0;
    while q < |list|
      invariant ParseVarbinds(list, q, out) == ParseVarbinds(list, 0, [])
      decreases |list| - q
    {
      var t := TlvParse(list, q);
      if t.Err? { return Err(t.error); }
      q := t.value.next;
      if t.value.tag != 0x30 { break; }
      var v := ParseVarbind(t.value.content);
      if v.Err? { return Err(v.error); }
      out := out + [v.value];
    }
    return Ok(out);
  }

  // ---------- every standard encoding is understood ----------

  lemma ParsesAt(buf: Bytes, pos: nat, e: Bytes, tag: Byte, content: Bytes)
    requires Encodes(e, tag, content) && pos + |e| <= |buf| && buf[pos..pos + |e|] == e
    ensures TlvParse(buf, pos) == Ok(Parsed(tag, content, pos + |e|))
  {
    assert buf == buf[..pos] + e + buf[pos + |e|..];
    ParsesStandard(buf[..pos], e, buf[pos + |e|..], tag, content);
  }

  lemma EncodedNonEmpty(e: Bytes, tag: Byte, content: Bytes)
    requires Encodes(e, tag, content)
    ensures |e| >= 2
  {
  }

  /** e is a varbind SEQUENCE of the identifier octets and the value. */
  ghost predicate VarbindEncoded(e: Bytes, oid: Bytes, tag: Byte, raw: Bytes)
  {
    exists o: Bytes, v: Bytes :: Encodes(o, 0x06, oid) && Encodes(v, tag, raw) && Encodes(e, 0x30, o + v)
  }

  lemma VarbindParses(e: Bytes, oid: Bytes, tag: Byte, raw: Bytes)
    requires VarbindEncoded(e, oid, tag, raw)
    ensures exists c :: Encodes(e, 0x30, c) && ParseVarbind(c) == Ok(Varbind(OidParts(oid), tag, raw))
  {
    hide TlvParse, Encodes;
    var o: Bytes, v: Bytes :| Encodes(o, 0x06, oid) && Encodes(v, tag, raw) && Encodes(e, 0x30, o + v);
    ParsesAt(o + v, 0, o, 0x06, oid);
    ParsesAt(o + v, |o|, v, tag, raw);
  }

  /** What a response carries: for each varbind its encoding, identifier octets, value tag and value. */
  datatype Item = Item(e: Bytes, oid: Bytes, tag: Byte, raw: Bytes)

  ghost predicate AllEncoded(items: seq<Item>)
  {
    forall i :: 0 <= i < |items| ==> VarbindEncoded(items[i].e, items[i].oid, items[i].tag, items[i].raw)
  }

  function Joined(items: seq<Item>): Bytes
  {
    if items == [] then [] else items[0].e + Joined(items[1..])
  }

  function Read(items: seq<Item>): seq<Varbind>
  {
    if items == [] then [] else [Varbind(OidParts(items[0].oid), items[0].tag, items[0].raw)] + Read(items[1..])
  }

  lemma {:induction false} VarbindsParse(list: Bytes, q: nat, items: seq<Item>, out: seq<Varbind>)
    requires AllEncoded(items) && q <= |list| && list[q..] == Joined(items)
    ensures ParseVarbinds(list, q, out) == Ok(out + Read(items))
    decreases |items|
  {
    hide TlvParse, Encodes;
    if items == [] {
      assert out + Read(items) == out;
    } else {
      var it := items[0];
      VarbindParses(it.e, it.oid, it.tag, it.raw);
      var c :| Encodes(it.e, 0x30, c) && ParseVarbind(c) == Ok(Varbind(OidParts(it.oid), it.tag, it.raw));
      EncodedNonEmpty(it.e, 0x30, c);
      assert list[q..q + |it.e|] == list[q..][..|it.e|] == it.e;
      ParsesAt(list, q, it.e, 0x30, c);
      assert list[q + |it.e|..] == list[q..][|it.e|..] == Joined(items[1..]);
      var v := Varbind(OidParts(it.oid), it.tag, it.raw);
      VarbindsParse(list, q + |it.e|, items[1..], out + [v]);
      assert out + [v] + Read(items[1..]) == out + Read(items);
    }
  }

  /** The four fields of a PDU: request-id, error-status, error-index, varbind list. */
  lemma PduParses(id: Bytes, status: Bytes, index: Bytes, list: Bytes,
                  idContent: Bytes, statusContent: Bytes, indexContent: Bytes, items: seq<Item>)
    requires Encodes(id, 0x02, idContent) && Encodes(status, 0x02, statusContent) && Encodes(index, 0x02, indexContent)
    requires Encodes(list, 0x30, Joined(items)) && AllEncoded(items)
    ensures ParsePdu(id + status + index + list)
         == Ok(if FromBytes(statusContent) == 0 then Read(items) else [])
  {
    hide TlvParse, Encodes;
    var pdu := id + status + index + list;
    var a, b, c := |id|, |id + status|, |id + status + index|;
    assert pdu[0..a] == id && pdu[a..b] == status && pdu[b..c] == index && pdu[c..c + |list|] == list;
    ParsesAt(pdu, 0, id, 0x02, idContent);
    ParsesAt(pdu, a, status, 0x02, statusContent);
    ParsesAt(pdu, b, index, 0x02, indexContent);
    ParsesAt(pdu, c, list, 0x30, Joined(items));
    VarbindsParse(Joined(items), 0, items, []);
    assert Joined(items)[0..] == Joined(items) && [] + Read(items) == Read(items);
  }

  /**
   Any response in definite-length BER is read back: with error status zero, exactly its
   varbinds in order; with any other status, nothing.
   */
  lemma ResponseParses(data: Bytes, version: Bytes, community: Bytes, pdu: Bytes, versionContent: Bytes,
                       communityContent: Bytes, pduTag: Byte, fields: Bytes, expected: seq<Varbind>)
    requires Encodes(version, 0x02, versionContent) && Encodes(community, 0x04, communityContent)
    requires Encodes(pdu, pduTag, fields) && Encodes(data, 0x30, version + community + pdu)
    requires ParsePdu(fields) == Ok(expected)
    ensures ParseResponse(data) == expected
  {
    hide TlvParse, Encodes;
    var outer := version + community + pdu;
    var a, b := |version|, |version + community|;
    ParsesAt(data, 0, data, 0x30, outer);
    assert outer[0..a] == version && outer[a..b] == community && outer[b..b + |pdu|] == pdu;
    ParsesAt(outer, 0, version, 0x02, versionContent);
    ParsesAt(outer, a, community, 0x04, communityContent);
    ParsesAt(outer, b, pdu, pduTag, fields);
  }

  // ---------- what is not a list of varbinds ----------

  /** A list ends at the first item that is no SEQUENCE: what comes before is kept, what comes after is not read. */
  lemma {:induction false} ListEnds(list: Bytes, q: nat, items: seq<Item>, out: seq<Varbind>, e: Bytes, tag: Byte,
                                    content: Bytes, rest: Bytes)
    requires AllEncoded(items) && Encodes(e, tag, content) && tag != 0x30
    requires q <= |list| && list[q..] == Joined(items) + (e + rest)
    ensures ParseVarbinds(list, q, out) == Ok(out + Read(items))
    decreases |items|
  {
    hide TlvParse, Encodes;
    if items == [] {
      EncodedNonEmpty(e, tag, content);
      assert list[q..] == e + rest && list[q..q + |e|] == list[q..][..|e|] == e;
      ParsesAt(list, q, e, tag, content);
      assert out + Read(items) == out;
    } else {
      hide ParseVarbinds;
      var v := NextItem(list, q, items, out, e + rest);
      ListEnds(list, q + |items[0].e|, items[1..], out + [v], e, tag, content, rest);
      assert out + [v] + Read(items[1..]) == out + Read(items);
    }
  }

  /** The first item of a list, and the rest. */
  lemma NextItem(list: Bytes, q: nat, items: seq<Item>, out: seq<Varbind>, rest: Bytes) returns (v: Varbind)
    requires AllEncoded(items) && items != [] && q <= |list| && list[q..] == Joined(items) + rest
    ensures v == Varbind(OidParts(items[0].oid), items[0].tag, items[0].raw) && [v] + Read(items[1..]) == Read(items)
    ensures q + |items[0].e| <= |list| && list[q + |items[0].e|..] == Joined(items[1..]) + rest
    ensures ParseVarbinds(list, q, out) == ParseVarbinds(list, q + |items[0].e|, out + [v])
  {
    hide TlvParse, Encodes, ParseVarbinds, ParseVarbind;
    var it, more := items[0], Joined(items[1..]) + rest;
    v := Varbind(OidParts(it.oid), it.tag, it.raw);
    VarbindParses(it.e, it.oid, it.tag, it.raw);
    var c :| Encodes(it.e, 0x30, c) && ParseVarbind(c) == Ok(v);
    EncodedNonEmpty(it.e, 0x30, c);
    assert list[q..] == it.e + more;
    HeadOf(list, q, it.e, more);
    ParsesAt(list, q, it.e, 0x30, c);
    ReadOne(list, q, out, c, q + |it.e|, v);
  }

  lemma HeadOf(list: Bytes, q: nat, e: Bytes, more: Bytes)
    requires q <= |list| && list[q..] == e + more
    ensures q + |e| <= |list| && list[q..q + |e|] == e && list[q + |e|..] == more
  {
    assert list[q..q + |e|] == list[q..][..|e|] && list[q + |e|..] == list[q..][|e|..];
  }

  lemma ReadOne(list: Bytes, q: nat, out: seq<Varbind>, content: Bytes, next: nat, v: Varbind)
    requires q < next <= |list| && TlvParse(list, q) == Ok(Parsed(0x30, content, next))
    requires ParseVarbind(content) == Ok(v)
    ensures ParseVarbinds(list, q, out) == ParseVarbinds(list, next, out + [v])
  {
    hide TlvParse, ParseVarbind;
  }

  /** A list cut off behind the tag of an item raises, and so does one with an item of no content. */
  lemma {:induction false} ListBreaks(list: Bytes, q: nat, items: seq<Item>, out: seq<Varbind>, tail: Bytes)
    requires AllEncoded(items) && q <= |list| && list[q..] == Joined(items) + tail
    requires |tail| == 1 || tail == [0x30, 0]
    ensures ParseVarbinds(list, q, out).Err?
    decreases |items|
  {
    hide Encodes, TlvParse, ParseVarbinds, VarbindEncoded;
    if items == [] {
      assert list[q..] == tail;
      TailBreaks(list, q, out);
    } else {
      var v := NextItem(list, q, items, out, tail);
      ListBreaks(list, q + |items[0].e|, items[1..], out + [v], tail);
    }
  }

  lemma TailBreaks(list: Bytes, q: nat, out: seq<Varbind>)
    requires q <= |list| && (|list[q..]| == 1 || list[q..] == [0x30, 0])
    ensures ParseVarbinds(list, q, out).Err?
  {
    if |list[q..]| == 2 {
      assert list[q] == list[q..][0] && list[q + 1] == list[q..][1];
      assert TlvParse(list, q) == Ok(Parsed(0x30, [], q + 2));
      assert ParseVarbind([]).Err?;
    } else {
      assert TlvParse(list, q).Err?;
    }
  }

  /** A PDU whose fourth field is no SEQUENCE gives nothing. */
  lemma NoListNoVarbinds(id: Bytes, status: Bytes, index: Bytes, list: Bytes, idContent: Bytes, statusContent: Bytes,
                         indexContent: Bytes, tag: Byte, content: Bytes)
    requires Encodes(id, 0x02, idContent) && Encodes(status, 0x02, statusContent) && Encodes(index, 0x02, indexContent)
    requires Encodes(list, tag, content) && tag != 0x30
    ensures ParsePdu(id + status + index + list) == Ok([])
  {
    hide TlvParse, Encodes;
    var pdu := id + status + index + list;
    var a, b, c := |id|, |id + status|, |id + status + index|;
    assert pdu[0..a] == id && pdu[a..b] == status && pdu[b..c] == index && pdu[c..c + |list|] == list;
    ParsesAt(pdu, 0, id, 0x02, idContent);
    ParsesAt(pdu, a, status, 0x02, statusContent);
    ParsesAt(pdu, b, index, 0x02, indexContent);
    ParsesAt(pdu, c, list, tag, content);
  }

  /** A response whose PDU raises gives nothing. */
  lemma BrokenGivesNothing(data: Bytes, version: Bytes, community: Bytes, pdu: Bytes, versionContent: Bytes,
                           communityContent: Bytes, pduTag: Byte, fields: Bytes)
    requires Encodes(version, 0x02, versionContent) && Encodes(community, 0x04, communityContent)
    requires Encodes(pdu, pduTag, fields) && Encodes(data, 0x30, version + community + pdu)
    requires ParsePdu(fields).Err?
    ensures ParseResponse(data) == []
  {
    hide TlvParse, Encodes, ParsePdu;
    var outer := version + community + pdu;
    var a, b := |version|, |version + community|;
    ParsesAt(data, 0, data, 0x30, outer);
    assert outer[0..a] == version && outer[a..b] == community && outer[b..b + |pdu|] == pdu;
    ParsesAt(outer, 0, version, 0x02, versionContent);
    ParsesAt(outer, a, community, 0x04, communityContent);
    ParsesAt(outer, b, pdu, pduTag, fields);
  }

  /** ... and so do data of less than two octets. */
  lemma ShortGivesNothing(data: Bytes)
    requires |data| < 2
    ensures ParseResponse(data) == []
  {
  }
}
