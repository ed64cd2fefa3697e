/**
 An agent on the wire: what snmp_getnext of netpulse/l2map.py makes of standard responses, and so what a
 walk returns.
 */
module SnmpAgent {
  import opened Wrappers
  import opened ByteStrings
  import opened OidText
  import opened Ber
  import opened SnmpResponse
  import SnmpWalk

  type Val = SnmpWalk.Val

  /** _val_convert, of whose text results only the tag and the octets decide. */
  type Conversion = (Byte, Bytes) -> Val

  /** The list snmp_getnext returns for the parsed varbinds; "?" stands for an identifier without octets. */
  function Shown(vs: seq<Varbind>, conv: Conversion): SnmpWalk.Reply
  {
    seq(|vs|, i requires 0 <= i < |vs| =>
      (if vs[i].oid.Some? then Text(vs[i].oid.value) else "?", conv(vs[i].tag, vs[i].raw)))
  }

  /** The parts of a response message, each with its contents. */
  datatype Message = Message(version: Bytes, versionContent: Bytes, community: Bytes, communityContent: Bytes,
                             pdu: Bytes, id: Bytes, idContent: Bytes, status: Bytes, statusContent: Bytes,
                             index: Bytes, indexContent: Bytes, list: Bytes)

  /** data is a Response-PDU message of the varbinds in some definite-length encoding. */
  ghost predicate Spells(data: Bytes, m: Message, items: seq<Item>)
  {
    && Encodes(m.version, 0x02, m.versionContent) && Encodes(m.community, 0x04, m.communityContent)
    && Encodes(m.id, 0x02, m.idContent) && Encodes(m.status, 0x02, m.statusContent)
       && Encodes(m.index, 0x02, m.indexContent)
    && AllEncoded(items) && Encodes(m.list, 0x30, Joined(items))
    && Encodes(m.pdu, 0xA2, m.id + m.status + m.index + m.list)
    && Encodes(data, 0x30, m.version + m.community + m.pdu)
  }

  /** The varbinds and the error status a response carries. */
  ghost predicate Carries(data: Bytes, items: seq<Item>, status: nat)
  {
    exists m :: Spells(data, m, items) && FromBytes(m.statusContent) == status
  }

  lemma CarriedParses(data: Bytes, items: seq<Item>, status: nat)
    requires Carries(data, items, status)
    ensures ParseResponse(data) == if status == 0 then Read(items) else []
  {
    hide Encodes, AllEncoded, ParseResponse, ParsePdu, Joined, Read, FromBytes;
    var m :| Spells(data, m, items) && FromBytes(m.statusContent) == status;
    PduParses(m.id, m.status, m.index, m.list, m.idContent, m.statusContent, m.indexContent, items);
    ResponseParses(data, m.version, m.community, m.pdu, m.versionContent, m.communityContent, 0xA2,
                   m.id + m.status + m.index + m.list, if status == 0 then Read(items) else []);
  }

  /** An identifier snmp_getnext can send and _oid_dec gives back. */
  predicate Plain(oid: Oid) { OidContent(oid).Ok? && oid[1] < 40 }

  /** A varbind for an entry: its identifier octets, and a value the conversion shows. */
  predicate Binds(it: Item, entry: (Oid, Val), conv: Conversion)
  {
    OidContent(entry.0) == Ok(it.oid) && conv(it.tag, it.raw) == entry.1
  }

  /** A standard response that carries one entry gives exactly the pair a walk expects of it. */
  lemma EntryParses(data: Bytes, it: Item, entry: (Oid, Val), conv: Conversion)
    requires Carries(data, [it], 0) && Binds(it, entry, conv) && Plain(entry.0)
    ensures Shown(ParseResponse(data), conv) == [SnmpWalk.Named(entry)]
  {
    hide ParseResponse, Carries, OidContent, OidParts;
    CarriedParses(data, [it], 0);
    OidRoundTripIff(entry.0);
    assert Read([it]) == [Varbind(OidParts(it.oid), it.tag, it.raw)];
    assert Shown(Read([it]), conv) == [(Text(entry.0), entry.1)];
  }

  /**
   What an agent with a table sends back for an identifier, as in section 4.2.2 of RFC 3416: the entry
   after it; past the last one an error status, or (v2c) the identifier itself with endOfMibView.
   */
  ghost predicate Answers(data: Bytes, table: SnmpWalk.Table, oid: Oid, repeats: bool, eom: Val, conv: Conversion)
  {
    var i := SnmpWalk.Passed(table, oid);
    if i < |table| then exists it :: Carries(data, [it], 0) && Binds(it, table[i], conv)
    else if repeats then exists it :: Carries(data, [it], 0) && Binds(it, (oid, eom), conv)
    else exists items, status: nat :: Carries(data, items, status) && status != 0
  }

  /** snmp_getnext turns every such response into what GETNEXT is for. */
  lemma AnswerIsGetNext(data: Bytes, table: SnmpWalk.Table, oid: Oid, repeats: bool, eom: Val, conv: Conversion)
    requires Answers(data, table, oid, repeats, eom, conv) && Plain(oid) && forall e <- table :: Plain(e.0)
    ensures Shown(ParseResponse(data), conv) == SnmpWalk.GetNext(table, oid, repeats, eom)
  {
    hide ParseResponse, Carries, Shown;
    var i := SnmpWalk.Passed(table, oid);
    if i < |table| {
      var it :| Carries(data, [it], 0) && Binds(it, table[i], conv);
      assert table[i] in table;
      EntryParses(data, it, table[i], conv);
    } else if repeats {
      var it :| Carries(data, [it], 0) && Binds(it, (oid, eom), conv);
      EntryParses(data, it, (oid, eom), conv);
    } else {
      var items, status: nat :| Carries(data, items, status) && status != 0;
      CarriedParses(data, items, status);
      NothingShown(conv);
    }
  }

  lemma NothingShown(conv: Conversion)
    ensures Shown([], conv) == []
  {
  }

  // ---------- the request ----------

  /** The parts of a request fit in memory together. */
  predicate Writable(id: nat, community: Bytes, oid: Bytes)
  {
    |IntContent(id)| + |community| + |oid| < 0x1_0000_0000
  }

  lemma TlvLength(tag: Byte, content: Bytes)
    requires |content| < MAX_LEN
    ensures |content| + 2 <= |Tlv(tag, content)| <= |content| + 11
  {
    if |content| >= 0x80 { LongTlvShape(tag, content); }
  }

  /** The list of varbinds of a request: one identifier, and no value. */
  function VarbindList(oid: Bytes): (r: Bytes)
    requires |oid| < 0x1_0000_0000
    ensures |oid| + 6 <= |r| <= |oid| + 33
  {
    TlvLength(0x06, oid);
    TlvLength(0x05, []);
    TlvLength(0x30, Tlv(0x06, oid) + Tlv(0x05, []));
    Tlv(0x30, Tlv(0x06, oid) + Tlv(0x05, []))
  }

  function PduContent(id: nat, oid: Bytes): (r: Bytes)
    requires |IntContent(id)| + |oid| < 0x1_0000_0000
    ensures |IntContent(id)| + |VarbindList(oid)| + 4 <= |r| <= |IntContent(id)| + |oid| + 100
  {
    TlvLength(0x02, IntContent(id));
    TlvLength(0x02, [0]);
    TlvLength(0x30, VarbindList(oid));
    Tlv(0x02, IntContent(id)) + Tlv(0x02, [0]) + Tlv(0x02, [0]) + Tlv(0x30, VarbindList(oid))
  }

  function RequestContent(id: nat, community: Bytes, oid: Bytes): (r: Bytes)
    requires Writable(id, community, oid)
    ensures |community| + |PduContent(id, oid)| + 4 <= |r| < MAX_LEN
  {
    TlvLength(0x02, [1]);
    TlvLength(0x04, community);
    TlvLength(0xA1, PduContent(id, oid));
    Tlv(0x02, [1]) + Tlv(0x04, community) + Tlv(0xA1, PduContent(id, oid))
  }

  /** The packet snmp_getnext sends. */
  function Request(id: nat, community: Bytes, oid: Bytes): Bytes
    requires Writable(id, community, oid)
  {
    Tlv(0x30, RequestContent(id, community, oid))
  }

  /** The small numbers of a request are _int_enc of themselves. */
  lemma SmallInts()
    ensures IntContent(0) == [0] && IntContent(1) == [1]
  {
  }

  /** data is a GetNextRequest-PDU message for one identifier and no value, in some definite-length encoding. */
  ghost predicate IsGetNext(data: Bytes, id: nat, community: Bytes, oid: Bytes)
  {
    exists m: Message, name: Bytes, none: Bytes, varbind: Bytes ::
      Asks(data, id, community, oid, m, name, none, varbind)
  }

  ghost predicate Asks(data: Bytes, id: nat, community: Bytes, oid: Bytes, m: Message, name: Bytes, none: Bytes,
                       varbind: Bytes)
  {
    && Encodes(m.version, 0x02, [1]) && Encodes(m.community, 0x04, community)
    && Encodes(m.id, 0x02, IntContent(id)) && Encodes(m.status, 0x02, [0]) && Encodes(m.index, 0x02, [0])
    && Encodes(name, 0x06, oid) && Encodes(none, 0x05, []) && Encodes(varbind, 0x30, name + none)
    && Encodes(m.list, 0x30, varbind) && Encodes(m.pdu, 0xA1, m.id + m.status + m.index + m.list)
    && Encodes(data, 0x30, m.version + m.community + m.pdu)
  }

  /** _tlv writes an encoding of anything at all exactly when its content is shorter than 128 octets. */
  lemma TlvStandardIff(tag: Byte, content: Bytes)
    requires |content| < MAX_LEN
    ensures (exists c :: Encodes(Tlv(tag, content), tag, c)) <==> |content| < 0x80
  {
    if |content| < 0x80 {
      ShortTlvEncodes(tag, content);
    } else {
      hide Len, FromBytes;
      var d := Digits(|content|, 128);
      LongTlvShape(tag, content);
      ReadAsMore(|content|);
      assert forall c :: Encodes(Tlv(tag, content), tag, c) ==> FromBytes(d) == |content| by {
        forall c | Encodes(Tlv(tag, content), tag, c) ensures FromBytes(d) == |content| {
          LongFormMeans(Tlv(tag, content), tag, d, content, c);
        }
      }
    }
  }

  /** Behind a long-form length its octets say how long the content is. */
  lemma LongFormMeans(e: Bytes, tag: Byte, d: Bytes, content: Bytes, c: Bytes)
    requires 1 <= |d| <= 9 && e == [tag, 0x80 + |d|] + d + content && Encodes(e, tag, c)
    ensures c == content && FromBytes(d) == |content|
  {
    hide FromBytes;
    var k :| 2 <= k <= |e| && e[0] == tag && LengthOctets(e[1..k], |c|) && e[k..] == c;
    assert e[1..k][0] == e[1] == 0x80 + |d|;
    assert k == 2 + |d|;
    assert e[1..k][1..] == e[2..k] == d;
    assert e[k..] == content;
  }

  /** The request is a GETNEXT in a definite-length encoding exactly when its content is shorter than 128 octets. */
  lemma RequestIsStandardIff(id: nat, community: Bytes, oid: Bytes)
    requires Writable(id, community, oid)
    ensures IsGetNext(Request(id, community, oid), id, community, oid)
       <==> |RequestContent(id, community, oid)| < 0x80
  {
    hide Tlv, Encodes, IntContent, IsGetNext;
    TlvStandardIff(0x30, RequestContent(id, community, oid));
    if IsGetNext(Request(id, community, oid), id, community, oid) {
      GetNextEncodes(Request(id, community, oid), id, community, oid);
    }
    if |RequestContent(id, community, oid)| < 0x80 {
      ShortRequest(id, community, oid);
    }
  }

  lemma GetNextEncodes(data: Bytes, id: nat, community: Bytes, oid: Bytes)
    requires IsGetNext(data, id, community, oid)
    ensures exists c :: Encodes(data, 0x30, c)
  {
    hide Encodes;
    var m: Message, name, none, varbind :| Asks(data, id, community, oid, m, name, none, varbind);
    assert Encodes(data, 0x30, m.version + m.community + m.pdu);
  }

  lemma ShortRequest(id: nat, community: Bytes, oid: Bytes)
    requires Writable(id, community, oid) && |RequestContent(id, community, oid)| < 0x80
    ensures IsGetNext(Request(id, community, oid), id, community, oid)
  {
    hide Tlv, IntContent, Encodes;
    var name, none, zero := Tlv(0x06, oid), Tlv(0x05, []), Tlv(0x02, [0]);
    var varbind := VarbindList(oid);
    var pdu := PduContent(id, oid);
    var m := Message(Tlv(0x02, [1]), [1], Tlv(0x04, community), community, Tlv(0xA1, pdu), Tlv(0x02, IntContent(id)),
                     IntContent(id), zero, [0], zero, [0], Tlv(0x30, varbind));
    TlvLength(0x06, oid);
    TlvLength(0x05, []);
    TlvLength(0x30, name + none);
    ShortTlvEncodes(0x02, [1]);
    ShortTlvEncodes(0x04, community);
    ShortTlvEncodes(0xA1, pdu);
    ShortTlvEncodes(0x02, IntContent(id));
    ShortTlvEncodes(0x02, [0]);
    ShortTlvEncodes(0x30, varbind);
    ShortTlvEncodes(0x30, name + none);
    ShortTlvEncodes(0x06, oid);
    ShortTlvEncodes(0x05, []);
    ShortTlvEncodes(0x30, RequestContent(id, community, oid));
    assert Asks(Request(id, community, oid), id, community, oid, m, name, none, varbind);
  }

  // ---------- the walk ----------

  /** The request for an identifier can be written and is short enough for the lengths `_len` writes. */
  predicate ShortFor(id: nat, community: Bytes, oid: Oid)
  {
    Plain(oid) && Writable(id, community, OidContent(oid).value)
    && |RequestContent(id, community, OidContent(oid).value)| < 0x80
  }

  /** What a walk sees of an agent that answers every standard GETNEXT the walk can send. */
  ghost predicate Heard(agent: SnmpWalk.Agent, wire: (nat, Oid) -> Bytes, ids: nat -> nat, community: Bytes,
                        table: SnmpWalk.Table, base: Oid, repeats: bool, eom: Val, conv: Conversion)
  {
    forall n: nat, oid: Oid {:trigger agent(n, Text(oid))} ::
      SnmpWalk.Asked(table, base, oid) && Plain(oid) && Writable(ids(n), community, OidContent(oid).value) ==>
      && agent(n, Text(oid)) == Shown(ParseResponse(wire(n, oid)), conv)
      && var content := OidContent(oid).value;
         IsGetNext(Request(ids(n), community, content), ids(n), community, content)
         ==> Answers(wire(n, oid), table, oid, repeats, eom, conv)
  }

  /** Every request the walk can send is short. */
  ghost predicate AllShort(ids: nat -> nat, community: Bytes, table: SnmpWalk.Table, base: Oid)
  {
    forall n: nat, oid: Oid {:trigger ShortFor(ids(n), community, oid)} ::
      SnmpWalk.Asked(table, base, oid) ==> ShortFor(ids(n), community, oid)
  }

  /** From the octets of the requests and the responses to the result: a walk is exact in the same cases. */
  lemma WalkOnWireIff(agent: SnmpWalk.Agent, wire: (nat, Oid) -> Bytes, ids: nat -> nat, community: Bytes,
                      table: SnmpWalk.Table, base: Oid, repeats: bool, eom: Val, conv: Conversion, limit: nat)
    requires Heard(agent, wire, ids, community, table, base, repeats, eom, conv) && SnmpWalk.Sorted(table)
    requires AllShort(ids, community, table, base) && Plain(base) && forall e <- table :: Plain(e.0)
    ensures SnmpWalk.WalkFrom(agent, Text(base), limit, Text(base), 0, []).0 == SnmpWalk.Wanted(table, base, limit)
       <==> (!repeats || SnmpWalk.GoesOn(table, base) || SnmpWalk.Subtree(table, base) == []
             || |SnmpWalk.Subtree(table, base)| >= limit)
  {
    hide SnmpWalk.GetNext, SnmpWalk.Sorted, Answers, ParseResponse, Shown, IsGetNext, Request, RequestContent;
    forall n: nat, oid: Oid | SnmpWalk.Asked(table, base, oid)
      ensures agent(n, Text(oid)) == SnmpWalk.GetNext(table, oid, repeats, eom)
    {
      var reply := agent(n, Text(oid));
      assert ShortFor(ids(n), community, oid);
      RequestIsStandardIff(ids(n), community, OidContent(oid).value);
      AnswerIsGetNext(wire(n, oid), table, oid, repeats, eom, conv);
    }
    SnmpWalk.WalkExactIff(agent, table, base, repeats, eom, limit);
  }
}
