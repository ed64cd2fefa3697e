/** The hand-written BER codec of netpulse/infra.py, with ITU-T X.690 as the reference. */
module Ber {
  import opened Wrappers
  import opened ByteStrings
  import opened OidText

  /** sys.maxsize + 1: no Python bytes object is longer. */
  const MAX_LEN := 0x8000_0000_0000_0000

  /** The big-endian digits of n in base b, none for zero. */
  function Digits(n: nat, b: nat): (s: Bytes)
    requires 2 <= b <= 256
    ensures forall i :: 0 <= i < |s| ==> s[i] < b
    ensures s == [] <==> n == 0
    decreases n
  {
    if n == 0 then [] else Digits(n / b, b) + [n % b]
  }

  // ---------- _len ----------

  function Len(n: nat): Bytes
    requires n < MAX_LEN
  {
    if n < 0x80 then [n]
    else
      FewDigits(n, 9);
      [0x80 + |Digits(n, 128)|] + Digits(n, 128)
  }

  function Power128(k: nat): nat { if k == 0 then 1 else 128 * Power128(k - 1) }

  lemma {:induction false} FewDigits(n: nat, k: nat)
    requires n < Power128(k)
    ensures |Digits(n, 128)| <= k
  {
    if n > 0 {
      FewDigits(n / 128, k - 1);
    }
  }

  method LenEnc(n: nat) returns (r: Bytes)
    requires n < MAX_LEN
    ensures r == Len(n)
  {
    if n < 0x80 { return [n]; }
    var out: Bytes := [];
    var rest := n;
    while rest != 0
      invariant Digits(n, 128) == Digits(rest, 128) + out
    {
      out := [rest % 128] + out;
      rest := rest / 128;
    }
    FewDigits(n, 9);
    return [0x80 + |out|] + out;
  }

  function Tlv(tag: Byte, content: Bytes): Bytes
    requires |content| < MAX_LEN
  {
    [tag] + Len(|content|) + content
  }

  // ---------- _tlv_parse ----------

  /** s[a:b] with Python's clamping. */
  function Slice(s: Bytes, a: nat, b: nat): Bytes
    requires a <= b
  {
    if a >= |s| then [] else if b >= |s| then s[a..] else s[a..b]
  }

  datatype Parsed = Parsed(tag: Byte, content: Bytes, next: nat)

  datatype IndexError = IndexError

  function TlvParse(buf: Bytes, pos: nat): Result<Parsed, IndexError>
  {
    if pos + 1 >= |buf| then Err(IndexError)
    else
      var ln := buf[pos + 1];
      var n := if ln >= 0x80 then ln - 0x80 else 0;
      var size := if ln >= 0x80 then FromBytes(Slice(buf, pos + 2, pos + 2 + n)) else ln;
      var start := pos + 2 + n;
      Ok(Parsed(buf[pos], Slice(buf, start, start + size), start + size))
  }

  /** Length octets of X.690 8.1.3: the short form, or any definite long form. */
  predicate LengthOctets(s: Bytes, n: nat)
  {
    (n < 0x80 && s == [n]) || (2 <= |s| <= 127 && s[0] == 0x7F + |s| && FromBytes(s[1..]) == n)
  }

  /** e is a definite-length BER encoding of the content under the tag. */
  predicate Encodes(e: Bytes, tag: Byte, content: Bytes)
  {
    exists k {:trigger e[k..]} :: 2 <= k <= |e| && e[0] == tag && LengthOctets(e[1..k], |content|) && e[k..] == content
  }

  /** _tlv_parse reads every definite-length encoding, wherever it stands. */
  lemma ParsesStandard(pre: Bytes, e: Bytes, post: Bytes, tag: Byte, content: Bytes)
    requires Encodes(e, tag, content)
    ensures TlvParse(pre + e + post, |pre|) == Ok(Parsed(tag, content, |pre| + |e|))
  {
    hide FromBytes;
    var buf := pre + e + post;
    var p := |pre|;
    var k :| 2 <= k <= |e| && e[0] == tag && LengthOctets(e[1..k], |content|) && e[k..] == content;
    assert buf[p..p + |e|] == e;
    assert buf[p] == e[0] && buf[p + 1] == e[1];
    assert buf[p + 2..p + k] == e[2..k] == e[1..k][1..];
    assert buf[p + k..p + |e|] == content;
    assert Slice(buf, p + k, p + |e|) == content by {
      if p + k == |buf| { assert content == []; }
    }
    if e[1..k] == [|content|] {
      assert k == 2;
    } else {
      assert e[1] == 0x7F + (k - 1);
      assert Slice(buf, p + 2, p + k) == e[2..k] by {
        if p + k == |buf| { assert buf[p + 2..] == buf[p + 2..p + k]; }
      }
    }
  }

  /** Base 128 digits read in base 256 never give less, and give more from 128 on. */
  lemma {:induction false} ReadAsMore(n: nat)
    ensures FromBytes(Digits(n, 128)) >= n
    ensures n >= 0x80 ==> FromBytes(Digits(n, 128)) > n
  {
    if n > 0 {
      ReadAsMore(n / 128);
      assert Digits(n, 128)[..|Digits(n, 128)| - 1] == Digits(n / 128, 128);
    }
  }

  lemma ShortTlvEncodes(tag: Byte, content: Bytes)
    requires |content| < 0x80
    ensures Encodes(Tlv(tag, content), tag, content)
  {
    var e := Tlv(tag, content);
    assert e[1..2] == [|content|] && e[2..] == content;
  }

  lemma SliceMiddle(a: Bytes, b: Bytes, c: Bytes)
    ensures Slice(a + b + c, |a|, |a| + |b|) == b
  {
    if |a| < |a + b + c| {
      assert (a + b + c)[|a|..|a| + |b|] == b;
    }
  }

  /** A tag and a long-form length in front of any octets. */
  lemma ParsesLong(buf: Bytes, head: Bytes, d: Bytes, tail: Bytes)
    requires |d| <= 0x7F && |head| >= 2 && head[|head| - 1] == 0x80 + |d|
    requires buf == head + d + tail
    ensures TlvParse(buf, |head| - 2)
         == Ok(Parsed(head[|head| - 2], Slice(tail, 0, FromBytes(d)), |head| + |d| + FromBytes(d)))
  {
    hide FromBytes, Slice;
    var pos, size := |head| - 2, FromBytes(d);
    assert buf[pos] == head[pos] && buf[pos + 1] == 0x80 + |d|;
    SliceMiddle(head, d, tail);
    SliceShift(head + d, tail, size);
    assert |head + d| == pos + 2 + |d|;
  }

  lemma LongTlvShape(tag: Byte, content: Bytes)
    requires 0x80 <= |content| < MAX_LEN
    ensures |Digits(|content|, 128)| <= 9
    ensures Tlv(tag, content) == [tag, 0x80 + |Digits(|content|, 128)|] + Digits(|content|, 128) + content
  {
    FewDigits(|content|, 9);
  }

  lemma Regroup(a: Bytes, b: Bytes, c: Bytes, d: Bytes, e: Bytes)
    ensures a + (b + c + d) + e == a + b + c + (d + e)
  {
  }

  lemma ParsesLongAt(pre: Bytes, e: Bytes, post: Bytes, tag: Byte, d: Bytes, content: Bytes)
    requires |d| <= 9 && e == [tag, 0x80 + |d|] + d + content
    ensures TlvParse(pre + e + post, |pre|)
         == Ok(Parsed(tag, Slice(content + post, 0, FromBytes(d)), |pre| + |e| - |content| + FromBytes(d)))
  {
    hide FromBytes, TlvParse, Slice;
    var mark := [tag, 0x80 + |d|];
    var head := pre + mark;
    Regroup(pre, mark, d, content, post);
    assert head[|head| - 2] == tag && head[|head| - 1] == 0x80 + |d|;
    ParsesLong(pre + e + post, head, d, content + post);
  }

  /** What _tlv_parse makes of a long _tlv: too long a length, and whatever follows in the buffer. */
  lemma LongTlvParse(pre: Bytes, tag: Byte, content: Bytes, post: Bytes)
    requires 0x80 <= |content| < MAX_LEN
    ensures var size := FromBytes(Digits(|content|, 128));
            var head := |pre| + |Tlv(tag, content)| - |content|;
            size > |content|
            && TlvParse(pre + Tlv(tag, content) + post, |pre|)
            == Ok(Parsed(tag, Slice(content + post, 0, size), head + size))
  {
    hide FromBytes, TlvParse, Slice, Tlv;
    LongTlvShape(tag, content);
    ReadAsMore(|content|);
    ParsesLongAt(pre, Tlv(tag, content), post, tag, Digits(|content|, 128), content);
  }

  lemma SliceShift(a: Bytes, b: Bytes, n: nat)
    ensures Slice(a + b, |a|, |a| + n) == Slice(b, 0, n)
  {
    if b != [] {
      assert (a + b)[|a|..] == b;
      if n < |b| { assert (a + b)[|a|..|a| + n] == b[..n]; }
    }
  }

  /** The exact boundary: content and next position are recovered below 128 bytes and never from there on. */
  lemma TlvRoundTripIff(pre: Bytes, tag: Byte, content: Bytes, post: Bytes)
    requires |content| < MAX_LEN
    ensures TlvParse(pre + Tlv(tag, content) + post, |pre|) == Ok(Parsed(tag, content, |pre| + |Tlv(tag, content)|))
       <==> |content| < 0x80
  {
    if |content| < 0x80 {
      ShortTlvEncodes(tag, content);
      ParsesStandard(pre, Tlv(tag, content), post, tag, content);
    } else {
      LongTlvParse(pre, tag, content, post);
    }
  }

  /** The content alone is also recovered when nothing follows it, the slice being clamped. */
  lemma ContentRecoveredIff(pre: Bytes, tag: Byte, content: Bytes, post: Bytes)
    requires |content| < MAX_LEN
    ensures var r := TlvParse(pre + Tlv(tag, content) + post, |pre|);
            r.Ok? && (r.value.content == content <==> |content| < 0x80 || post == [])
  {
    if |content| < 0x80 {
      TlvRoundTripIff(pre, tag, content, post);
    } else {
      LongTlvParse(pre, tag, content, post);
      var size := FromBytes(Digits(|content|, 128));
      if post == [] {
        assert content + post == content;
        assert Slice(content, 0, size) == content;
      } else {
        assert |Slice(content + post, 0, size)| > |content|;
      }
    }
  }

  /** _len agrees with the standard exactly on the short form. */
  lemma LenIsStandardIff(n: nat)
    requires n < MAX_LEN
    ensures LengthOctets(Len(n), n) <==> n < 0x80
  {
    if n >= 0x80 {
      ReadAsMore(n);
      assert Len(n)[1..] == Digits(n, 128);
      assert Len(n)[0] >= 0x80;
    }
  }

  // ---------- _int_enc and _val_convert ----------

  /** The octets the loop of _int_enc leaves. */
  function IntDigits(v: nat): (s: Bytes)
    ensures s != []
  {
    if v == 0 then [0] else Digits(v, 256)
  }

  function IntContent(v: nat): Bytes
  {
    var out := IntDigits(v);
    if out[0] >= 0x80 then [0] + out else out
  }

  lemma OneDigit(v: nat)
    ensures IntDigits(v) == Digits(v / 256, 256) + [v % 256]
  {
    if v == 0 { NoDigits([0]); }
  }

  lemma NoDigits(out: Bytes)
    ensures Digits(0, 256) + out == out
  {
  }

  lemma LastDigit(rest: nat, out: Bytes)
    requires rest > 0
    ensures Digits(rest, 256) + out == Digits(rest / 256, 256) + ([rest % 256] + out)
  {
  }

  /** _int_enc for v >= 0; for a negative v its loop does not end. */
  method IntEnc(v: nat) returns (r: Bytes)
    requires |IntContent(v)| < MAX_LEN
    ensures r == Tlv(0x02, IntContent(v))
  {
    hide Digits;
    var out: Bytes := [v % 256];
    var rest: nat := v / 256;
    OneDigit(v);
    while rest != 0
      invariant IntDigits(v) == Digits(rest, 256) + out
    {
      LastDigit(rest, out);
      out := [rest % 256] + out;
      rest := rest / 256;
    }
    NoDigits(out);
    if out[0] >= 0x80 { out := [0] + out; }
    var length := LenEnc(|out|);
    return [0x02] + length + out;
  }

  /** Content octets of a non-negative INTEGER in the form of X.690 8.3.2: no first nine bits all zero. */
  predicate MinimalPositive(s: Bytes)
  {
    s != [] && s[0] < 0x80 && (|s| > 1 && s[0] == 0 ==> s[1] >= 0x80)
  }

  lemma {:induction false} DigitsRead(v: nat)
    ensures FromBytes(Digits(v, 256)) == v
    ensures v > 0 ==> Digits(v, 256)[0] != 0
  {
    if v > 0 {
      DigitsRead(v / 256);
      assert Digits(v, 256)[..|Digits(v, 256)| - 1] == Digits(v / 256, 256);
    }
  }

  lemma {:induction false} DigitsWrite(s: Bytes)
    requires s == [] || s[0] != 0
    ensures Digits(FromBytes(s), 256) == s
  {
    if s != [] {
      var init := s[..|s| - 1];
      DigitsWrite(init);
      assert FromBytes(s) / 256 == FromBytes(init) && FromBytes(s) % 256 == s[|s| - 1];
      assert init + [s[|s| - 1]] == s;
      if init != [] { PositiveRead(init); }
    }
  }

  lemma {:induction false} PositiveRead(s: Bytes)
    requires s != [] && s[0] != 0
    ensures FromBytes(s) > 0
  {
    if |s| > 1 { PositiveRead(s[..|s| - 1]); }
  }

  lemma {:induction false} ZeroLeads(s: Bytes)
    ensures FromBytes([0] + s) == FromBytes(s)
  {
    if s == [] {
      assert [0] + s == [0] && [0][..0] == [];
    } else {
      assert ([0] + s)[..|s|] == [0] + s[..|s| - 1];
      ZeroLeads(s[..|s| - 1]);
    }
  }

  /** Integers round-trip, and the content written is in minimal form. */
  lemma IntRoundTrip(v: nat)
    ensures FromBytes(IntContent(v)) == v && MinimalPositive(IntContent(v))
  {
    DigitsRead(v);
    if v == 0 { assert [0][..0] == []; } else { ZeroLeads(Digits(v, 256)); }
  }

  /** ... and it is the only minimal form of its value. */
  lemma MinimalFormUnique(s: Bytes)
    requires MinimalPositive(s)
    ensures IntContent(FromBytes(s)) == s
  {
    if s == [0] {
      assert [0][..0] == [];
    } else if s[0] == 0 {
      hide FromBytes, Digits;
      assert s == [0] + s[1..];
      ZeroLeads(s[1..]);
      DigitsWrite(s[1..]);
      PositiveRead(s[1..]);
    } else {
      hide FromBytes, Digits;
      DigitsWrite(s);
      PositiveRead(s);
    }
  }

  /** _val_convert on an integer tag. */
  method ValConvert(raw: Bytes) returns (v: nat)
    ensures v == FromBytes(raw)
  {
    v := 0;
    for i := 0 to |raw|
      invariant v == FromBytes(raw[..i])
    {
      assert raw[..i + 1][..i] == raw[..i];
      v := v * 256 + raw[i];
    }
    assert raw[..|raw|] == raw;
  }

  /** The two's complement reading of X.690 8.3.3. */
  function SignedValue(s: Bytes): int
  {
    if s != [] && s[0] >= 0x80 then FromBytes(s) - Power256(|s|) else FromBytes(s)
  }

  /** _val_convert reads unsigned: right exactly for content that is not negative. */
  lemma ConvertIsSignedIff(s: Bytes)
    ensures FromBytes(s) == SignedValue(s) <==> s == [] || s[0] < 0x80
  {
    assert Power256(|s|) > 0;
  }

  // ---------- _oid_enc and _oid_dec ----------

  datatype OidError = TooShort | FirstOctetTooLarge

  /** The leading octets of an arc: 7-bit digits with the continuation bit. */
  function Leading(n: nat): Bytes
  {
    if n == 0 then [] else Leading(n / 128) + [0x80 + n % 128]
  }

  function Arc(p: nat): Bytes { Leading(p / 128) + [p % 128] }

  function Arcs(parts: seq<nat>): Bytes
  {
    if parts == [] then [] else Arcs(parts[..|parts| - 1]) + Arc(parts[|parts| - 1])
  }

  function OidContent(parts: Oid): Result<Bytes, OidError>
  {
    if |parts| < 2 then Err(TooShort)
    else if 40 * parts[0] + parts[1] > 255 then Err(FirstOctetTooLarge)
    else Ok([40 * parts[0] + parts[1]] + Arcs(parts[2..]))
  }

  method ArcEnc(p: nat) returns (r: Bytes)
    ensures r == Arc(p)
  {
    if p < 0x80 { return [p]; }
    var chunk: Bytes := [];
    var q := p;
    while q != 0
      invariant Leading(p) == Leading(q) + chunk
    {
      chunk := [q % 128 + 0x80] + chunk;
      q := q / 128;
    }
    assert chunk == Leading(p / 128) + [0x80 + p % 128];
    return chunk[..|chunk| - 1] + [chunk[|chunk| - 1] - 0x80];
  }

  method OidEnc(parts: Oid) returns (r: Result<Bytes, OidError>)
    requires OidContent(parts).Ok? ==> |OidContent(parts).value| < MAX_LEN
    ensures r.Err? ==> OidContent(parts) == Err(r.error)
    ensures r.Ok? ==> OidContent(parts).Ok? && r.value == Tlv(0x06, OidContent(parts).value)
  {
    if |parts| < 2 { return Err(TooShort); }
    var first := 40 * parts[0] + parts[1];
    if first > 255 { return Err(FirstOctetTooLarge); }
    var rest: Bytes := [first];
    var i := 2;
    while i < |parts|
      invariant 2 <= i <= |parts|
      invariant rest == [first] + Arcs(parts[2..i])
    {
      var p := parts[i];
      assert parts[2..i + 1][..i - 2] == parts[2..i];
      var arc := ArcEnc(p);
      rest := rest + arc;
      i := i + 1;
    }
    assert parts[2..i] == parts[2..];
    var length := LenEnc(|rest|);
    return Ok([0x06] + length + rest);
  }

  /** The arc loop of _oid_dec from any of its states: the parts and the unfinished arc. */
  function Decode(s: Bytes, parts: Oid, v: nat): (Oid, nat)
  {
    if s == [] then (parts, v)
    else
      var (init, u) := Decode(s[..|s| - 1], parts, v);
      var b := s[|s| - 1];
      if b < 0x80 then (init + [u * 128 + b], 0) else (init, u * 128 + (b - 0x80))
  }

  /** None stands for "?". */
  function OidParts(content: Bytes): Option<Oid>
  {
    if content == [] then None
    else Some(Decode(content[1..], [content[0] / 40, content[0] % 40], 0).0)
  }

  method OidDec(content: Bytes) returns (text: string)
    ensures text == if content == [] then "?" else Text(OidParts(content).value)
  {
    if content == [] { return "?"; }
    var parts: Oid := [content[0] / 40, content[0] % 40];
    ghost var start := parts;
    var v: nat := 0;
    var i := 1;
    while i < |content|
      invariant 1 <= i <= |content|
      invariant Decode(content[1..i], start, 0) == (parts, v)
    {
      assert content[1..i + 1][..i - 1] == content[1..i];
      var b := content[i];
      if b < 0x80 {
        var arc: nat := v * 128 + b;
        parts, v := parts + [arc], 0;
      } else {
        var low: nat := b - 0x80;
        v := v * 128 + low;
      }
      i := i + 1;
    }
    assert content[1..i] == content[1..];
    return Text(parts);
  }

  lemma {:induction false} DecodeAppend(a: Bytes, b: Bytes, parts: Oid, v: nat)
    ensures Decode(a + b, parts, v) == Decode(b, Decode(a, parts, v).0, Decode(a, parts, v).1)
    decreases |b|
  {
    if b == [] {
      assert a + b == a;
    } else {
      assert (a + b)[..|a + b| - 1] == a + b[..|b| - 1];
      DecodeAppend(a, b[..|b| - 1], parts, v);
    }
  }

  lemma {:induction false} DecodeLeading(n: nat, parts: Oid)
    ensures Decode(Leading(n), parts, 0) == (parts, n)
  {
    if n > 0 {
      DecodeLeading(n / 128, parts);
      assert Leading(n)[..|Leading(n)| - 1] == Leading(n / 128);
    }
  }

  lemma DecodeArc(p: nat, parts: Oid)
    ensures Decode(Arc(p), parts, 0) == (parts + [p], 0)
  {
    DecodeLeading(p / 128, parts);
    assert Arc(p)[..|Arc(p)| - 1] == Leading(p / 128);
  }

  lemma {:induction false} DecodeArcs(arcs: seq<nat>, parts: Oid)
    ensures Decode(Arcs(arcs), parts, 0) == (parts + arcs, 0)
  {
    if arcs != [] {
      hide Decode, Arc;
      var n := |arcs| - 1;
      DecodeArcs(arcs[..n], parts);
      DecodeAppend(Arcs(arcs[..n]), Arc(arcs[n]), parts, 0);
      DecodeArc(arcs[n], parts + arcs[..n]);
      SnocJoins(parts, arcs);
    } else {
      assert parts + arcs == parts;
    }
  }

  lemma SnocJoins(a: seq<nat>, b: seq<nat>)
    requires b != []
    ensures a + b[..|b| - 1] + [b[|b| - 1]] == a + b
  {
    assert b == b[..|b| - 1] + [b[|b| - 1]];
  }

  lemma SplitFirst(a: nat, b: nat)
    ensures (40 * a + b) / 40 == a && (40 * a + b) % 40 == b <==> b < 40
  {
  }

  /** An encodable identifier comes back exactly when its second arc is below 40, whatever the size of the others. */
  lemma OidRoundTripIff(parts: Oid)
    requires OidContent(parts).Ok?
    ensures OidParts(OidContent(parts).value) == Some(parts) <==> parts[1] < 40
  {
    var content := OidContent(parts).value;
    var first: nat := content[0];
    assert content[1..] == Arcs(parts[2..]);
    SplitFirst(parts[0], parts[1]);
    DecodeArcs(parts[2..], [first / 40, first % 40]);
    assert [first / 40, first % 40] + parts[2..] == parts <==> first / 40 == parts[0] && first % 40 == parts[1] by {
      assert parts == [parts[0], parts[1]] + parts[2..];
      if [first / 40, first % 40] + parts[2..] == parts {
        assert ([first / 40, first % 40] + parts[2..])[0] == parts[0];
        assert ([first / 40, first % 40] + parts[2..])[1] == parts[1];
      }
    }
  }

  /** Exactly which identifiers are refused: those of less than two arcs, and those whose first octet is too large. */
  lemma OidRefusedIff(parts: Oid)
    ensures OidContent(parts) == Err(TooShort) <==> |parts| < 2
    ensures OidContent(parts) == Err(FirstOctetTooLarge) <==> |parts| >= 2 && 40 * parts[0] + parts[1] >= 256
    ensures OidContent(parts).Ok? ==> FromBytes(OidContent(parts).value[..1]) == 40 * parts[0] + parts[1]
  {
    if OidContent(parts).Ok? {
      var first := OidContent(parts).value[..1];
      assert first == [40 * parts[0] + parts[1]] && first[..0] == [];
    }
  }
}
