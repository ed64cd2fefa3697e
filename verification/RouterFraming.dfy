/** The RouterOS API word lengths and replies of netpulse/routeros.py, as functions of the bytes still to come. */
module RouterFraming {
  import opened Wrappers
  import opened ByteStrings

  const MAX_BYTES := 0x200000
  const MAX_ROWS := 256
  const MAX_WORDS := 16384

  datatype Error = WordTooLarge | ConnectionClosed | UnsupportedControl | LimitExceeded | Rejected | RequestDenied
                 | TooManyRows

  /** A value read, and the bytes after it. */
  datatype Read<+T> = Read(value: T, rest: Bytes)

  // ---------- encode_length and _length ----------

  /** The operands of each `|` have no bit in common, so it is an addition. */
  function EncodeLength(n: int): Result<Bytes, Error>
  {
    if !(0 <= n <= MAX_BYTES) then Err(WordTooLarge)
    else if n < 0x80 then Ok([n])
    else if n < 0x4000 then Ok(ToBytes(n + 0x8000, 2))
    else if n < 0x200000 then Ok(ToBytes(n + 0xC00000, 3))
    else Ok(ToBytes(n + 0xE0000000, 4))
  }

  /** _recv(size), over a stream that ends. */
  function Recv(input: Bytes, size: nat): Result<Read<Bytes>, Error>
  {
    if |input| < size then Err(ConnectionClosed) else Ok(Read(input[..size], input[size..]))
  }

  /** The remaining k octets of a length, below the bits of the first. */
  function Tail(input: Bytes, high: nat, k: nat): Result<Read<nat>, Error>
  {
    match Recv(input, k)
    case Err(e) => Err(e)
    case Ok(r) => Ok(Read(high * Power256(k) + FromBytes(r.value), r.rest))
  }

  /** The length that starts with a first octet. */
  function LengthFrom(first: Byte, rest: Bytes): (r: Result<Read<nat>, Error>)
    ensures r.Ok? ==> |r.value.rest| <= |rest|
  {
    if first < 0x80 then Ok(Read(first, rest))
    else if first < 0xC0 then Tail(rest, first % 0x40, 1)
    else if first < 0xE0 then Tail(rest, first % 0x20, 2)
    else if first < 0xF0 then Tail(rest, first % 0x10, 3)
    else if first == 0xF0 then Tail(rest, 0, 4)
    else Err(UnsupportedControl)
  }

  function Length(input: Bytes): (r: Result<Read<nat>, Error>)
    ensures r.Ok? ==> |r.value.rest| < |input|
  {
    match Recv(input, 1)
    case Err(e) => Err(e)
    case Ok(r) => LengthFrom(r.value[0], r.rest)
  }

  lemma {:induction false} FromBytesSplit(a: Bytes, b: Bytes)
    ensures FromBytes(a + b) == FromBytes(a) * Power256(|b|) + FromBytes(b)
    decreases |b|
  {
    if b == [] {
      assert a + b == a;
    } else {
      var init := b[..|b| - 1];
      assert (a + b)[..|a + b| - 1] == a + init;
      FromBytesSplit(a, init);
      assert FromBytes(a) * Power256(|b|) == 256 * (FromBytes(a) * Power256(|init|));
    }
  }

  /** A first octet over k more that spell n + mark, read with the mark removed. */
  lemma ReadsMarked(s: Bytes, k: nat, low: nat, mark: nat, rest: Bytes)
    requires |s| == k + 1 && FromBytes(s) == mark * Power256(k) + low && mark <= s[0]
    ensures Tail(s[1..] + rest, s[0] - mark, k) == Ok(Read(low, rest))
  {
    assert s == [s[0]] + s[1..] && [s[0]][..0] == [];
    FromBytesSplit([s[0]], s[1..]);
    var first: nat := s[0];
    assert FromBytes([s[0]]) == first;
    assert (s[1..] + rest)[..k] == s[1..] && (s[1..] + rest)[k..] == rest;
    assert (first - mark) * Power256(k) == first * Power256(k) - mark * Power256(k);
  }

  lemma LengthReads(e: Bytes, rest: Bytes)
    requires e != []
    ensures Length(e + rest) == LengthFrom(e[0], e[1..] + rest)
  {
    hide Tail;
    assert (e + rest)[..1] == [e[0]] && (e + rest)[1..] == e[1..] + rest;
  }

  lemma Powers()
    ensures Power256(0) == 1 && Power256(1) == 0x100 && Power256(2) == 0x10000
    ensures Power256(3) == 0x1000000 && Power256(4) == 0x100000000
  {
  }

  /** A number written in k + 1 octets under a mark is read back by a tail of k octets. */
  lemma TailInverts(n: nat, k: nat, mark: nat, rest: Bytes)
    requires 1 <= k <= 3 && mark * Power256(k) + n < Power256(k + 1)
    requires mark <= ToBytes(mark * Power256(k) + n, k + 1)[0]
    ensures var e := ToBytes(mark * Power256(k) + n, k + 1);
            Tail(e[1..] + rest, e[0] - mark, k) == Ok(Read(n, rest))
  {
    hide ToBytes, FromBytes, Tail, Power256;
    ToFromBytes(mark * Power256(k) + n, k + 1);
    ReadsMarked(ToBytes(mark * Power256(k) + n, k + 1), k, n, mark, rest);
  }

  lemma TwoOctets(n: nat, rest: Bytes)
    requires n < 0x4000
    ensures Length(ToBytes(n + 0x8000, 2) + rest) == Ok(Read(n, rest))
  {
    hide Tail, ToBytes, FromBytes, Length, Power256;
    Powers();
    var e := ToBytes(n + 0x8000, 2);
    FirstOctet(n + 0x8000, 2);
    LengthReads(e, rest);
    TailInverts(n, 1, 0x80, rest);
  }

  lemma ThreeOctets(n: nat, rest: Bytes)
    requires n < 0x200000
    ensures Length(ToBytes(n + 0xC00000, 3) + rest) == Ok(Read(n, rest))
  {
    hide Tail, ToBytes, FromBytes, Length, Power256;
    Powers();
    var e := ToBytes(n + 0xC00000, 3);
    FirstOctet(n + 0xC00000, 3);
    LengthReads(e, rest);
    TailInverts(n, 2, 0xC0, rest);
  }

  lemma FourOctets(n: nat, rest: Bytes)
    requires n < 0x10000000
    ensures Length(ToBytes(n + 0xE0000000, 4) + rest) == Ok(Read(n, rest))
  {
    hide Tail, ToBytes, FromBytes, Length, Power256;
    Powers();
    var e := ToBytes(n + 0xE0000000, 4);
    FirstOctet(n + 0xE0000000, 4);
    LengthReads(e, rest);
    TailInverts(n, 3, 0xE0, rest);
  }

  /** _length inverts encode_length, whatever follows. */
  lemma LengthInverts(n: nat, rest: Bytes)
    requires n <= MAX_BYTES
    ensures EncodeLength(n).Ok? && Length(EncodeLength(n).value + rest) == Ok(Read(n, rest))
  {
    hide Tail, ToBytes, Length;
    if n < 0x80 {
      LengthReads([n], rest);
      assert [n][1..] + rest == rest;
    } else if n < 0x4000 {
      TwoOctets(n, rest);
    } else if n < 0x200000 {
      ThreeOctets(n, rest);
    } else {
      FourOctets(n, rest);
    }
  }

  lemma FirstOctet(n: nat, k: nat)
    requires 2 <= k <= 4 && n < Power256(k)
    ensures k == 2 ==> ToBytes(n, k)[0] == n / 0x100
    ensures k == 3 ==> ToBytes(n, k)[0] == n / 0x10000
    ensures k == 4 ==> ToBytes(n, k)[0] == n / 0x1000000
  {
    Powers();
    var s, t := ToBytes(n, k), ToBytes(n / 0x100, k - 1);
    assert s[0] == t[0];
    if k == 2 {
      assert t == [] + [n / 0x100 % 0x100];
    } else {
      var u := ToBytes(n / 0x100 / 0x100, k - 2);
      assert t[0] == u[0] && n / 0x100 / 0x100 == n / 0x10000;
      if k == 3 {
        assert u == [] + [n / 0x10000 % 0x100];
      } else {
        var v := ToBytes(n / 0x10000 / 0x100, 1);
        assert u[0] == v[0] && n / 0x10000 / 0x100 == n / 0x1000000;
        assert v == [] + [n / 0x1000000 % 0x100];
      }
    }
  }

  /** No encoded length is the beginning of another. */
  lemma PrefixFree(a: nat, b: nat)
    requires a <= MAX_BYTES && b <= MAX_BYTES && EncodeLength(a).value <= EncodeLength(b).value
    ensures a == b
  {
    var x, y := EncodeLength(a).value, EncodeLength(b).value;
    assert y == x + y[|x|..] && y + [] == y;
    LengthInverts(a, y[|x|..]);
    LengthInverts(b, []);
  }

  // ---------- _exchange ----------

  /** A word stands for its UTF-8 bytes. */
  type Word = Bytes

  const EQUALS: Byte := 61
  const RE: Word := [33, 114, 101]
  const DONE: Word := [33, 100, 111, 110, 101]
  const TRAP: Word := [33, 116, 114, 97, 112]
  const FATAL: Word := [33, 102, 97, 116, 97, 108]

  /** Where '=' first stands in s, or |s|. */
  function Find(s: Bytes): (i: nat)
    ensures i <= |s|
    ensures i < |s| ==> s[i] == EQUALS
    ensures EQUALS !in s[..i]
  {
    if s == [] || s[0] == EQUALS then 0
    else
      var i := Find(s[1..]);
      assert s[..i + 1] == [s[0]] + s[1..][..i];
      1 + i
  }

  predicate IsAttribute(w: Word) { w != [] && w[0] == EQUALS && Find(w[1..]) < |w| - 1 }

  /** dict(word[1:].split('=', 1) for the attribute words) */
  function Attributes(words: seq<Word>): map<Bytes, Bytes>
  {
    if words == [] then map[]
    else
      var before, w := Attributes(words[..|words| - 1]), words[|words| - 1];
      if !IsAttribute(w) then before
      else
        var i := Find(w[1..]);
        before[w[1..][..i] := w[1..][i + 1..]]
  }

  type Row = map<Bytes, Bytes>

  datatype State = State(rows: seq<Row>, sentence: seq<Word>, total: nat, words: nat, denied: bool)

  const START := State([], [], 0, 0, false)

  datatype Reply = Reply(rows: seq<Row>, attributes: Row, rest: Bytes)

  /** What the end of a sentence does: go on, return, or raise. */
  datatype Verdict = Continue(state: State) | Return(rows: seq<Row>, attributes: Row) | Raise(error: Error)

  function EndSentence(s: State): Verdict
    requires s.sentence != []
  {
    var kind := s.sentence[0];
    var attributes := Attributes(s.sentence[1..]);
    var denied := s.denied || kind == TRAP;
    if kind == FATAL then Raise(Rejected)
    else if kind == DONE then (if denied then Raise(RequestDenied) else Return(s.rows, attributes))
    else if kind == RE then
      var rows := s.rows + [attributes];
      if |rows| > MAX_ROWS then Raise(TooManyRows)
      else Continue(s.(rows := rows, sentence := [], denied := denied))
    else Continue(s.(sentence := [], denied := denied))
  }

  /** One pass of the loop: it ends with an outcome, or goes on with what is still to come. */
  datatype Pass = Stop(outcome: Result<Reply, Error>, words: nat) | Next(input: Bytes, state: State)

  function AfterSentence(v: Verdict, rest: Bytes, words: nat): Pass
  {
    match v
    case Raise(e) => Stop(Err(e), words)
    case Return(rows, attributes) => Stop(Ok(Reply(rows, attributes, rest)), words)
    case Continue(u) => Next(rest, u)
  }

  function OnePass(input: Bytes, s: State): (p: Pass)
    ensures p.Next? ==> |p.input| < |input|
  {
    match Length(input)
    case Err(e) => Stop(Err(e), s.words)
    case Ok(len) =>
      var t := s.(total := s.total + len.value, words := s.words + 1);
      if len.value > MAX_BYTES || t.total > MAX_BYTES || t.words > MAX_WORDS then Stop(Err(LimitExceeded), t.words)
      else if len.value > 0 then
        match Recv(len.rest, len.value)
        case Err(e) => Stop(Err(e), t.words)
        case Ok(w) => Next(w.rest, t.(sentence := t.sentence + [w.value]))
      else if t.sentence == [] then Next(len.rest, t)
      else AfterSentence(EndSentence(t), len.rest, t.words)
  }

  /** The loop from any of its states: the outcome, and how many lengths were read in all. */
  function Exchange(input: Bytes, s: State): (Result<Reply, Error>, nat)
    decreases |input|
  {
    match OnePass(input, s)
    case Stop(r, words) => (r, words)
    case Next(rest, t) => Exchange(rest, t)
  }

  predicate Within(s: State) { s.words <= MAX_WORDS && |s.rows| <= MAX_ROWS }

  lemma PassBounded(input: Bytes, s: State)
    requires Within(s)
    ensures match OnePass(input, s)
            case Stop(r, words) => words <= MAX_WORDS + 1
                                   && (r.Ok? ==> words <= MAX_WORDS && |r.value.rows| <= MAX_ROWS)
            case Next(_, t) => Within(t)
  {
    hide Length, Attributes;
  }

  /** On any bytes at all: at most one word over the limit is begun, and no more than 256 rows come back. */
  lemma {:induction false} ExchangeBounded(input: Bytes, s: State)
    requires Within(s)
    ensures var (r, words) := Exchange(input, s);
            words <= MAX_WORDS + 1 && (r.Ok? ==> words <= MAX_WORDS && |r.value.rows| <= MAX_ROWS)
    decreases |input|
  {
    hide OnePass;
    PassBounded(input, s);
    if OnePass(input, s).Next? { ExchangeBounded(OnePass(input, s).input, OnePass(input, s).state); }
  }

  // ---------- what a well-formed reply parses to ----------

  predicate GoodWord(w: Word) { 0 < |w| <= MAX_BYTES }

  function WordBytes(w: Word): Bytes
    requires GoodWord(w)
  {
    EncodeLength(|w|).value + w
  }

  function Words(ws: seq<Word>): Bytes
    requires forall i :: 0 <= i < |ws| ==> GoodWord(ws[i])
  {
    if ws == [] then [] else WordBytes(ws[0]) + Words(ws[1..])
  }

  function Size(ws: seq<Word>): nat { if ws == [] then 0 else |ws[0]| + Size(ws[1..]) }

  type Sentence = ws: seq<Word> | ws != [] && forall i :: 0 <= i < |ws| ==> GoodWord(ws[i]) witness [[0]]

  function SentenceBytes(ws: Sentence): Bytes { Words(ws) + [0] }

  function SentencesBytes(ss: seq<Sentence>): Bytes
  {
    if ss == [] then [] else SentenceBytes(ss[0]) + SentencesBytes(ss[1..])
  }

  function TotalSize(ss: seq<Sentence>): nat { if ss == [] then 0 else Size(ss[0]) + TotalSize(ss[1..]) }

  /** Words and closing empty words. */
  function TotalWords(ss: seq<Sentence>): nat { if ss == [] then 0 else |ss[0]| + 1 + TotalWords(ss[1..]) }

  lemma ReadWord(w: Word, rest: Bytes, s: State)
    requires GoodWord(w) && s.total + |w| <= MAX_BYTES && s.words < MAX_WORDS
    ensures OnePass(WordBytes(w) + rest, s)
         == Next(rest, s.(total := s.total + |w|, words := s.words + 1, sentence := s.sentence + [w]))
  {
    hide Length, EncodeLength, EndSentence;
    LengthInverts(|w|, w + rest);
    assert WordBytes(w) + rest == EncodeLength(|w|).value + (w + rest);
    assert (w + rest)[..|w|] == w && (w + rest)[|w|..] == rest;
  }

  lemma {:induction false} ReadWords(ws: seq<Word>, rest: Bytes, s: State)
    requires forall i :: 0 <= i < |ws| ==> GoodWord(ws[i])
    requires s.total + Size(ws) <= MAX_BYTES && s.words + |ws| <= MAX_WORDS
    ensures Exchange(Words(ws) + rest, s)
         == Exchange(rest, s.(total := s.total + Size(ws), words := s.words + |ws|, sentence := s.sentence + ws))
    decreases |ws|
  {
    hide OnePass, WordBytes;
    if ws == [] {
      assert Words(ws) + rest == rest && s.sentence + ws == s.sentence;
    } else {
      assert Words(ws) + rest == WordBytes(ws[0]) + (Words(ws[1..]) + rest);
      ReadWord(ws[0], Words(ws[1..]) + rest, s);
      var t := s.(total := s.total + |ws[0]|, words := s.words + 1, sentence := s.sentence + [ws[0]]);
      ReadWords(ws[1..], rest, t);
      assert s.sentence + [ws[0]] + ws[1..] == s.sentence + ws;
    }
  }

  lemma ZeroLength(rest: Bytes)
    ensures Length([0] + rest) == Ok(Read(0, rest))
  {
    LengthReads([0], rest);
    assert [0][1..] + rest == rest;
  }

  lemma ReadEnd(rest: Bytes, s: State)
    requires s.sentence != [] && s.words < MAX_WORDS && s.total <= MAX_BYTES
    ensures OnePass([0] + rest, s) == AfterSentence(EndSentence(s.(words := s.words + 1)), rest, s.words + 1)
  {
    hide EndSentence, Length;
    ZeroLength(rest);
    assert s.(total := s.total + 0, words := s.words + 1) == s.(words := s.words + 1);
  }

  /** A row for every sentence. */
  function Rows(ss: seq<Sentence>): seq<Row>
  {
    if ss == [] then [] else [Attributes(ss[0][1..])] + Rows(ss[1..])
  }

  lemma {:induction false} ReadRows(ss: seq<Sentence>, rest: Bytes, s: State)
    requires s.sentence == [] && forall i :: 0 <= i < |ss| ==> ss[i][0] == RE
    requires s.total + TotalSize(ss) <= MAX_BYTES && s.words + TotalWords(ss) <= MAX_WORDS
    requires |s.rows| + |ss| <= MAX_ROWS
    ensures Exchange(SentencesBytes(ss) + rest, s)
         == Exchange(rest, s.(rows := s.rows + Rows(ss), total := s.total + TotalSize(ss),
                              words := s.words + TotalWords(ss)))
    decreases |ss|
  {
    hide Exchange, Attributes, SentenceBytes, Size;
    if ss == [] {
      assert SentencesBytes(ss) + rest == rest && s.rows + Rows(ss) == s.rows;
    } else {
      var row := Attributes(ss[0][1..]);
      var next := s.(rows := s.rows + [row], total := s.total + Size(ss[0]), words := s.words + |ss[0]| + 1);
      Associate(SentenceBytes(ss[0]), SentencesBytes(ss[1..]), rest);
      Associate(s.rows, [row], Rows(ss[1..]));
      ReadRow(ss[0], SentencesBytes(ss[1..]) + rest, s);
      ReadRows(ss[1..], rest, next);
    }
  }

  lemma Associate<T>(a: seq<T>, b: seq<T>, c: seq<T>)
    ensures (a + b) + c == a + (b + c)
  {
  }

  lemma ReadRow(row: Sentence, more: Bytes, s: State)
    requires s.sentence == [] && row[0] == RE && |s.rows| < MAX_ROWS
    requires s.total + Size(row) <= MAX_BYTES && s.words + |row| + 1 <= MAX_WORDS
    ensures Exchange(SentenceBytes(row) + more, s)
         == Exchange(more, s.(rows := s.rows + [Attributes(row[1..])], total := s.total + Size(row),
                              words := s.words + |row| + 1))
  {
    hide OnePass, Attributes, Words, Size;
    assert SentenceBytes(row) + more == Words(row) + ([0] + more);
    ReadWords(row, [0] + more, s);
    assert [] + row == row;
    ReadEnd(more, s.(total := s.total + Size(row), words := s.words + |row|, sentence := row));
  }

  /**
   A reply of !re sentences and a !done within the limits gives exactly one row per !re sentence,
   in order, the attributes of !done, and leaves what follows unread.
   */
  lemma ReplyParses(ss: seq<Sentence>, done: Sentence, rest: Bytes)
    requires (forall i :: 0 <= i < |ss| ==> ss[i][0] == RE) && done[0] == DONE && |ss| <= MAX_ROWS
    requires TotalSize(ss) + Size(done) <= MAX_BYTES && TotalWords(ss) + |done| + 1 <= MAX_WORDS
    ensures Exchange(SentencesBytes(ss) + (SentenceBytes(done) + rest), START).0
         == Ok(Reply(Rows(ss), Attributes(done[1..]), rest))
  {
    hide Exchange, Attributes, Words, SentencesBytes, SentenceBytes, Rows, Size, TotalSize, TotalWords;
    ReadRows(ss, SentenceBytes(done) + rest, START);
    assert [] + Rows(ss) == Rows(ss);
    ReadDone(done, rest, State(Rows(ss), [], TotalSize(ss), TotalWords(ss), false));
  }

  lemma ReadDone(done: Sentence, rest: Bytes, s: State)
    requires done[0] == DONE && s.sentence == [] && !s.denied
    requires s.total + Size(done) <= MAX_BYTES && s.words + |done| + 1 <= MAX_WORDS
    ensures Exchange(SentenceBytes(done) + rest, s).0 == Ok(Reply(s.rows, Attributes(done[1..]), rest))
  {
    hide OnePass, Attributes, Words, Size;
    assert SentenceBytes(done) + rest == Words(done) + ([0] + rest);
    ReadWords(done, [0] + rest, s);
    assert [] + done == done;
    ReadEnd(rest, s.(total := s.total + Size(done), words := s.words + |done|, sentence := done));
  }

  // ---------- attributes ----------

  function AttributeWord(key: Bytes, value: Bytes): Word { [EQUALS] + key + [EQUALS] + value }

  function AttributeWords(pairs: seq<(Bytes, Bytes)>): seq<Word>
  {
    if pairs == [] then []
    else AttributeWords(pairs[..|pairs| - 1]) + [AttributeWord(pairs[|pairs| - 1].0, pairs[|pairs| - 1].1)]
  }

  function Dict(pairs: seq<(Bytes, Bytes)>): Row
  {
    if pairs == [] then map[] else Dict(pairs[..|pairs| - 1])[pairs[|pairs| - 1].0 := pairs[|pairs| - 1].1]
  }

  lemma {:induction false} FindsFirst(key: Bytes, value: Bytes)
    requires EQUALS !in key
    ensures Find(key + [EQUALS] + value) == |key|
  {
    if key == [] {
      assert (key + [EQUALS] + value)[0] == EQUALS;
    } else {
      assert (key + [EQUALS] + value)[1..] == key[1..] + [EQUALS] + value;
      FindsFirst(key[1..], value);
    }
  }

  /** Attributes written as =key=value are read back, whatever the values contain. */
  lemma {:induction false} AttributesParse(pairs: seq<(Bytes, Bytes)>)
    requires forall i :: 0 <= i < |pairs| ==> EQUALS !in pairs[i].0
    ensures Attributes(AttributeWords(pairs)) == Dict(pairs)
  {
    if pairs != [] {
      var n := |pairs| - 1;
      var (key, value) := pairs[n];
      AttributesParse(pairs[..n]);
      var w := AttributeWord(key, value);
      var ws := AttributeWords(pairs);
      assert ws[..|ws| - 1] == AttributeWords(pairs[..n]) && ws[|ws| - 1] == w;
      assert w[1..] == key + [EQUALS] + value;
      FindsFirst(key, value);
      assert w[1..][..|key|] == key && w[1..][|key| + 1..] == value;
    }
  }
}
