/**
 What _exchange of netpulse/routeros.py makes of the sentences of a reply by their kinds, of a reply over the
 limits, and of words that are no attributes.
 */
module RouterReplies {
  import opened Wrappers
  import opened ByteStrings
  import opened RouterFraming

  // ---------- kinds of sentences ----------

  type AsciiChar = c: char | c as int < 128 witness 'a'

  /** The bytes of a word. */
  function Ascii(s: seq<AsciiChar>): Bytes
  {
    seq<Byte>(|s|, i requires 0 <= i < |s| => s[i] as int)
  }

  predicate Is(ws: Sentence, kind: seq<AsciiChar>)
  {
    ws[0] == Ascii(kind)
  }

  /** The words of the four kinds that count. */
  lemma Kinds()
    ensures RE == Ascii("!re") && DONE == Ascii("!done") && TRAP == Ascii("!trap") && FATAL == Ascii("!fatal")
  {
  }

  predicate Has(ss: seq<Sentence>, kind: seq<AsciiChar>)
  {
    exists ws <- ss :: Is(ws, kind)
  }

  /** Sentences that neither end a reply nor break it off. */
  predicate GoesOn(ss: seq<Sentence>) { !Has(ss, "!done") && !Has(ss, "!fatal") }

  /** The attributes of every !re, in order. */
  function RowsIn(ss: seq<Sentence>): seq<Row>
  {
    if ss == [] then []
    else (if Is(ss[0], "!re") then [Attributes(ss[0][1..])] else []) + RowsIn(ss[1..])
  }

  predicate Fits(ss: seq<Sentence>, s: State)
  {
    s.total + TotalSize(ss) <= 2 * 1024 * 1024 && s.words + TotalWords(ss) <= 16384
  }

  /** One sentence read, up to its end. */
  lemma ReadSentence(ws: Sentence, more: Bytes, s: State)
    requires s.sentence == [] && s.total + Size(ws) <= 2 * 1024 * 1024 && s.words + |ws| + 1 <= 16384
    ensures var t := s.(total := s.total + Size(ws), words := s.words + |ws| + 1, sentence := ws);
            Exchange(SentenceBytes(ws) + more, s) == (match EndSentence(t)
                                                      case Raise(e) => (Err(e), t.words)
                                                      case Return(rows, a) => (Ok(Reply(rows, a, more)), t.words)
                                                      case Continue(u) => Exchange(more, u))
  {
    hide OnePass, EndSentence, Attributes, Words, Size;
    assert SentenceBytes(ws) + more == Words(ws) + ([0] + more);
    ReadWords(ws, [0] + more, s);
    assert [] + ws == ws;
    ReadEnd(more, s.(total := s.total + Size(ws), words := s.words + |ws|, sentence := ws));
  }

  lemma HasTail(ss: seq<Sentence>, kind: seq<AsciiChar>)
    requires ss != []
    ensures Has(ss, kind) <==> Is(ss[0], kind) || Has(ss[1..], kind)
  {
  }

  /** Sentences that go on leave their rows and whether one of them was a !trap. */
  lemma {:induction false} ReadSentences(ss: seq<Sentence>, rest: Bytes, s: State)
    requires s.sentence == [] && GoesOn(ss) && Fits(ss, s) && |s.rows| + |RowsIn(ss)| <= 256
    ensures Exchange(SentencesBytes(ss) + rest, s)
         == Exchange(rest, s.(rows := s.rows + RowsIn(ss), total := s.total + TotalSize(ss),
                              words := s.words + TotalWords(ss), denied := s.denied || Has(ss, "!trap")))
    decreases |ss|
  {
    hide Exchange, Attributes, SentenceBytes, Size, Has, Ascii;
    if ss == [] {
      NoneHas();
      assert SentencesBytes(ss) + rest == rest && s.rows + RowsIn(ss) == s.rows;
    } else {
      Kinds();
      HasTail(ss, "!done");
      HasTail(ss, "!fatal");
      HasTail(ss, "!trap");
      var row: seq<Row> := if Is(ss[0], "!re") then [Attributes(ss[0][1..])] else [];
      Associate(SentenceBytes(ss[0]), SentencesBytes(ss[1..]), rest);
      Associate(s.rows, row, RowsIn(ss[1..]));
      ReadSentence(ss[0], SentencesBytes(ss[1..]) + rest, s);
      assert s.rows + [] == s.rows;
      ReadSentences(ss[1..], rest, s.(rows := s.rows + row, total := s.total + Size(ss[0]),
                                      words := s.words + |ss[0]| + 1, denied := s.denied || Is(ss[0], "!trap")));
    }
  }

  lemma NoneHas()
    ensures !Has([], "!trap")
  {
  }

  function After(ss: seq<Sentence>): State
  {
    State(RowsIn(ss), [], TotalSize(ss), TotalWords(ss), Has(ss, "!trap"))
  }

  lemma ReadFromStart(ss: seq<Sentence>, last: Sentence, rest: Bytes)
    requires GoesOn(ss) && Fits(ss + [last], START) && |RowsIn(ss)| <= 256
    ensures var s := After(ss);
            s.total + Size(last) <= 2 * 1024 * 1024 && s.words + |last| + 1 <= 16384
            && Exchange(SentencesBytes(ss) + (SentenceBytes(last) + rest), START)
            == Exchange(SentenceBytes(last) + rest, s)
  {
    hide Exchange, Has, SentenceBytes, SentencesBytes, Size, RowsIn;
    TotalsAppend(ss, last);
    ReadSentences(ss, SentenceBytes(last) + rest, START);
    assert [] + RowsIn(ss) == RowsIn(ss);
  }

  lemma {:induction false} TotalsAppend(ss: seq<Sentence>, last: Sentence)
    ensures TotalSize(ss + [last]) == TotalSize(ss) + Size(last)
    ensures TotalWords(ss + [last]) == TotalWords(ss) + |last| + 1
  {
    hide Size;
    if ss == [] {
      assert ss + [last] == [last] && [last][1..] == [];
    } else {
      assert (ss + [last])[1..] == ss[1..] + [last];
      TotalsAppend(ss[1..], last);
    }
  }

  /** A reply with a !trap in it is refused at its !done, whatever rows it has. */
  lemma TrapDenies(ss: seq<Sentence>, done: Sentence, rest: Bytes)
    requires GoesOn(ss) && Has(ss, "!trap") && Is(done, "!done")
    requires Fits(ss + [done], START) && |RowsIn(ss)| <= 256
    ensures Exchange(SentencesBytes(ss) + (SentenceBytes(done) + rest), START).0 == Err(RequestDenied)
  {
    hide Exchange, Has, SentenceBytes, SentencesBytes, Size, RowsIn, Attributes, Ascii, Fits;
    Kinds();
    ReadFromStart(ss, done, rest);
    ReadSentence(done, rest, After(ss));
  }

  /** A !fatal breaks a reply off at once, whatever follows and whatever came before. */
  lemma FatalRejects(ss: seq<Sentence>, fatal: Sentence, rest: Bytes)
    requires GoesOn(ss) && Is(fatal, "!fatal") && Fits(ss + [fatal], START) && |RowsIn(ss)| <= 256
    ensures Exchange(SentencesBytes(ss) + (SentenceBytes(fatal) + rest), START).0 == Err(Rejected)
  {
    hide Exchange, Has, SentenceBytes, SentencesBytes, Size, RowsIn, Attributes, Ascii, Fits;
    Kinds();
    ReadFromStart(ss, fatal, rest);
    ReadSentence(fatal, rest, After(ss));
  }

  /** The 257th row ends a reply by an error. */
  lemma RowsExceed(ss: seq<Sentence>, row: Sentence, rest: Bytes)
    requires GoesOn(ss) && Is(row, "!re") && Fits(ss + [row], START) && |RowsIn(ss)| == 256
    ensures Exchange(SentencesBytes(ss) + (SentenceBytes(row) + rest), START).0 == Err(TooManyRows)
  {
    hide Exchange, Has, SentenceBytes, SentencesBytes, Size, RowsIn, Attributes, Ascii, Fits;
    Kinds();
    ReadFromStart(ss, row, rest);
    ReadSentence(row, rest, After(ss));
  }

  /**
   A reply without !trap and !fatal gives the attributes of its !re sentences in order and those of its
   !done, and leaves what follows; sentences of any other kind add nothing.
   */
  lemma OtherKindsAddNothing(ss: seq<Sentence>, done: Sentence, rest: Bytes)
    requires GoesOn(ss) && !Has(ss, "!trap") && Is(done, "!done")
    requires Fits(ss + [done], START) && |RowsIn(ss)| <= 256
    ensures Exchange(SentencesBytes(ss) + (SentenceBytes(done) + rest), START).0
         == Ok(Reply(RowsIn(ss), Attributes(done[1..]), rest))
  {
    hide Exchange, Has, SentenceBytes, SentencesBytes, Size, RowsIn, Attributes, Ascii, Fits;
    Kinds();
    ReadFromStart(ss, done, rest);
    ReadSentence(done, rest, After(ss));
  }

  // ---------- replies over the limits ----------

  /** Words that come to more than 2 MiB, or to more than 16384 in number, end a reply by an error. */
  lemma {:induction false} WordsExceed(ws: seq<Word>, rest: Bytes, s: State)
    requires forall w <- ws :: GoodWord(w)
    requires s.total <= 2 * 1024 * 1024 && s.words <= 16384
    requires s.total + Size(ws) > 2 * 1024 * 1024 || s.words + |ws| > 16384
    ensures Exchange(Words(ws) + rest, s).0 == Err(LimitExceeded)
    decreases |ws|
  {
    hide OnePass, WordBytes;
    var more := Words(ws[1..]) + rest;
    assert Words(ws) + rest == WordBytes(ws[0]) + more;
    if s.total + |ws[0]| <= 2 * 1024 * 1024 && s.words < 16384 {
      ReadWord(ws[0], more, s);
      WordsExceed(ws[1..], rest,
                  s.(total := s.total + |ws[0]|, words := s.words + 1, sentence := s.sentence + [ws[0]]));
    } else {
      WordExceeds(ws[0], more, s);
    }
  }

  lemma WordExceeds(w: Word, rest: Bytes, s: State)
    requires GoodWord(w) && (s.total + |w| > 2 * 1024 * 1024 || s.words >= 16384)
    ensures OnePass(WordBytes(w) + rest, s) == Stop(Err(LimitExceeded), s.words + 1)
  {
    hide Length, EncodeLength, EndSentence;
    LengthInverts(|w|, w + rest);
    assert WordBytes(w) + rest == EncodeLength(|w|).value + (w + rest);
  }

  /** A length over 2 MiB is an error before any of its word is read. */
  lemma LengthExceeds(input: Bytes, s: State)
    requires Length(input).Ok? && Length(input).value.value > 2 * 1024 * 1024
    ensures Exchange(input, s).0 == Err(LimitExceeded)
  {
    hide Length;
  }

  /** A stream that ends within a word is an error. */
  lemma WordCutOff(w: Word, n: nat, s: State)
    requires GoodWord(w) && n < |w| && s.total + |w| <= 2 * 1024 * 1024 && s.words < 16384
    ensures Exchange(EncodeLength(|w|).value + w[..n], s).0 == Err(ConnectionClosed)
  {
    hide Length, EncodeLength, EndSentence;
    LengthInverts(|w|, w[..n]);
  }

  /** Empty words between sentences are skipped. */
  lemma EmptyWordSkipped(rest: Bytes, s: State)
    requires s.sentence == [] && s.words < 16384 && s.total <= 2 * 1024 * 1024
    ensures Exchange([0] + rest, s) == Exchange(rest, s.(words := s.words + 1))
  {
    hide OnePass;
    EmptyWord(rest, s);
  }

  lemma EmptyWord(rest: Bytes, s: State)
    requires s.sentence == [] && s.words < 16384 && s.total <= 2 * 1024 * 1024
    ensures OnePass([0] + rest, s) == Next(rest, s.(words := s.words + 1))
  {
    hide Length, EndSentence;
    ZeroLength(rest);
    assert s.(total := s.total + 0, words := s.words + 1) == s.(words := s.words + 1);
  }

  // ---------- lengths encode_length never writes ----------

  /** Five octets: 0xF0, and the length in four. */
  lemma FiveOctets(n: nat, rest: Bytes)
    requires n < 0x1_0000_0000
    ensures Length([0xF0] + ToBytes(n, 4) + rest) == Ok(Read(n, rest))
  {
    hide ToBytes, FromBytes, Power256;
    Powers();
    ToFromBytes(n, 4);
    var e := [0xF0] + ToBytes(n, 4);
    LengthReads(e, rest);
    assert e[1..] == ToBytes(n, 4);
    assert (e[1..] + rest)[..4] == ToBytes(n, 4) && (e[1..] + rest)[4..] == rest;
  }

  /** A first octet over 0xF0 is refused, and an empty stream is closed. */
  lemma ControlRefused(first: Byte, rest: Bytes)
    ensures first > 0xF0 ==> Length([first] + rest) == Err(UnsupportedControl)
    ensures Length([]) == Err(ConnectionClosed)
  {
    LengthReads([first], rest);
  }

  // ---------- words that are no attributes ----------

  /** An attribute word adds its value under its key, in place of an earlier one. */
  lemma AttributeAdds(words: seq<Word>, key: Bytes, value: Bytes)
    requires EQUALS !in key
    ensures Attributes(words + [Ascii("=") + key + Ascii("=") + value]) == Attributes(words)[key := value]
  {
    var w := AttributeWord(key, value);
    assert Ascii("=") == [EQUALS] && (words + [w])[..|words|] == words;
    assert w[1..] == key + [EQUALS] + value;
    FindsFirst(key, value);
    assert w[1..][..|key|] == key && w[1..][|key| + 1..] == value;
  }

  /** A word that does not begin with '=', or has no second one, adds nothing. */
  lemma OtherWordsAddNothing(words: seq<Word>, w: Word)
    requires w == [] || w[0] != '=' as int || '=' as int !in w[1..]
    ensures Attributes(words + [w]) == Attributes(words)
  {
    assert (words + [w])[..|words|] == words;
  }
}
