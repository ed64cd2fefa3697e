/** ApiSSLClient of netpulse/routeros.py: a socket that delivers its bytes in chunks of any size. */
module RouterClient {
  import opened Wrappers
  import opened ByteStrings
  import opened RouterFraming

  class ApiClient {
    /** What the router will still send before it closes the connection. */
    var pending: Bytes

    constructor (stream: Bytes)
      ensures pending == stream
    {
      pending := stream;
    }

    /** sock.recv: at least one byte and at most size of them, or none once the peer has closed. */
    method SocketRecv(size: nat) returns (chunk: Bytes)
      requires size > 0
      modifies this
      ensures chunk + pending == old(pending) && |chunk| <= size
      ensures chunk == [] <==> old(pending) == []
    {
      if pending == [] { return []; }
      var n: nat :| 1 <= n <= size && n <= |pending|;
      chunk := pending[..n];
      pending := pending[n..];
    }

    /** _recv */
    method RecvAll(size: nat) returns (r: Result<Bytes, Error>)
      modifies this
      ensures Recv(old(pending), size).Err? ==> r == Err(Recv(old(pending), size).error)
      ensures Recv(old(pending), size).Ok? ==> r == Ok(Recv(old(pending), size).value.value)
                                               && pending == Recv(old(pending), size).value.rest
    {
      var data: Bytes := [];
      while |data| < size
        invariant |data| <= size && data + pending == old(pending)
      {
        var chunk := SocketRecv(size - |data|);
        if chunk == [] {
          assert data + pending == data;
          return Err(ConnectionClosed);
        }
        data := data + chunk;
      }
      assert old(pending)[..size] == data && old(pending)[size..] == pending;
      return Ok(data);
    }

    method ReadTail(high: nat, k: nat) returns (r: Result<nat, Error>)
      modifies this
      ensures Tail(old(pending), high, k).Err? ==> r == Err(Tail(old(pending), high, k).error)
      ensures Tail(old(pending), high, k).Ok? ==> r == Ok(Tail(old(pending), high, k).value.value)
                                                  && pending == Tail(old(pending), high, k).value.rest
    {
      var more := RecvAll(k);
      if more.Err? { return Err(more.error); }
      return Ok(high * Power256(k) + FromBytes(more.value));
    }

    /** _length */
    method ReadLength() returns (r: Result<nat, Error>)
      modifies this
      ensures Length(old(pending)).Err? ==> r == Err(Length(old(pending)).error)
      ensures Length(old(pending)).Ok? ==> r == Ok(Length(old(pending)).value.value)
                                           && pending == Length(old(pending)).value.rest
    {
      var one := RecvAll(1);
      if one.Err? { return Err(one.error); }
      var first := one.value[0];
      if first < 0x80 { return Ok(first); }
      if first < 0xC0 { r := ReadTail(first % 0x40, 1); return; }
      if first < 0xE0 { r := ReadTail(first % 0x20, 2); return; }
      if first < 0xF0 { r := ReadTail(first % 0x10, 3); return; }
      if first == 0xF0 { r := ReadTail(0, 4); return; }
      return Err(UnsupportedControl);
    }

    /** The reading part of _exchange. */
    method ReadReply() returns (r: Result<(seq<Row>, Row), Error>, words: nat)
      modifies this
      ensures words == Exchange(old(pending), START).1 && words <= MAX_WORDS + 1
      ensures Exchange(old(pending), START).0.Err? ==> r == Err(Exchange(old(pending), START).0.error)
      ensures Exchange(old(pending), START).0.Ok? ==>
                var reply := Exchange(old(pending), START).0.value;
                r == Ok((reply.rows, reply.attributes)) && pending == reply.rest && |reply.rows| <= MAX_ROWS
    {
      hide Length, EndSentence;
      ExchangeBounded(pending, START);
      var s := START;
      while true
        invariant Exchange(pending, s) == Exchange(old(pending), START)
        decreases |pending|
      {
        words := s.words;
        var len := ReadLength();
        if len.Err? { return Err(len.error), words; }
        var size := len.value;
        s := s.(total := s.total + size, words := s.words + 1);
        words := s.words;
        if size > MAX_BYTES || s.total > MAX_BYTES || s.words > MAX_WORDS { return Err(LimitExceeded), words; }
        if size > 0 {
          var word := RecvAll(size);
          if word.Err? { return Err(word.error), words; }
          s := s.(sentence := s.sentence + [word.value]);
          continue;
        }
        if s.sentence == [] { continue; }
        match EndSentence(s) {
          case Raise(e) => return Err(e), words;
          case Return(rows, attributes) => return Ok((rows, attributes)), words;
          case Continue(t) => s := t;
        }
      }
    }
  }
}
