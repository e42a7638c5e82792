/** The outgoing bytes of a TLS connection (s3_pkt.cc, s3_both.cc, ssl_buffer.cc): two queues in front of a transport
    that may take part of what it is given, or nothing. */
module TlsWriter {
  import opened Bytes
  import opened SslBuffer

  const SSL3_RT_CHANGE_CIPHER_SPEC := 20
  const SSL3_RT_ALERT := 21
  const SSL3_RT_HANDSHAKE := 22
  const SSL3_RT_APPLICATION_DATA := 23
  const SSL3_RT_MAX_PLAIN_LENGTH := 16384
  const INT_MAX := 0x7FFF_FFFF

  /** A record that was sealed: its type, its plaintext, and its bytes on the wire. */
  datatype Record = Record(typ: nat, body: seq<byte>, wire: seq<byte>)

  /** The bytes of the records, in the order of sealing. */
  function Wire(log: seq<Record>): seq<byte> {
    if log == [] then [] else Wire(log[..|log| - 1]) + log[|log| - 1].wire
  }

  /** The plaintext of the application's records, of type 23. */
  function AppBytes(log: seq<Record>): seq<byte> {
    if log == [] then []
    else
      var last := log[|log| - 1];
      AppBytes(log[..|log| - 1]) + if last.typ == 23 then last.body else []
  }

  /** The plaintext of the handshake's records, of type 22. */
  function HandshakeBytes(log: seq<Record>): seq<byte> {
    if log == [] then []
    else
      var last := log[|log| - 1];
      HandshakeBytes(log[..|log| - 1]) + if last.typ == 22 then last.body else []
  }

  /** One record more in the log. */
  predicate Logged(log: seq<Record>, typ: nat, body: seq<byte>, log': seq<Record>) {
    && |log'| == |log| + 1
    && log'[..|log|] == log
    && log'[|log|].typ == typ
    && log'[|log|].body == body
  }

  lemma OneMore(log: seq<Record>, r: Record)
    ensures Wire(log + [r]) == Wire(log) + r.wire && Logged(log, r.typ, r.body, log + [r])
  {
    assert (log + [r])[..|log|] == log;
  }

  lemma LoggedBytes(log: seq<Record>, typ: nat, body: seq<byte>, log': seq<Record>)
    requires Logged(log, typ, body, log')
    ensures AppBytes(log') == AppBytes(log) + if typ == SSL3_RT_APPLICATION_DATA then body else []
    ensures HandshakeBytes(log') == HandshakeBytes(log) + if typ == SSL3_RT_HANDSHAKE then body else []
    ensures log <= log'
  {
  }

  /** The application's records carry what it had written before and the first n bytes of data. */
  ghost predicate Carries(log: seq<Record>, before: seq<byte>, data: seq<byte>, n: nat) {
    n <= |data| && AppBytes(log) == before + data[..n]
  }

  lemma CarriesIs(log: seq<Record>, before: seq<byte>, data: seq<byte>, n: nat)
    requires Carries(log, before, data, n)
    ensures n <= |data| && AppBytes(log) == before + data[..n]
  {
  }

  /** From one log to the other, handshake records with the first bytes of a message were added. */
  ghost predicate Added(start: seq<Record>, log: seq<Record>, msg: seq<byte>, done: nat) {
    && done <= |msg| && start <= log && AppBytes(log) == AppBytes(start)
    && HandshakeBytes(log) == HandshakeBytes(start) + msg[..done]
  }

  /** The records that were added are of the handshake and within the limit. */
  ghost predicate Chunks(start: seq<Record>, log: seq<Record>, limit: nat) {
    forall i | |start| <= i < |log| :: log[i].typ == 22 && |log[i].body| <= limit
  }

  lemma OneChunk(start: seq<Record>, was: seq<Record>, log: seq<Record>, limit: nat, body: seq<byte>)
    requires Chunks(start, was, limit) && Logged(was, SSL3_RT_HANDSHAKE, body, log) && |body| <= limit
    ensures Chunks(start, log, limit)
  {
    assert forall i | 0 <= i < |was| :: log[..|was|][i] == log[i];
  }

  lemma NoneAdded(log: seq<Record>, msg: seq<byte>)
    ensures Added(log, log, msg, 0)
  {
    assert HandshakeBytes(log) + msg[..0] == HandshakeBytes(log);
  }

  lemma ChunkAdded(start: seq<Record>, was: seq<Record>, log: seq<Record>, msg: seq<byte>, done: nat, n: nat)
    requires Added(start, was, msg, done) && done + n <= |msg|
    requires Logged(was, SSL3_RT_HANDSHAKE, msg[done..][..n], log)
    ensures Added(start, log, msg, done + n) && msg[done..][n..] == msg[done + n..] && |log| > |start|
  {
    LoggedBytes(was, SSL3_RT_HANDSHAKE, msg[done..][..n], log);
    Chunked(HandshakeBytes(start), msg, done, n);
    hide AppBytes, HandshakeBytes;
  }

  lemma AddedIs(start: seq<Record>, log: seq<Record>, msg: seq<byte>, done: nat)
    requires Added(start, log, msg, done)
    ensures start <= log && AppBytes(log) == AppBytes(start)
    ensures done == |msg| ==> HandshakeBytes(log) == HandshakeBytes(start) + msg
  {
    assert msg[..|msg|] == msg;
  }

  /** What was sent, what is in the buffer, and what is left of the flight. */
  function Queue(sent: seq<byte>, buffered: seq<byte>, flight: Option<seq<byte>>, offset: nat): seq<byte> {
    sent + buffered + if flight.None? || offset > |flight.value| then [] else flight.value[offset..]
  }

  /** More at the end of the flight. */
  lemma Behind(sent: seq<byte>, buffered: seq<byte>, flight: seq<byte>, more: seq<byte>)
    ensures Queue(sent, buffered, None, 0) == Queue(sent, buffered, Some([]), 0)
    ensures Queue(sent, buffered, Some(flight + more), 0) == Queue(sent, buffered, Some(flight), 0) + more
  {
    assert sent + buffered + (flight + more) == sent + buffered + flight + more;
  }

  /** The transport took the front of the buffer. */
  lemma BufferMoves(sent: seq<byte>, buffered: seq<byte>, k: nat, flight: Option<seq<byte>>, offset: nat)
    requires k <= |buffered|
    ensures Queue(sent + buffered[..k], buffered[k..], flight, offset) == Queue(sent, buffered, flight, offset)
  {
    assert sent + buffered[..k] + buffered[k..] == sent + buffered;
  }

  /** The transport took more of the flight. */
  lemma FlightMoves(sent: seq<byte>, flight: seq<byte>, offset: nat, k: nat)
    requires offset + k <= |flight|
    ensures Queue(sent + flight[offset..][..k], [], Some(flight), offset + k) == Queue(sent, [], Some(flight), offset)
  {
    assert sent + flight[offset..][..k] + [] + flight[offset + k..] == sent + [] + flight[offset..];
  }

  /** The rest of the flight goes into the empty buffer. */
  lemma FlightBuffered(sent: seq<byte>, flight: seq<byte>, offset: nat)
    requires offset <= |flight|
    ensures Queue(sent, [] + flight[offset..], None, 0) == Queue(sent, [], Some(flight), offset)
  {
    assert sent + ([] + flight[offset..]) + [] == sent + [] + flight[offset..];
  }

  lemma BufferGrows(sent: seq<byte>, buffered: seq<byte>, more: seq<byte>)
    ensures Queue(sent, buffered + more, None, 0) == Queue(sent, buffered, None, 0) + more
  {
    assert sent + (buffered + more) + [] == sent + buffered + [] + more;
  }

  /** Nothing is left to send. */
  lemma AllSent(sent: seq<byte>, flight: Option<seq<byte>>, offset: nat)
    requires flight.Some? ==> offset == |flight.value|
    ensures Queue(sent, [], flight, offset) == sent == Queue(sent, [], None, 0)
  {
  }

  /** Without a flight, what is in the buffer is what is left to send. */
  lemma NoFlight(sent: seq<byte>, buffered: seq<byte>)
    ensures Queue(sent, buffered, None, 0) == sent <==> buffered == []
  {
    assert |Queue(sent, buffered, None, 0)| == |sent| + |buffered|;
  }

  lemma SentIsPrefix(sent: seq<byte>, buffered: seq<byte>, flight: Option<seq<byte>>, offset: nat)
    ensures sent <= Queue(sent, buffered, flight, offset)
  {
  }

  /** The transport. What its calls return is given by a script; when that is over they fail. */
  class Transport {
    var script: seq<int>
    var sent: seq<byte>

    constructor (script: seq<int>)
      ensures this.script == script && sent == []
    {
      this.script, sent := script, [];
    }

    method Next() returns (ret: int)
      modifies this`script
    {
      if script == [] {
        return -1;
      }
      ret := script[0];
      script := script[1..];
    }

    /** BIO_write. */
    method Write(data: seq<byte>) returns (ret: int)
      modifies this
      ensures ret <= |data|
      ensures sent == if ret <= 0 then old(sent) else old(sent) + data[..ret]
    {
      ret := Next();
      if ret > |data| {
        ret := |data|;
      }
      if ret > 0 {
        sent := sent + data[..ret];
      }
    }

    /** BIO_flush. */
    method Flush() returns (ret: int)
      modifies this`script
    {
      ret := Next();
    }
  }

  /** What may happen to a connection. */
  datatype Op =
    | Message(msg: seq<byte>)
    | Other(cipher: bool, body: seq<byte>)
    | Flush
    | Alert(at: int, alert: seq<byte>)
    | Application(len: nat)
    | Close

  class Writer {
    const bio: Transport
    const writeBuffer: SSLBuffer
    /** tls_seal_record of the n-th record: any function that adds no more than the overhead, and may fail. */
    const seal: (nat, nat, seq<byte>) -> Option<seq<byte>>
    const overhead: nat
    var attempts: nat
    var pendingFlight: Option<seq<byte>>
    var flightOffset: nat
    var wnum: nat
    var wpendTot: nat
    var wpendType: nat
    var wpendBuf: int
    var wpendRet: nat
    var wpendPending: bool
    var shutdown: bool
    var partialWrite: bool
    var movingBuffer: bool
    var maxSendFragment: nat
    ghost var log: seq<Record>

    ghost function Repr(): set<object?>
      reads this, writeBuffer
    {
      {this, bio, writeBuffer, writeBuffer.buf}
    }

    /** What was sent, what is in the buffer and what is left of the flight are the records in the order of sealing.
        A flight is partly sent only when the buffer is empty. */
    ghost predicate Valid()
      reads Repr(), writeBuffer
    {
      && writeBuffer.Valid()
      && (pendingFlight.Some? ==> flightOffset <= |pendingFlight.value|)
      && (flightOffset > 0 ==> pendingFlight.Some? && writeBuffer.size == 0)
      && Queue(bio.sent, writeBuffer.contents, pendingFlight, flightOffset) == Wire(log)
      && (wpendPending ==> wpendRet == wpendTot > 0)
      && maxSendFragment > 0
    }

    /** The application bytes that are sealed and not yet reported to the application. */
    ghost function Pend(): nat
      reads this
    {
      if wpendPending && wpendType == SSL3_RT_APPLICATION_DATA then wpendTot else 0
    }

    /** A write of data is under way, or has not begun: just its first bytes were sealed, each once and in order, after
        what the application had written before. */
    ghost predicate Owes(before: seq<byte>, data: seq<byte>)
      reads this
    {
      Carries(log, before, data, wnum + Pend())
    }

    constructor (bio: Transport, seal: (nat, nat, seq<byte>) -> Option<seq<byte>>, overhead: nat, maxSendFragment: nat,
        partialWrite: bool, movingBuffer: bool)
      requires maxSendFragment > 0 && bio.sent == []
      ensures Valid() && log == [] && this.bio == bio && fresh(writeBuffer) && Owes([], [])
      ensures pendingFlight == None && flightOffset == 0 && wnum == 0 && !wpendPending
    {
      this.bio, this.seal, this.overhead := bio, seal, overhead;
      var buffer := new SSLBuffer();
      writeBuffer := buffer;
      attempts, pendingFlight, flightOffset := 0, None, 0;
      wnum, wpendTot, wpendType, wpendBuf, wpendRet, wpendPending := 0, 0, 0, 0, 0, false;
      shutdown, this.partialWrite, this.movingBuffer := false, partialWrite, movingBuffer;
      this.maxSendFragment := maxSendFragment;
      log := [];
    }

    /** tls_seal_record: at most maxOut bytes. */
    method SealRecord(typ: nat, body: seq<byte>, maxOut: nat) returns (out: Option<seq<byte>>)
      modifies this`attempts
      ensures out.Some? ==> |out.value| <= maxOut
    {
      out := seal(attempts, typ, body);
      attempts := attempts + 1;
      if out.Some? && |out.value| > maxOut {
        out := None;
      }
    }

    /** add_record_to_flight: never while the flight is being written. */
    method AddRecordToFlight(typ: nat, body: seq<byte>) returns (ok: bool)
      requires Valid() && flightOffset == 0
      modifies this`pendingFlight, this`attempts, this`log
      ensures Valid() && flightOffset == 0
      ensures !ok ==> log == old(log)
      ensures ok ==> Logged(old(log), typ, body, log)
    {
      ghost var flight := if pendingFlight.None? then [] else pendingFlight.value;
      Behind(bio.sent, writeBuffer.contents, flight, []);
      hide Queue, Wire, AppBytes, HandshakeBytes;
      if pendingFlight.None? {
        pendingFlight := Some([]);
      }
      var out := SealRecord(typ, body, |body| + overhead);
      if out.None? {
        return false;
      }
      OneMore(log, Record(typ, body, out.value));
      Behind(bio.sent, writeBuffer.contents, flight, out.value);
      pendingFlight := Some(pendingFlight.value + out.value);
      log := log + [Record(typ, body, out.value)];
      ok := true;
    }

    /** The next record of a message. */
    method AddChunk(rest: seq<byte>, ghost start: seq<Record>, ghost msg: seq<byte>, ghost done: nat)
      returns (ok: bool, rest': seq<byte>, ghost done': nat)
      requires Valid() && flightOffset == 0 && done <= |msg| && rest == msg[done..] && Added(start, log, msg, done)
      requires Chunks(start, log, maxSendFragment)
      modifies this`pendingFlight, this`attempts, this`log
      ensures Valid() && flightOffset == 0 && done' <= |msg| && Added(start, log, msg, done')
      ensures Chunks(start, log, maxSendFragment)
      ensures ok ==> rest' == msg[done'..] && |log| > |start| && (rest' == [] || |rest'| < |rest|)
    {
      hide Wire, Queue, Added, AppBytes, HandshakeBytes, Logged, Chunks;
      ghost var was := log;
      var chunk := if |rest| < maxSendFragment then rest else rest[..maxSendFragment];
      assert chunk == msg[done..][..|chunk|];
      rest', done' := rest[|chunk|..], done;
      ok := AddRecordToFlight(SSL3_RT_HANDSHAKE, chunk);
      if ok {
        ChunkAdded(start, was, log, msg, done, |chunk|);
        OneChunk(start, was, log, maxSendFragment, chunk);
        done' := done + |chunk|;
      }
    }

    /** ssl3_add_message: in records of at most maxSendFragment bytes, and at least one. */
    method AddMessage(msg: seq<byte>) returns (ok: bool)
      requires Valid() && flightOffset == 0
      modifies this`pendingFlight, this`attempts, this`log
      ensures Valid() && flightOffset == 0 && old(log) <= log
      ensures AppBytes(log) == AppBytes(old(log))
      ensures ok ==> HandshakeBytes(log) == HandshakeBytes(old(log)) + msg && |log| > |old(log)|
      ensures Chunks(old(log), log, maxSendFragment)
    {
      var rest, more := msg, true;
      ghost var done: nat := 0;
      ghost var start := log;
      NoneAdded(log, msg);
      assert Chunks(start, log, maxSendFragment);
      hide Wire, Queue, Added, AppBytes, HandshakeBytes, Chunks;
      while more
        invariant Valid() && flightOffset == 0 && Added(start, log, msg, done)
        invariant done <= |msg| && rest == msg[done..]
        invariant (more || (rest == [] && |log| > |start|)) && Chunks(start, log, maxSendFragment)
        decreases more, |rest|
      {
        ok, rest, done := AddChunk(rest, start, msg, done);
        if !ok {
          AddedIs(start, log, msg, done);
          return;
        }
        more := rest != [];
      }
      AddedIs(start, log, msg, done);
      ok := true;
    }

    /** ssl3_add_change_cipher_spec and ssl3_add_alert. */
    method AddOther(typ: nat, body: seq<byte>) returns (ok: bool)
      requires Valid() && flightOffset == 0 && (typ == SSL3_RT_CHANGE_CIPHER_SPEC || typ == SSL3_RT_ALERT)
      modifies this`pendingFlight, this`attempts, this`log
      ensures Valid() && flightOffset == 0 && old(log) <= log
      ensures AppBytes(log) == AppBytes(old(log)) && HandshakeBytes(log) == HandshakeBytes(old(log))
      ensures if ok then Logged(old(log), typ, body, log) else log == old(log)
    {
      ghost var was := log;
      ok := AddRecordToFlight(typ, body);
      if ok {
        LoggedBytes(was, typ, body, log);
      }
    }

    /** tls_write_buffer_flush. */
    method BufferFlush() returns (ret: int)
      requires Valid()
      modifies bio, writeBuffer
      ensures Valid() && old(bio.sent) <= bio.sent
      ensures writeBuffer.buf == old(writeBuffer.buf) || writeBuffer.buf == null
      ensures ret > 0 ==> writeBuffer.size == 0
    {
      hide Wire, Queue;
      while writeBuffer.size > 0
        invariant Valid() && old(bio.sent) <= bio.sent
        invariant writeBuffer.buf == old(writeBuffer.buf)
        decreases writeBuffer.size
      {
        ghost var sent, buffered := bio.sent, writeBuffer.contents;
        ret := bio.Write(writeBuffer.Span());
        if ret <= 0 {
          return;
        }
        BufferMoves(sent, buffered, ret, pendingFlight, flightOffset);
        writeBuffer.Consume(ret);
      }
      writeBuffer.Clear();
      ret := 1;
    }

    /** ssl3_flush_flight: the buffer first, then the flight from where it stopped. Success means that all was sent,
        unless there was no flight: what is left in the buffer then stays there. */
    method FlushFlight() returns (ret: int)
      requires Valid()
      modifies bio, writeBuffer, this`pendingFlight, this`flightOffset
      ensures Valid() && old(bio.sent) <= bio.sent
      ensures writeBuffer.buf == old(writeBuffer.buf) || writeBuffer.buf == null
      ensures ret > 0 ==> pendingFlight.None? && flightOffset == 0
      ensures ret > 0 ==> (bio.sent == Wire(log) <==> old(pendingFlight.Some?) || old(writeBuffer.size) == 0)
    {
      hide Wire, Queue;
      if pendingFlight.None? {
        NoFlight(bio.sent, writeBuffer.contents);
        return 1;
      }
      if shutdown || |pendingFlight.value| > INT_MAX {
        return -1;
      }
      if writeBuffer.size > 0 {
        ret := BufferFlush();
        if ret <= 0 {
          return;
        }
      }
      ret := WriteFlight();
      if ret <= 0 {
        return;
      }
      ret := bio.Flush();
      if ret <= 0 {
        return -1;
      }
      AllSent(bio.sent, pendingFlight, flightOffset);
      pendingFlight := None;
      flightOffset := 0;
      ret := 1;
    }

    /** The loop of ssl3_flush_flight. */
    method WriteFlight() returns (ret: int)
      requires Valid() && pendingFlight.Some? && writeBuffer.size == 0
      modifies bio, this`flightOffset
      ensures Valid() && old(bio.sent) <= bio.sent
      ensures ret > 0 ==> flightOffset == |pendingFlight.value|
    {
      hide Wire, Queue;
      while flightOffset < |pendingFlight.value|
        invariant Valid() && old(bio.sent) <= bio.sent
      {
        ghost var sent := bio.sent;
        ret := bio.Write(pendingFlight.value[flightOffset..]);
        if ret <= 0 {
          return;
        }
        FlightMoves(sent, pendingFlight.value, flightOffset, ret);
        flightOffset := flightOffset + ret;
      }
      ret := 1;
    }

    /** ssl3_write_pending: a retry of what is pending, with the same type, no fewer bytes, and the same place unless
        the buffer may move. */
    method WritePending(typ: nat, at: int, len: nat) returns (ret: int)
      requires Valid() && wpendPending
      modifies bio, writeBuffer, this`wpendPending
      ensures Valid() && old(bio.sent) <= bio.sent
      ensures writeBuffer.buf == old(writeBuffer.buf) || writeBuffer.buf == null
      ensures if ret > 0 then !wpendPending && typ == wpendType && ret == wpendTot && writeBuffer.size == 0
              else wpendPending
      ensures wpendTot > len || (!movingBuffer && wpendBuf != at) || wpendType != typ ==>
                ret == -1 && bio.sent == old(bio.sent)
    {
      if wpendTot > len || (!movingBuffer && wpendBuf != at) || wpendType != typ {
        return -1;
      }
      hide Wire, Queue;
      ret := BufferFlush();
      if ret <= 0 {
        return;
      }
      wpendPending := false;
      ret := wpendRet;
    }

    /** do_ssl3_write: what is pending is written first, and then reported as this write's result. A new record goes
        into the buffer, behind what is left of the flight. */
    method DoWrite(typ: nat, at: int, body: seq<byte>) returns (ret: int)
      requires Valid()
      modifies Repr()
      ensures Valid() && old(bio.sent) <= bio.sent
      ensures writeBuffer.buf == old(writeBuffer.buf) || writeBuffer.buf == null || fresh(writeBuffer.buf)
      ensures wnum == old(wnum) && shutdown == old(shutdown) && partialWrite == old(partialWrite)
      ensures movingBuffer == old(movingBuffer) && maxSendFragment == old(maxSendFragment)
      ensures log == old(log) || (old(!wpendPending) && Logged(old(log), typ, body, log))
      ensures log == old(log) ==> ret > 0 ==> old(wpendPending) && old(wpendType) == typ && ret == old(wpendTot)
      ensures log == old(log) ==> ret <= 0 ==> wpendPending == old(wpendPending)
      ensures log == old(log) ==> wpendType == old(wpendType) && wpendTot == old(wpendTot)
      ensures log != old(log) ==> wpendType == typ && wpendTot == |body|
      ensures log != old(log) ==> if ret > 0 then ret == |body| else wpendPending
      ensures ret > 0 ==> !wpendPending && writeBuffer.size == 0
    {
      hide Wire, Queue;
      if wpendPending {
        ret := WritePending(typ, at, |body|);
        return;
      }
      if |body| > SSL3_RT_MAX_PLAIN_LENGTH || writeBuffer.size > 0 {
        return -1;
      }
      if |body| == 0 {
        return 0;
      }
      var ok := SealNew(typ, at, body);
      if !ok {
        return -1;
      }
      ret := WritePending(typ, at, |body|);
    }

    /** A new record: the buffer is made large enough for it and the flight, and the arguments are memorized. */
    method SealNew(typ: nat, at: int, body: seq<byte>) returns (ok: bool)
      requires Valid() && !wpendPending && writeBuffer.size == 0 && body != []
      modifies this`attempts, this`pendingFlight, this`flightOffset, this`log, writeBuffer, writeBuffer.buf
      modifies this`wpendTot, this`wpendType, this`wpendBuf, this`wpendRet, this`wpendPending
      ensures Valid() && (writeBuffer.buf == old(writeBuffer.buf) || fresh(writeBuffer.buf))
      ensures if ok then Logged(old(log), typ, body, log) && wpendPending && wpendTot == |body| && wpendType == typ
              else log == old(log) && !wpendPending && wpendType == old(wpendType) && wpendTot == old(wpendTot)
    {
      hide Wire, Queue;
      ok := MakeRoom(|body|);
      if !ok {
        return;
      }
      ok := SealIntoBuffer(typ, body);
      if !ok {
        return;
      }
      wpendTot, wpendBuf, wpendType, wpendRet, wpendPending := |body|, at, typ, |body|, true;
    }

    /** The buffer becomes large enough for a record of n bytes and the rest of the flight, which goes into it. */
    method MakeRoom(n: nat) returns (ok: bool)
      requires Valid() && writeBuffer.size == 0
      modifies this`pendingFlight, this`flightOffset, writeBuffer, writeBuffer.buf
      ensures Valid() && (writeBuffer.buf == old(writeBuffer.buf) || fresh(writeBuffer.buf))
      ensures ok ==> pendingFlight.None? && flightOffset == 0
    {
      hide Wire, Queue;
      var flightLen := if pendingFlight.None? then 0 else |pendingFlight.value| - flightOffset;
      ok := writeBuffer.EnsureCap(n + overhead + flightLen);
      if ok {
        MoveFlight();
      }
    }

    /** A record at the end of the buffer. */
    method SealIntoBuffer(typ: nat, body: seq<byte>) returns (ok: bool)
      requires Valid() && pendingFlight.None? && flightOffset == 0
      modifies this`attempts, this`log, writeBuffer, writeBuffer.buf
      ensures Valid() && writeBuffer.buf == old(writeBuffer.buf)
      ensures if ok then Logged(old(log), typ, body, log) else log == old(log)
    {
      hide Wire, Queue;
      var out := SealRecord(typ, body, writeBuffer.cap - writeBuffer.size);
      ok := out.Some?;
      if ok {
        BufferGrows(bio.sent, writeBuffer.contents, out.value);
        OneMore(log, Record(typ, body, out.value));
        writeBuffer.Append(out.value);
        log := log + [Record(typ, body, out.value)];
      }
    }

    /** The rest of the flight goes into the buffer. */
    method MoveFlight()
      requires Valid() && writeBuffer.size == 0
      requires pendingFlight.Some? ==> |pendingFlight.value| - flightOffset <= writeBuffer.cap
      modifies this`pendingFlight, this`flightOffset, writeBuffer, writeBuffer.buf
      ensures Valid() && pendingFlight.None? && flightOffset == 0
      ensures writeBuffer.buf == old(writeBuffer.buf)
    {
      hide Wire, Queue;
      if pendingFlight.Some? {
        FlightBuffered(bio.sent, pendingFlight.value, flightOffset);
        writeBuffer.Append(pendingFlight.value[flightOffset..]);
        pendingFlight := None;
        flightOffset := 0;
      }
    }

    /** One turn of the loop of ssl3_write_app_data: a record with the next nw bytes, or the one that is pending. */
    method WriteChunk(at: int, data: seq<byte>, tot: nat, nw: nat, ghost before: seq<byte>) returns (ret: int)
      requires Valid() && tot + nw <= |data| && Carries(log, before, data, tot + Pend())
      modifies Repr()
      ensures Valid() && old(bio.sent) <= bio.sent && old(log) <= log
      ensures writeBuffer.buf == old(writeBuffer.buf) || writeBuffer.buf == null || fresh(writeBuffer.buf)
      ensures wnum == old(wnum) && shutdown == old(shutdown) && partialWrite == old(partialWrite)
      ensures movingBuffer == old(movingBuffer) && maxSendFragment == old(maxSendFragment)
      ensures ret > 0 ==> !wpendPending && writeBuffer.size == 0
      ensures Carries(log, before, data, tot + if ret > 0 then ret else Pend())
    {
      hide Wire, Queue, AppBytes, HandshakeBytes;
      ghost var was := log;
      var body := data[tot..tot + nw];
      ret := DoWrite(SSL3_RT_APPLICATION_DATA, at + tot, body);
      if log != was {
        LoggedBytes(was, SSL3_RT_APPLICATION_DATA, body, log);
        assert data[..tot] + body == data[..tot + nw];
        assert before + data[..tot] + body == before + data[..tot + nw];
      }
    }

    /** And what has come of the whole write so far. */
    method WriteMore(at: int, data: seq<byte>, tot: nat, nw: nat, ghost before: seq<byte>, ghost sent0: seq<byte>,
        ghost log0: seq<Record>)
      returns (ret: int)
      requires Valid() && tot + nw <= |data| && Carries(log, before, data, tot + Pend())
      requires sent0 <= bio.sent && log0 <= log
      modifies Repr()
      ensures Valid() && sent0 <= bio.sent && log0 <= log
      ensures writeBuffer.buf == old(writeBuffer.buf) || writeBuffer.buf == null || fresh(writeBuffer.buf)
      ensures wnum == old(wnum) && shutdown == old(shutdown) && partialWrite == old(partialWrite)
      ensures movingBuffer == old(movingBuffer) && maxSendFragment == old(maxSendFragment)
      ensures ret > 0 ==> !wpendPending && writeBuffer.size == 0 && tot + ret <= |data|
      ensures ret > 0 ==> AppBytes(log) == before + data[..tot + ret]
      ensures Carries(log, before, data, tot + if ret > 0 then ret else Pend())
    {
      hide Wire, Queue, AppBytes, HandshakeBytes, Carries;
      ghost var sent, was := bio.sent, log;
      ret := WriteChunk(at, data, tot, nw, before);
      PrefixGrows(sent0, sent, bio.sent);
      PrefixGrows(log0, was, log);
      CarriesIs(log, before, data, tot + if ret > 0 then ret else Pend());
    }

    /** What was written is remembered for the next attempt. */
    method Suspend(tot: nat)
      requires Valid()
      modifies this`wnum
      ensures Valid() && wnum == tot && Pend() == old(Pend())
    {
      hide Wire, Queue;
      wnum := tot;
    }

    /** ssl3_write_app_data. A write that is retried with the same data seals each of its bytes exactly once, in order,
        however often it fails in between; what it reports is what was sealed. */
    method WriteAppData(at: int, data: seq<byte>, ghost before: seq<byte>) returns (ret: int)
      requires Valid() && Owes(before, data)
      modifies Repr()
      ensures Valid() && old(bio.sent) <= bio.sent && old(log) <= log
      ensures writeBuffer.buf == old(writeBuffer.buf) || writeBuffer.buf == null || fresh(writeBuffer.buf)
      ensures ret <= 0 ==> Owes(before, data)
      ensures ret > 0 ==>
                && ret <= |data|
                && (ret == |data| || partialWrite)
                && wnum == 0 && !wpendPending && writeBuffer.size == 0
                && AppBytes(log) == before + data[..ret]
    {
      if shutdown {
        return -1;
      }
      var tot := wnum;
      wnum := 0;
      if |data| < tot {
        return -1;
      }
      var n := |data| - tot;
      hide Wire, Queue, AppBytes, Carries;
      ghost var sent0, log0 := bio.sent, log;
      while true
        invariant Valid() && sent0 <= bio.sent && log0 <= log
        invariant writeBuffer.buf == old(writeBuffer.buf) || writeBuffer.buf == null || fresh(writeBuffer.buf)
        invariant wnum == 0 && n >= 0 && tot + n == |data|
        invariant Carries(log, before, data, tot + Pend())
        decreases n
      {
        var nw := if n > maxSendFragment then maxSendFragment else n;
        ret := WriteMore(at, data, tot, nw, before, sent0, log0);
        if ret <= 0 {
          Suspend(tot);
          return;
        }
        if ret == n || partialWrite {
          ret := tot + ret;
          return;
        }
        n := n - ret;
        tot := tot + ret;
      }
    }

    /** ssl3_dispatch_alert: a record of its own; while an application write is pending it fails. */
    method DispatchAlert(at: int, alert: seq<byte>) returns (ret: int)
      requires Valid()
      modifies Repr()
      ensures Valid() && old(bio.sent) <= bio.sent && old(log) <= log
      ensures writeBuffer.buf == old(writeBuffer.buf) || writeBuffer.buf == null || fresh(writeBuffer.buf)
      ensures wnum == old(wnum) && Pend() == old(Pend()) && AppBytes(log) == AppBytes(old(log))
      ensures log == old(log) || (old(!wpendPending) && Logged(old(log), 21, alert, log))
      ensures ret > 0 ==> !wpendPending && writeBuffer.size == 0
    {
      hide Wire, Queue, AppBytes, HandshakeBytes;
      ghost var was := log;
      ret := DoWrite(SSL3_RT_ALERT, at, alert);
      if log != was {
        LoggedBytes(was, SSL3_RT_ALERT, alert, log);
      }
    }

    /** Any run: messages are queued, flights flushed, alerts sent, and the application writes a stream of bytes in
        calls of any length, each repeated with the same bytes until it succeeds. */
    method Run(ops: seq<Op>, stream: seq<byte>) returns (reported: nat)
      requires Valid() && log == [] && wnum == 0 && !wpendPending
      modifies Repr()
      ensures Valid() && bio.sent <= Wire(log)
      ensures reported + wnum + Pend() <= |stream| && AppBytes(log) == stream[..reported + wnum + Pend()]
    {
      reported := 0;
      var i, cur := 0, 0;
      assert stream[..0] == [];
      hide Wire, Queue, AppBytes;
      while i < |ops|
        invariant 0 <= i <= |ops| && Valid() && reported + cur <= |stream|
        invariant writeBuffer.buf == old(writeBuffer.buf) || writeBuffer.buf == null || fresh(writeBuffer.buf)
        invariant wnum + Pend() <= cur && AppBytes(log) == stream[..reported + wnum + Pend()]
      {
        reported, cur := Perform(ops[i], stream, reported, cur);
        i := i + 1;
      }
      SentIsPrefix(bio.sent, writeBuffer.contents, pendingFlight, flightOffset);
    }

    /** One step of a run. A write that is under way goes on with its own length. */
    method Perform(op: Op, stream: seq<byte>, reported: nat, cur: nat) returns (reported': nat, cur': nat)
      requires Valid() && reported + cur <= |stream|
      requires wnum + Pend() <= cur && AppBytes(log) == stream[..reported + wnum + Pend()]
      modifies Repr()
      ensures Valid() && reported' + cur' <= |stream|
      ensures writeBuffer.buf == old(writeBuffer.buf) || writeBuffer.buf == null || fresh(writeBuffer.buf)
      ensures wnum + Pend() <= cur' && AppBytes(log) == stream[..reported' + wnum + Pend()]
    {
      hide Wire, Queue, AppBytes, HandshakeBytes;
      reported', cur' := reported, cur;
      var ok, ret;
      match op {
        case Message(msg) =>
          if flightOffset == 0 {
            ok := AddMessage(msg);
          }
        case Other(cipher, body) =>
          if flightOffset == 0 {
            ok := AddOther(if cipher then SSL3_RT_CHANGE_CIPHER_SPEC else SSL3_RT_ALERT, body);
          }
        case Flush =>
          ret := FlushFlight();
        case Alert(at, alert) =>
          ret := DispatchAlert(at, alert);
        case Application(len) =>
          if wnum == 0 && !wpendPending && len <= |stream| - reported {
            cur' := len;
          }
          ret := WriteNext(stream, reported, cur');
          if ret > 0 {
            reported', cur' := reported + ret, cur' - ret;
          }
        case Close =>
          shutdown := true;
      }
    }

    /** The application's next write: cur bytes of its stream, from where it has got to. */
    method WriteNext(stream: seq<byte>, reported: nat, cur: nat) returns (ret: int)
      requires Valid() && reported + cur <= |stream|
      requires wnum + Pend() <= cur && AppBytes(log) == stream[..reported + wnum + Pend()]
      modifies Repr()
      ensures Valid()
      ensures writeBuffer.buf == old(writeBuffer.buf) || writeBuffer.buf == null || fresh(writeBuffer.buf)
      ensures var done := if ret > 0 then ret else 0;
              done + wnum + Pend() <= cur && AppBytes(log) == stream[..reported + done + wnum + Pend()]
    {
      hide Wire, Queue, AppBytes;
      var before, data := stream[..reported], stream[reported..reported + cur];
      Piece(stream, reported, cur, wnum + Pend());
      ret := WriteAppData(reported, data, before);
      Piece(stream, reported, cur, if ret > 0 then ret else wnum + Pend());
    }
  }

  lemma Piece(stream: seq<byte>, reported: nat, cur: nat, n: nat)
    requires n <= cur && reported + cur <= |stream|
    ensures stream[..reported] + stream[reported..reported + cur][..n] == stream[..reported + n]
  {
  }

  lemma PrefixGrows<T>(a: seq<T>, b: seq<T>, c: seq<T>)
    requires a <= b <= c
    ensures a <= c
  {
  }

  lemma Chunked(before: seq<byte>, msg: seq<byte>, done: nat, n: nat)
    requires done + n <= |msg|
    ensures before + msg[..done] + msg[done..][..n] == before + msg[..done + n] && msg[done..][n..] == msg[done + n..]
  {
    assert msg[..done] + msg[done..][..n] == msg[..done + n];
  }
}
