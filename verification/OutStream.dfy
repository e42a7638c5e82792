/** nanopb's output streams and the encoder that writes to them (pb_encode.c). */
module OutStream {
  import opened Bytes
  import opened Varints
  import opened Descriptors
  import opened Scalars
  import opened Encoding

  /** What a stream looks like: whether it only counts, its buffer, its place in it, its limit and its count. */
  datatype Look = Look(sizing: bool, bytes: seq<byte>, state: nat, maxSize: nat, written: nat)
  {
    predicate Ok() {
      !sizing ==> written <= maxSize && state + (maxSize - written) <= |bytes|
    }

    /** Where the stream's part of the buffer ends. */
    function End(): nat
      requires Ok() && !sizing
    {
      state + (maxSize - written)
    }

    predicate Takes(n: nat) {
      sizing || written + n <= maxSize
    }
  }

  /** An output was written or did not fit. In neither case is anything outside the stream's part of the buffer
      touched. */
  predicate Wrote(a: Look, e: Output, ok: bool, b: Look) {
    && a.Ok()
    && b.Ok()
    && b.sizing == a.sizing && b.maxSize == a.maxSize && |b.bytes| == |a.bytes|
    && ok == (e.Some? && a.Takes(|e.value|))
    && (ok ==> b.written == a.written + |e.value|)
    && (a.sizing ==> b.bytes == a.bytes)
    && (!a.sizing ==>
          && b.bytes[..a.state] == a.bytes[..a.state]
          && b.bytes[a.End()..] == a.bytes[a.End()..]
          && (ok ==> b.state == a.state + |e.value| && b.bytes[a.state..b.state] == e.value))
  }

  /** What failed stays failed, whatever was to come. */
  lemma Stopped(a: Look, e: Output, b: Look, more: Output)
    requires Wrote(a, e, false, b)
    ensures Wrote(a, Then(e, more), false, b)
  {
  }

  /** One output after the other. */
  lemma InTurn(a: Look, e: Output, b: Look, more: Output, ok: bool, c: Look)
    requires Wrote(a, e, true, b) && Wrote(b, more, ok, c)
    ensures Wrote(a, Then(e, more), ok, c)
  {
    if !a.sizing {
      assert a.End() == b.End();
      assert c.bytes[..a.state] == c.bytes[..b.state][..a.state];
      if ok {
        assert c.bytes[a.state..b.state] == c.bytes[..b.state][a.state..] == b.bytes[a.state..b.state];
        assert c.bytes[a.state..c.state] == c.bytes[a.state..b.state] + c.bytes[b.state..c.state];
      }
    }
  }

  /** One more output after those that were done, before more to come. */
  lemma Onward(a: Look, done: Output, b: Look, e: Output, ok: bool, c: Look, more: Output)
    requires Wrote(a, done, true, b) && Wrote(b, e, ok, c)
    ensures if ok then Wrote(a, Then(done, e), true, c) else Wrote(a, Then(done, Then(e, more)), false, c)
  {
    InTurn(a, done, b, e, ok, c);
    if !ok {
      Stopped(a, Then(done, e), c, more);
      ThenThen(done, e, more);
    }
  }

  lemma ThenThen(a: Output, b: Output, c: Output)
    ensures Then(a, Then(b, c)) == Then(Then(a, b), c)
  {
    if a.Some? && b.Some? && c.Some? {
      assert a.value + (b.value + c.value) == a.value + b.value + c.value;
    }
  }

  /** Nothing to write. */
  lemma Nothing(a: Look)
    requires a.Ok()
    ensures Wrote(a, Some([]), true, a)
  {
  }

  /** A substream that may write just e, in the place of its parent. */
  lemma Within(a: Look, e: seq<byte>, b: Look)
    requires a.Ok() && !a.sizing && a.Takes(|e|)
    requires Wrote(a.(maxSize := |e|, written := 0), Some(e), true, b)
    ensures Wrote(a, Some(e), true, b.(maxSize := a.maxSize, written := a.written + b.written))
  {
    var sub := a.(maxSize := |e|, written := 0);
    assert sub.End() <= a.End();
    assert b.bytes[a.End()..] == b.bytes[sub.End()..][a.End() - sub.End()..];
    assert a.bytes[a.End()..] == a.bytes[sub.End()..][a.End() - sub.End()..];
  }

  /** pb_ostream_t. A stream without a buffer only counts what would be written. */
  class OStream {
    const buffer: array?<byte>
    var state: nat
    const maxSize: nat
    var bytesWritten: nat

    ghost function Now(): Look
      reads this, buffer
    {
      Look(buffer == null, if buffer == null then [] else buffer[..], state, maxSize, bytesWritten)
    }

    ghost predicate Valid()
      reads this, buffer
    {
      Now().Ok()
    }

    /** PB_OSTREAM_SIZING. */
    constructor Sizing()
      ensures Valid() && buffer == null && bytesWritten == 0
    {
      buffer, state, maxSize, bytesWritten := null, 0, 0, 0;
    }

    /** pb_ostream_from_buffer, and a substream at some place in the buffer. */
    constructor At(buffer: array<byte>, state: nat, maxSize: nat)
      requires state + maxSize <= buffer.Length
      ensures Valid() && this.buffer == buffer && this.state == state && this.maxSize == maxSize && bytesWritten == 0
    {
      this.buffer, this.state, this.maxSize, this.bytesWritten := buffer, state, maxSize, 0;
    }

    /** buf_write. */
    method BufWrite(buf: seq<byte>)
      requires Valid() && buffer != null && state + |buf| <= buffer.Length
      modifies this`state, buffer
      ensures state == old(state) + |buf|
      ensures buffer[..] == old(buffer[..state]) + buf + old(buffer[state + |buf|..])
    {
      var dest := state;
      state := dest + |buf|;
      var i := 0;
      while i < |buf|
        invariant 0 <= i <= |buf| && state == dest + |buf|
        invariant buffer[..] == old(buffer[..state]) + buf[..i] + old(buffer[state + i..])
      {
        buffer[dest + i] := buf[i];
        i := i + 1;
        assert buf[..i] == buf[..i - 1] + [buf[i - 1]];
      }
      assert buf[..|buf|] == buf;
    }

    /** pb_write. A sizing stream does not look at the bytes. */
    method Write(buf: seq<byte>, count: nat) returns (ok: bool)
      requires Valid() && (buffer != null ==> |buf| == count)
      modifies this, buffer
      ensures |buf| == count ==> Wrote(old(Now()), Some(buf), ok, Now())
      ensures buffer == null ==> ok && Now() == old(Now()).(written := old(bytesWritten) + count)
    {
      ghost var before := Now();
      if buffer != null {
        if bytesWritten + count > maxSize {
          return false;
        }
        BufWrite(buf);
        assert buffer[..before.state] == before.bytes[..before.state];
      }
      bytesWritten := bytesWritten + count;
      ok := true;
    }
  }
}
