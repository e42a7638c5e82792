/** The transport buffers of TLS (ssl_buffer.cc, internal.h). */
module SslBuffer {
  import opened Bytes

  const SSL3_ALIGN_PAYLOAD := 8

  /** A buffer whose contents start at an offset, with some capacity from there on. */
  class SSLBuffer {
    var buf: array?<byte>
    var offset: nat
    var size: nat
    var cap: nat
    ghost var contents: seq<byte>

    ghost predicate Valid()
      reads this, buf
    {
      && size == |contents| <= cap
      && if buf == null then cap == 0 else offset + cap <= buf.Length && contents == buf[offset..offset + size]
    }

    function Span(): (s: seq<byte>)
      requires Valid()
      reads this, buf
      ensures s == contents
    {
      if buf == null then [] else buf[offset..offset + size]
    }

    constructor ()
      ensures Valid() && buf == null && contents == []
    {
      buf, offset, size, cap, contents := null, 0, 0, 0, [];
    }

    method Clear()
      modifies this
      ensures Valid() && buf == null && contents == []
    {
      buf, offset, size, cap, contents := null, 0, 0, 0, [];
    }

    /** EnsureCap: the contents are kept in a buffer that is large enough. Where the alignment puts them is left
        open. */
    method EnsureCap(newCap: nat) returns (ok: bool)
      requires Valid()
      modifies this
      ensures Valid() && contents == old(contents) && ok == (newCap <= 0xFFFF)
      ensures ok ==> cap >= newCap
      ensures buf == old(buf) || fresh(buf)
    {
      if newCap > 0xFFFF {
        return false;
      }
      ok := true;
      if cap >= newCap {
        return;
      }
      var newBuf := new byte[newCap + SSL3_ALIGN_PAYLOAD - 1];
      var newOffset: nat :| newOffset < SSL3_ALIGN_PAYLOAD;
      if buf != null {
        forall i | 0 <= i < size {
          newBuf[newOffset + i] := buf[offset + i];
        }
      }
      assert newBuf[newOffset..newOffset + size] == contents;
      buf, offset, cap := newBuf, newOffset, newCap;
    }

    /** Bytes into what remains of the buffer, and DidWrite. The abort for want of room is never reached. */
    method Append(s: seq<byte>)
      requires Valid() && |s| <= cap - size
      modifies this, buf
      ensures Valid() && buf == old(buf) && cap == old(cap) && contents == old(contents) + s
    {
      if buf != null {
        forall i | 0 <= i < |s| {
          buf[offset + size + i] := s[i];
        }
        assert buf[offset..offset + size] == contents;
        assert buf[offset + size..offset + size + |s|] == s;
        assert buf[offset..offset + size + |s|] == contents + s;
      }
      contents := contents + s;
      DidWrite(|s|);
    }

    method DidWrite(newSize: nat)
      requires newSize <= cap - size
      modifies this`size
      ensures size == old(size) + newSize
    {
      size := size + newSize;
    }

    /** Consume: bytes from the front. The abort for want of contents is never reached. */
    method Consume(len: nat)
      requires Valid() && len <= size
      modifies this
      ensures Valid() && buf == old(buf) && contents == old(contents)[len..]
    {
      offset := offset + len;
      size := size - len;
      cap := cap - len;
      contents := contents[len..];
    }

    method DiscardConsumed()
      requires Valid()
      modifies this
      ensures Valid() && contents == old(contents) && (size == 0 ==> buf == null) && (buf == old(buf) || buf == null)
    {
      if size == 0 {
        Clear();
      }
    }
  }
}
