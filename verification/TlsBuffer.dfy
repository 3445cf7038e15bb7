/** SSLBuffer: bytes in an allocated block, with consumed bytes in front and room behind. */
module TlsBuffer {
  import opened Words

  const ALIGN_PAYLOAD: nat := 8
  const MAX_CAP: nat := 0xffff

  method Copy(to: array<Byte>, at: nat, bytes: seq<Byte>)
    requires at + |bytes| <= to.Length
    modifies to
    ensures to[at..at + |bytes|] == bytes
    ensures forall j :: 0 <= j < to.Length && !(at <= j < at + |bytes|) ==> to[j] == old(to[j])
  {
    for i := 0 to |bytes|
      invariant to[at..at + i] == bytes[..i]
      invariant forall j :: 0 <= j < to.Length && !(at <= j < at + i) ==> to[j] == old(to[j])
    {
      to[at + i] := bytes[i];
    }
  }

  class SslBuffer {
    var buf: array?<Byte>
    var offset: nat
    var size: nat
    var cap: nat

    ghost predicate Valid()
      reads this
    {
      if buf == null then offset == 0 && size == 0 && cap == 0 else size <= cap && offset + cap <= buf.Length
    }

    ghost function Contents(): (bs: seq<Byte>)
      requires Valid()
      reads this, buf
      ensures |bs| == size
    {
      if buf == null then [] else buf[offset..offset + size]
    }

    constructor ()
      ensures Valid() && Contents() == [] && buf == null
    {
      buf, offset, size, cap := null, 0, 0, 0;
    }

    method Clear()
      modifies this
      ensures Valid() && Contents() == [] && buf == null
    {
      buf, offset, size, cap := null, 0, 0, 0;
    }

    /** EnsureCap moves the contents to a larger block, placed so that what follows headerLen
        bytes is aligned; `address` is where the allocator puts the block. */
    method EnsureCap(headerLen: nat, newCap: nat, address: nat) returns (ok: bool)
      requires Valid()
      modifies this
      ensures Valid() && Contents() == old(Contents())
      ensures ok <==> newCap <= MAX_CAP
      ensures ok ==> cap >= newCap
      ensures buf == old(buf) || fresh(buf)
      ensures buf != old(buf) ==> (address + offset + headerLen) % ALIGN_PAYLOAD == 0
    {
      if newCap > MAX_CAP { return false; }
      if cap >= newCap { return true; }
      var newBuf := new Byte[newCap + ALIGN_PAYLOAD - 1](i => 0);
      var newOffset: nat := (0 - headerLen - address) % ALIGN_PAYLOAD;
      if buf != null {
        Copy(newBuf, newOffset, buf[offset..offset + size]);
      }
      buf, offset, cap := newBuf, newOffset, newCap;
      ok := true;
    }

    /** Filling in the next bytes, and DidWrite. */
    method Append(bytes: seq<Byte>)
      requires Valid() && size + |bytes| <= cap
      modifies this`size, buf
      ensures Valid() && Contents() == old(Contents()) + bytes
    {
      if buf != null {
        ghost var was := Contents();
        var end := offset + size;
        Copy(buf, end, bytes);
        assert buf[offset..end] == was;
        assert buf[offset..end + |bytes|] == buf[offset..end] + bytes;
      }
      size := size + |bytes|;
    }

    method Consume(len: nat)
      requires Valid() && len <= size
      modifies this
      ensures Valid() && Contents() == old(Contents())[len..] && buf == old(buf)
    {
      offset, size, cap := offset + len, size - len, cap - len;
    }
  }
}
