/** The stream classes of nanopb. */
module PbStream {
  import opened Words
  import opened PbVarint

  /** pb_ostream_t over a memory buffer, or, with no buffer, a sizing stream that only counts. */
  class OStream {
    const buf: array?<Byte>
    var pos: nat            // state: where the next byte goes
    const maxSize: nat
    var bytesWritten: nat
    ghost const base: nat   // where this stream began in the buffer

    ghost predicate Valid()
      reads this
    {
      buf != null ==> bytesWritten <= maxSize && pos == base + bytesWritten && base + maxSize <= buf.Length
    }

    /** Everything written to the buffer so far, through this stream and its parents. */
    ghost function Out(): seq<Byte>
      requires Valid()
      reads this, buf
    {
      if buf == null then [] else buf[..pos]
    }

    /** The outcome of encoding `enc` on a stream that stood at `written` and `out`: success
        exactly when the encoding exists and fits, and then exactly that was added. */
    ghost predicate Wrote(ok: bool, enc: Option<seq<Byte>>, written: nat, out: seq<Byte>)
      requires Valid()
      reads this, buf
    {
      && ok == (enc.Some? && (buf != null ==> written + |enc.value| <= maxSize))
      && (ok ==> bytesWritten == written + |enc.value|)
      && (ok && buf != null ==> Out() == out + enc.value)
    }

    /** pb_ostream_from_buffer. */
    constructor FromBuffer(buf: array<Byte>)
      ensures Valid() && this.buf == buf && pos == 0 && maxSize == buf.Length && bytesWritten == 0
    {
      this.buf := buf;
      pos, maxSize, bytesWritten, base := 0, buf.Length, 0, 0;
    }

    /** PB_OSTREAM_SIZING. */
    constructor Sizing()
      ensures Valid() && buf == null && bytesWritten == 0
    {
      buf := null;
      pos, maxSize, bytesWritten, base := 0, 0, 0, 0;
    }

    /** A substream that writes at most size bytes where the parent stands. */
    constructor Sub(parent: OStream, size: nat)
      requires parent.Valid() && parent.buf != null && parent.bytesWritten + size <= parent.maxSize
      ensures Valid() && buf == parent.buf && pos == base == parent.pos && maxSize == size && bytesWritten == 0
    {
      buf := parent.buf;
      pos, maxSize, bytesWritten, base := parent.pos, size, 0, parent.pos;
    }

    /** pb_write of count bytes.  A sizing stream needs no bytes, only their number. */
    method Write(bytes: seq<Byte>, count: nat) returns (ok: bool)
      requires Valid() && (buf != null ==> |bytes| == count)
      modifies this, buf
      ensures Valid()
      ensures ok == (buf != null ==> old(bytesWritten) + count <= maxSize)
      ensures ok ==> bytesWritten == old(bytesWritten) + count
      ensures ok && buf != null ==> Out() == old(Out()) + bytes && pos == old(pos) + count
      ensures !ok ==> bytesWritten == old(bytesWritten) && pos == old(pos) && Out() == old(Out())
    {
      if buf != null {
        if bytesWritten + count > maxSize { return false; }
        var dest := pos;
        pos := dest + count;
        for i := 0 to count
          modifies buf
          invariant buf[..dest] == old(buf[..pos]) && buf[dest..dest + i] == bytes[..i]
        {
          buf[dest + i] := bytes[i];
        }
        assert bytes[..count] == bytes;
        assert buf[..pos] == buf[..dest] + buf[dest..dest + count];
      }
      bytesWritten := bytesWritten + count;
      return true;
    }
  }

  /** pb_istream_t over a memory buffer. */
  class IStream {
    const data: seq<Byte>
    var pos: nat            // state: where the next byte is
    var bytesLeft: nat

    ghost predicate Valid()
      reads this
    {
      pos + bytesLeft <= |data|
    }

    /** The bytes still to be read. */
    ghost function Rest(): seq<Byte>
      requires Valid()
      reads this
    {
      data[pos..pos + bytesLeft]
    }

    ghost function End(): nat
      reads this
    {
      pos + bytesLeft
    }

    /** pb_istream_from_buffer. */
    constructor FromBuffer(data: seq<Byte>)
      ensures Valid() && Rest() == data && this.data == data && pos == 0
    {
      this.data := data;
      pos, bytesLeft := 0, |data|;
    }

    /** The copy that pb_make_string_substream makes. */
    constructor Sub(parent: IStream, size: nat)
      requires parent.Valid() && size <= parent.bytesLeft
      ensures Valid() && data == parent.data && pos == parent.pos && bytesLeft == size
      ensures Rest() == parent.Rest()[..size]
    {
      data := parent.data;
      pos, bytesLeft := parent.pos, size;
    }

    /** pb_read; a null destination just skips. */
    method Read(count: nat) returns (ok: bool, bytes: seq<Byte>)
      requires Valid()
      modifies this
      ensures Valid()
      ensures ok == (count <= |old(Rest())|)
      ensures ok ==> bytes == old(Rest())[..count] && Rest() == old(Rest())[count..]
      ensures End() == old(End())
    {
      bytes := [];
      if bytesLeft < count { return false, []; }
      bytes := data[pos..pos + count];
      pos := pos + count;
      bytesLeft := bytesLeft - count;
      return true, bytes;
    }

    /** pb_readbyte. */
    method ReadByte() returns (ok: bool, b: Byte)
      requires Valid()
      modifies this
      ensures Valid()
      ensures ok == (old(Rest()) != [])
      ensures ok ==> b == old(Rest())[0] && Rest() == old(Rest())[1..]
      ensures End() == old(End())
    {
      if bytesLeft == 0 { return false, 0; }
      b := data[pos];
      pos := pos + 1;
      bytesLeft := bytesLeft - 1;
      ok := true;
    }
  }
}
