/** The durable-file interface: a byte sequence with a position. */
module ByteFileModel {
  import opened CacheTypes
  import opened Bytes

  class ByteFile {
    var data: seq<byte>
    var pos: nat

    constructor (data: seq<byte>)
      ensures this.data == data && pos == 0
    {
      this.data, pos := data, 0;
    }

    method SeekTo(offset: nat)
      modifies this`pos
      ensures pos == offset
    {
      pos := offset;
    }

    method SeekEnd()
      modifies this`pos
      ensures pos == |data|
    {
      pos := |data|;
    }

    /** Reads exactly n bytes, or reports a short read. */
    method ReadExact(n: nat) returns (bytes: Option<seq<byte>>)
      requires pos <= |data|
      modifies this`pos
      ensures old(pos) <= pos <= |data|
      ensures Take(data[old(pos)..], n) == if bytes.Some? then Got(bytes.value, data[pos..]) else Short
      ensures bytes.Some? ==> pos == old(pos) + n
    {
      if pos + n > |data| {
        pos := |data|;
        return None;
      }
      assert data[pos..][..n] == data[pos..pos + n] && data[pos..][n..] == data[pos + n..];
      bytes := Some(data[pos..pos + n]);
      pos := pos + n;
    }

    /** Reads a k-byte number. */
    method ReadInt(k: nat) returns (n: Option<nat>)
      requires pos <= |data|
      modifies this`pos
      ensures old(pos) <= pos <= |data|
      ensures TakeInt(data[old(pos)..], k) == if n.Some? then Got(n.value, data[pos..]) else Short
      ensures n.Some? ==> pos == old(pos) + k
    {
      var bytes := ReadExact(k);
      n := if bytes.Some? then Some(UnLe(bytes.value)) else None;
    }

    /** Overwrites from the position on, growing the file as needed. */
    method Write(bytes: seq<byte>)
      requires pos <= |data|
      modifies this
      ensures data == Overwritten(old(data), old(pos), bytes) && pos == old(pos) + |bytes|
    {
      data := Overwritten(data, pos, bytes);
      pos := pos + |bytes|;
    }

    /** Cuts the file; the position is not specified afterwards. */
    method SetLength(n: nat)
      requires n <= |data|
      modifies this
      ensures data == old(data)[..n] && pos <= |data|
    {
      data := data[..n];
      pos := 0;
    }
  }

  function Overwritten(data: seq<byte>, pos: nat, bytes: seq<byte>): (r: seq<byte>)
    requires pos <= |data|
    ensures pos == |data| ==> r == data + bytes
  {
    if pos + |bytes| >= |data| then data[..pos] + bytes else data[..pos] + bytes + data[pos + |bytes|..]
  }
}
