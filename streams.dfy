// The two sides of System.IO.Stream that the upload path uses: a stream that is read from
// (an HTTP request body, a stored blob) and a stream that is written to (the writer end of
// the pipe that feeds a blob upload).
module Streams {
  import opened Sha256Spec

  /**
   * A readable stream over a fixed content. A network stream may hand out fewer bytes than
   * asked for; `maxChunk` is the most it hands out per call, and it hands out at least one
   * byte per call until its end (a read of zero bytes means the end).
   */
  class ReadStream {
    const content: seq<Byte>
    const canRead: bool
    const maxChunk: nat
    var position: nat
    var flushes: nat

    ghost predicate Valid()
      reads this
    {
      position <= |content| && maxChunk > 0
    }

    constructor (content: seq<Byte>, canRead: bool, maxChunk: nat)
      requires maxChunk > 0
      ensures Valid()
      ensures this.content == content && this.canRead == canRead && this.maxChunk == maxChunk
      ensures position == 0 && flushes == 0
    {
      this.content := content;
      this.canRead := canRead;
      this.maxChunk := maxChunk;
      position := 0;
      flushes := 0;
    }

    /** The number of bytes a Read of `count` bytes hands out at the current position. */
    function Available(count: nat): (n: nat)
      requires Valid()
      reads this
      ensures n <= count && position + n <= |content|
      ensures n == 0 <==> count == 0 || position == |content|
    {
      var left := |content| - position;
      if count <= maxChunk && count <= left then count
      else if maxChunk <= left then maxChunk
      else left
    }

    /** Stream.Read into `buffer[offset..offset + count]`; returns how many bytes it delivered. */
    method Read(buffer: array<Byte>, offset: nat, count: nat) returns (read: nat)
      requires Valid() && offset + count <= buffer.Length
      modifies this, buffer
      ensures Valid() && flushes == old(flushes)
      ensures read == old(Available(count))
      ensures position == old(position) + read
      ensures buffer[offset..offset + read] == content[old(position)..position]
      ensures buffer[..offset] == old(buffer[..offset])
      ensures buffer[offset + read..] == old(buffer[offset + read..])
    {
      read := Available(count);
      var p, i := position, 0;
      while i < read
        invariant i <= read
        invariant forall j | offset <= j < offset + i :: buffer[j] == content[p + (j - offset)]
        invariant forall j | 0 <= j < offset || offset + read <= j < buffer.Length :: buffer[j] == old(buffer[j])
        modifies buffer
      {
        buffer[offset + i] := content[p + i];
        i := i + 1;
      }
      assert buffer[offset..offset + read] == content[p..p + read];
      position := p + read;
    }

    /** Stream.ReadByte: the next byte, or -1 at the end of the stream. */
    method ReadByte() returns (b: int)
      requires Valid()
      modifies this
      ensures Valid() && flushes == old(flushes)
      ensures old(position) == |content| ==> b == -1 && position == old(position)
      ensures old(position) < |content| ==> b == content[old(position)] as int && position == old(position) + 1
    {
      if position == |content| {
        b := -1;
      } else {
        b := content[position] as int;
        position := position + 1;
      }
    }

    method Flush()
      modifies this
      ensures position == old(position) && flushes == old(flushes) + 1
    {
      flushes := flushes + 1;
    }
  }

  /** A writable stream that keeps everything written to it, in order. */
  class WriteStream {
    const canWrite: bool
    var written: seq<Byte>
    var flushes: nat

    constructor (canWrite: bool)
      ensures this.canWrite == canWrite && written == [] && flushes == 0
    {
      this.canWrite := canWrite;
      written := [];
      flushes := 0;
    }

    method Write(bytes: seq<Byte>)
      modifies this
      ensures written == old(written) + bytes && flushes == old(flushes)
    {
      written := written + bytes;
    }

    method WriteByte(b: Byte)
      modifies this
      ensures written == old(written) + [b] && flushes == old(flushes)
    {
      written := written + [b];
    }

    method Flush()
      modifies this
      ensures written == old(written) && flushes == old(flushes) + 1
    {
      flushes := flushes + 1;
    }
  }
}
