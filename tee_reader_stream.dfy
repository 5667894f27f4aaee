// TeeReaderStream: a read-only stream that forwards every byte it hands out to a second,
// writable stream, so that whoever reads it (a hash computation) and whoever drains the
// second stream (a blob upload) see the same bytes.
module TeeReader {
  import opened Wrappers
  import opened Sha256Spec
  import opened Streams

  /** The exceptions the stream throws. */
  datatype StreamError = NotReadable | NotWritable | NotSupported

  datatype SeekOrigin = Begin | Current | End

  class TeeReaderStream {
    const readStream: ReadStream
    const writeStream: WriteStream
    /** Where the source stood and what the sink held when the tee was made. */
    ghost const start: nat
    ghost const sinkStart: seq<Byte>
    /** Everything the tee has handed out to its reader so far. */
    ghost var delivered: seq<Byte>

    /** The sink has received exactly the bytes delivered, and they are the source's next bytes. */
    ghost predicate Valid()
      reads this, readStream, writeStream
    {
      readStream.Valid() &&
      start <= readStream.position &&
      delivered == readStream.content[start..readStream.position] &&
      writeStream.written == sinkStart + delivered
    }

    constructor Wrap(readStream: ReadStream, writeStream: WriteStream)
      requires readStream.Valid()
      ensures Valid() && delivered == []
      ensures this.readStream == readStream && this.writeStream == writeStream
      ensures start == readStream.position && sinkStart == writeStream.written
    {
      this.readStream := readStream;
      this.writeStream := writeStream;
      start := readStream.position;
      sinkStart := writeStream.written;
      delivered := [];
    }

    /**
     * The constructor: an unreadable source or an unwritable sink is refused with an
     * ArgumentException, the source being checked first.
     */
    static method Create(readStream: ReadStream, writeStream: WriteStream)
        returns (r: Result<TeeReaderStream, StreamError>)
      requires readStream.Valid()
      ensures !readStream.canRead ==> r == Failure(NotReadable)
      ensures readStream.canRead && !writeStream.canWrite ==> r == Failure(NotWritable)
      ensures readStream.canRead && writeStream.canWrite ==> r.Success?
      ensures r.Success? ==> fresh(r.value) && r.value.Valid() && r.value.delivered == []
      ensures r.Success? ==> r.value.readStream == readStream && r.value.writeStream == writeStream
    {
      if !readStream.canRead {
        return Failure(NotReadable);
      }
      if !writeStream.canWrite {
        return Failure(NotWritable);
      }
      var tee := new TeeReaderStream.Wrap(readStream, writeStream);
      return Success(tee);
    }

    /** Flush flushes the source, then the sink. */
    method Flush()
      requires Valid()
      modifies readStream, writeStream
      ensures Valid()
      ensures readStream.flushes == old(readStream.flushes) + 1
      ensures writeStream.flushes == old(writeStream.flushes) + 1
      ensures readStream.position == old(readStream.position) && writeStream.written == old(writeStream.written)
    {
      readStream.Flush();
      writeStream.Flush();
    }

    /**
     * Read returns what the source returned and copies exactly those bytes of the buffer to
     * the sink; a read of zero bytes writes nothing.
     */
    method Read(buffer: array<Byte>, offset: nat, count: nat) returns (read: nat)
      requires Valid() && offset + count <= buffer.Length
      modifies this, readStream, writeStream, buffer
      ensures Valid()
      ensures read == old(readStream.Available(count))
      ensures readStream.position == old(readStream.position) + read
      ensures buffer[offset..offset + read] == readStream.content[old(readStream.position)..readStream.position]
      ensures writeStream.written == old(writeStream.written) + buffer[offset..offset + read]
      ensures delivered == old(delivered) + buffer[offset..offset + read]
      ensures buffer[..offset] == old(buffer[..offset]) && buffer[offset + read..] == old(buffer[offset + read..])
      ensures readStream.flushes == old(readStream.flushes) && writeStream.flushes == old(writeStream.flushes)
    {
      read := readStream.Read(buffer, offset, count);
      if read > 0 {
        writeStream.Write(buffer[offset..offset + read]);
      }
      delivered := delivered + buffer[offset..offset + read];
    }

    /** ReadByte forwards the byte to the sink if and only if it is not -1. */
    method ReadByte() returns (b: int)
      requires Valid()
      modifies this, readStream, writeStream
      ensures Valid()
      ensures b == -1 <==> old(readStream.position) == |readStream.content|
      ensures b != -1 ==> 0 <= b < 256 && writeStream.written == old(writeStream.written) + [b as Byte]
      ensures b != -1 ==> b == readStream.content[old(readStream.position)] as int
      ensures b == -1 ==> writeStream.written == old(writeStream.written) && delivered == old(delivered)
      ensures readStream.flushes == old(readStream.flushes) && writeStream.flushes == old(writeStream.flushes)
    {
      b := readStream.ReadByte();
      if b > -1 {
        writeStream.WriteByte(b as Byte);
        delivered := delivered + [b as Byte];
      }
    }

    function CanRead(): bool
      reads this
    {
      readStream.canRead
    }

    function Length(): nat
      reads this
    {
      |readStream.content|
    }

    function Position(): nat
      reads this, readStream
    {
      readStream.position
    }

    /** Seek, SetLength, Write and the Position setter all throw NotSupportedException. */
    function Seek(offset: int, origin: SeekOrigin): (r: Result<int, StreamError>)
    {
      Failure(NotSupported)
    }

    function SetLength(value: int): (r: Result<(), StreamError>)
    {
      Failure(NotSupported)
    }

    function Write(buffer: seq<Byte>, offset: int, count: int): (r: Result<(), StreamError>)
    {
      Failure(NotSupported)
    }

    function SetPosition(value: int): (r: Result<(), StreamError>)
    {
      Failure(NotSupported)
    }

    const CanSeek: bool := false
    const CanWrite: bool := false
  }

  /**
   * The tee is forward-only: no caller can move, resize or write it; the only way its
   * position advances is by reading.
   */
  lemma ForwardOnly(tee: TeeReaderStream, offset: int, origin: SeekOrigin, value: int, bytes: seq<Byte>)
    ensures !tee.CanSeek && !tee.CanWrite
    ensures tee.Seek(offset, origin) == Failure(NotSupported)
    ensures tee.SetLength(value) == Failure(NotSupported) && tee.SetPosition(value) == Failure(NotSupported)
    ensures tee.Write(bytes, offset, value) == Failure(NotSupported)
  {
  }

  /**
   * Reading the tee to its end, as a hash computation does, delivers the rest of the source,
   * and the sink then holds exactly that.
   */
  method ReadToEnd(tee: TeeReaderStream, buffer: array<Byte>) returns (consumed: seq<Byte>)
    requires tee.Valid() && buffer.Length > 0
    modifies tee, tee.readStream, tee.writeStream, buffer
    ensures tee.Valid()
    ensures consumed == old(tee.readStream.content[tee.readStream.position..])
    ensures tee.writeStream.written == old(tee.writeStream.written) + consumed
    ensures tee.readStream.position == |tee.readStream.content|
  {
    consumed := [];
    var content, from := tee.readStream.content, tee.readStream.position;
    while true
      invariant tee.Valid()
      invariant from <= tee.readStream.position
      invariant consumed == content[from..tee.readStream.position]
      invariant tee.writeStream.written == old(tee.writeStream.written) + consumed
      decreases |content| - tee.readStream.position
    {
      var n := tee.Read(buffer, 0, buffer.Length);
      if n == 0 {
        break;
      }
      consumed := consumed + buffer[..n];
    }
  }
}
