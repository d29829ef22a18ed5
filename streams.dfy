/**
 * Byte streams and the chunked copy between them. An input stream delivers a fixed sequence
 * of bytes in chunks whose sizes it chooses; an output stream records every write.
 */
module Streams {
  import opened Common

  /** Size of the copy buffer. */
  const BufferSize: nat := 4096

  /** A call that either returns a value or throws IOException. */
  datatype IO<T> = Done(value: T) | IOException

  /**
   * An InputStream over `data`. Once every byte is delivered, read returns -1, or, for a
   * stream whose connection `breaks`, throws IOException instead of reaching end of stream.
   */
  class InputStream {
    const data: seq<byte>
    const breaks: bool
    var pos: nat

    ghost predicate Valid()
      reads this
    {
      pos <= |data|
    }

    /** The bytes not yet delivered. */
    function Remaining(): seq<byte>
      reads this
      requires Valid()
    {
      data[pos..]
    }

    constructor (data: seq<byte>, breaks: bool)
      ensures Valid() && this.data == data && this.breaks == breaks && pos == 0
    {
      this.data := data;
      this.breaks := breaks;
      pos := 0;
    }

    /** read(b): at least one and at most b.Length of the remaining bytes, -1 at end of stream. */
    method Read(b: array<byte>) returns (r: IO<int>)
      requires Valid() && b.Length > 0
      modifies this, b
      ensures Valid()
      ensures old(pos) == |data| ==> pos == old(pos) && r == (if breaks then IOException else Done(-1))
      ensures old(pos) < |data| ==> r.Done? && 1 <= r.value <= b.Length && pos == old(pos) + r.value
      ensures old(pos) < |data| ==> b[..r.value] == data[old(pos)..pos]
    {
      if pos == |data| {
        if breaks {
          return IOException;
        }
        return Done(-1);
      }
      var n :| 1 <= n <= b.Length && n <= |data| - pos;
      forall k | 0 <= k < n {
        b[k] := data[pos + k];
      }
      pos := pos + n;
      r := Done(n);
    }
  }

  /** The bytes of a sequence of writes, concatenated in order. */
  function Concat(chunks: seq<seq<byte>>): (w: seq<byte>) {
    if chunks == [] then [] else Concat(chunks[..|chunks| - 1]) + chunks[|chunks| - 1]
  }

  /** An OutputStream that remembers each write call and counts flushes. */
  class OutputStream {
    var chunks: seq<seq<byte>>
    var flushes: nat

    constructor ()
      ensures chunks == [] && flushes == 0
    {
      chunks := [];
      flushes := 0;
    }

    /** Everything written so far. */
    function Written(): seq<byte>
      reads this
    {
      Concat(chunks)
    }

    /** write(b, off, len) */
    method Write(b: array<byte>, off: nat, len: nat)
      requires off + len <= b.Length
      modifies this
      ensures chunks == old(chunks) + [b[off..off + len]] && flushes == old(flushes)
      ensures Written() == old(Written()) + b[off..off + len]
    {
      chunks := chunks + [b[off..off + len]];
      assert chunks[..|chunks| - 1] == old(chunks);
    }

    /** flush(): nothing is written, and the flush is counted. */
    method Flush()
      modifies this
      ensures chunks == old(chunks) && flushes == old(flushes) + 1
    {
      flushes := flushes + 1;
    }
  }

  /**
   * copyStream: reads into a 4096-byte buffer and writes each chunk until read returns a negative
   * count, then flushes once. An IOException from read ends the copy without the flush; `ok`
   * tells whether the copy reached end of stream.
   */
  method CopyStream(input: InputStream, output: OutputStream) returns (ok: bool)
    requires input.Valid()
    modifies input, output
    ensures input.Valid() && input.pos == |input.data|
    ensures ok == !input.breaks
    ensures output.Written() == old(output.Written()) + old(input.Remaining())
    ensures |old(output.chunks)| <= |output.chunks| && output.chunks[..|old(output.chunks)|] == old(output.chunks)
    ensures forall i | |old(output.chunks)| <= i < |output.chunks| :: 0 < |output.chunks[i]| <= BufferSize
    ensures output.flushes == old(output.flushes) + (if ok then 1 else 0)
  {
    var b := new byte[BufferSize];
    ghost var start := input.pos;
    ghost var before := output.chunks;
    while true
      invariant input.Valid() && start <= input.pos
      invariant output.Written() == old(output.Written()) + input.data[start..input.pos]
      invariant |before| <= |output.chunks| && output.chunks[..|before|] == before
      invariant forall i | |before| <= i < |output.chunks| :: 0 < |output.chunks[i]| <= BufferSize
      invariant output.flushes == old(output.flushes)
      decreases |input.data| - input.pos
    {
      ghost var p := input.pos;
      var r := input.Read(b);
      if r.IOException? {
        assert input.data[start..input.pos] == old(input.Remaining());
        return false;
      }
      var rlen := r.value;
      if rlen < 0 {
        break;
      }
      output.Write(b, 0, rlen);
      assert input.data[start..input.pos] == input.data[start..p] + input.data[p..input.pos];
    }
    assert input.data[start..input.pos] == old(input.Remaining());
    output.Flush();
    return true;
  }
}
