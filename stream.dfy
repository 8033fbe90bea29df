/** The in-memory file (`cStringIO.StringIO`) that Server/qdata.py decodes from and
    encodes into: a byte buffer and a cursor. */
module Streams {
  import opened Bytes

  class Stream {
    var buf: seq<byte>
    var pos: nat

    /** `StringIO(data)`: positioned at the start. */
    constructor (data: seq<byte>)
      ensures buf == data && pos == 0
    {
      buf := data;
      pos := 0;
    }

    function Tell(): (r: nat)
      reads this
    {
      pos
    }

    /** `f.read(n)`; a negative `n` reads the rest, as `f.read()` does. */
    method Read(n: int) returns (chunk: seq<byte>)
      modifies this
      ensures chunk == Chunk(old(buf), old(pos), n)
      ensures buf == old(buf) && pos == old(pos) + |chunk|
    {
      chunk := Chunk(buf, pos, n);
      pos := pos + |chunk|;
    }

    /** `f.seek(p)` (whence 0). */
    method Seek(p: int)
      modifies this
      ensures buf == old(buf) && pos == Clamp(p)
    {
      pos := Clamp(p);
    }

    /** `f.seek(0, 2)`. */
    method SeekEnd()
      modifies this
      ensures buf == old(buf) && pos == |buf|
    {
      pos := |buf|;
    }

    /** `f.write(data)`. */
    method Write(data: seq<byte>)
      modifies this
      ensures buf == Overwrite(old(buf), old(pos), data)
      ensures pos == old(pos) + |data|
    {
      buf := Overwrite(buf, pos, data);
      pos := pos + |data|;
    }
  }
}
