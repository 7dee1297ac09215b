/**
 * The producer side of an ingestion run: the reads of a buffered line
 * reader are put back together into logical lines. A read returns a chunk
 * and an `isPrefix` flag that is set when the line did not fit in the
 * reader's buffer and continues in the next chunk.
 */
module LineSource {
  import opened Octets

  datatype Chunk = Chunk(data: Bytes, isPrefix: bool)

  /** How the reads end: at end of file, or with another I/O error. */
  datatype ReadEnd = Eof | IoError(code: int)

  /** The reads a file yields, in order, and the error that ends them. */
  datatype Source = Source(chunks: seq<Chunk>, end: ReadEnd)

  /** The lines emitted for `cs` when `pending` holds the prefix chunks read so far. */
  function Reassemble(cs: seq<Chunk>, pending: Bytes): seq<Bytes>
    decreases |cs|
  {
    if cs == [] then []
    else if cs[0].isPrefix then Reassemble(cs[1..], pending + cs[0].data)
    else [pending + cs[0].data] + Reassemble(cs[1..], [])
  }

  /** The bytes still waiting for a closing chunk once `cs` has been read. */
  function Unterminated(cs: seq<Chunk>, pending: Bytes): Bytes
    decreases |cs|
  {
    if cs == [] then pending
    else if cs[0].isPrefix then Unterminated(cs[1..], pending + cs[0].data)
    else Unterminated(cs[1..], [])
  }

  /** All the bytes of `cs`, in order. */
  function Data(cs: seq<Chunk>): Bytes
    decreases |cs|
  {
    if cs == [] then [] else cs[0].data + Data(cs[1..])
  }

  /** The number of chunks that close a line. */
  function Closing(cs: seq<Chunk>): nat
    decreases |cs|
  {
    if cs == [] then 0 else (if cs[0].isPrefix then 0 else 1) + Closing(cs[1..])
  }

  predicate AllPrefix(cs: seq<Chunk>)
  {
    forall j :: 0 <= j < |cs| ==> cs[j].isPrefix
  }

  /** Exactly one line is emitted per chunk whose `isPrefix` is false. */
  lemma {:induction false} ReassembleCount(cs: seq<Chunk>, pending: Bytes)
    ensures |Reassemble(cs, pending)| == Closing(cs)
    decreases |cs|
  {
    if cs != [] {
      if cs[0].isPrefix {
        ReassembleCount(cs[1..], pending + cs[0].data);
      } else {
        ReassembleCount(cs[1..], []);
      }
    }
  }

  /** No byte is lost, duplicated or moved: the lines, followed by what is still pending, spell out the input. */
  lemma {:induction false} ReassembleConcat(cs: seq<Chunk>, pending: Bytes)
    ensures Flatten(Reassemble(cs, pending)) + Unterminated(cs, pending) == pending + Data(cs)
    decreases |cs|
  {
    if cs != [] {
      var d := cs[0].data;
      if cs[0].isPrefix {
        ReassembleConcat(cs[1..], pending + d);
      } else {
        var rest, tail := Reassemble(cs[1..], []), Unterminated(cs[1..], []);
        ReassembleConcat(cs[1..], []);
        assert [] + Data(cs[1..]) == Data(cs[1..]);
        assert ([pending + d] + rest)[1..] == rest;
        assert Flatten(Reassemble(cs, pending)) == (pending + d) + Flatten(rest);
        AppendAssoc(pending + d, Flatten(rest), tail);
        AppendAssoc(pending, d, Data(cs[1..]));
      }
    }
  }

  /** A run of prefix chunks that is never closed emits nothing and stays pending. */
  lemma {:induction false} ReassembleOpenRun(run: seq<Chunk>, pending: Bytes)
    requires AllPrefix(run)
    ensures Reassemble(run, pending) == []
    ensures Unterminated(run, pending) == pending + Data(run)
    decreases |run|
  {
    if run != [] {
      ReassembleOpenRun(run[1..], pending + run[0].data);
    }
  }

  /**
   * A maximal run of prefix chunks closed by a non-prefix chunk emits one
   * line: their concatenation. What follows starts from an empty line.
   */
  lemma {:induction false} ReassembleRun(run: seq<Chunk>, close: Chunk, rest: seq<Chunk>, pending: Bytes)
    requires AllPrefix(run) && !close.isPrefix
    ensures Reassemble(run + [close] + rest, pending) == [pending + Data(run) + close.data] + Reassemble(rest, [])
    decreases |run|
  {
    var cs := run + [close] + rest;
    if run == [] {
      assert cs[1..] == rest;
      assert pending + Data(run) == pending;
    } else {
      assert cs[1..] == run[1..] + [close] + rest;
      ReassembleRun(run[1..], close, rest, pending + run[0].data);
      assert pending + run[0].data + Data(run[1..]) == pending + Data(run);
    }
  }

  /**
   * The reader loop: appends each chunk to the line under construction and
   * emits the line at every chunk that closes one. It stops at the first
   * error; `atEof` tells whether that error was end of file (anything else
   * is fatal to the run).
   */
  method ReadLines(src: Source) returns (lines: seq<Bytes>, atEof: bool)
    ensures lines == Reassemble(src.chunks, [])
    ensures atEof <==> src.end.Eof?
  {
    var cs := src.chunks;
    var line: Bytes := [];
    lines := [];
    var i := 0;
    while i < |cs|
      invariant 0 <= i <= |cs|
      invariant lines + Reassemble(cs[i..], line) == Reassemble(cs, [])
    {
      assert cs[i..][1..] == cs[i + 1..];
      line := line + cs[i].data;
      if !cs[i].isPrefix {
        lines := lines + [line];
        line := [];
      }
      i := i + 1;
    }
    atEof := src.end.Eof?;
  }
}
