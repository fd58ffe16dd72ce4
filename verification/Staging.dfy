/** Staging: files of a multipart request are streamed to disk under one byte limit. */
module Staging {
  import opened Numbers

  // A chunk of a file field and whether it could be written, or the field breaking off.
  datatype Chunk = Data(bytes: nat, written: bool) | Cut

  // A file field: the fresh id its path is made of, and how the disk treats it.
  datatype FileField = FileField(id: string, name: string, contentType: string,
                                 creates: bool, chunks: seq<Chunk>, flushes: bool)

  datatype Stop = Finished | BrokenOff | Overflow | OverLimit | WriteFailed | FlushFailed

  function Bytes(chunks: seq<Chunk>): nat {
    if chunks == [] then 0
    else
      var last := chunks[|chunks| - 1];
      Bytes(chunks[..|chunks| - 1]) + if last.Data? then last.bytes else 0
  }

  predicate Written(chunks: seq<Chunk>) {
    forall c :: c in chunks ==> c.Data? && c.written
  }

  predicate IsGood(f: FileField) {
    f.creates && Written(f.chunks) && f.flushes
  }

  lemma {:induction false} BytesOfPrefix(chunks: seq<Chunk>, i: nat)
    requires i <= |chunks|
    ensures Bytes(chunks[..i]) <= Bytes(chunks)
    decreases |chunks|
  {
    if i < |chunks| {
      var before := chunks[..|chunks| - 1];
      assert before[..i] == chunks[..i];
      BytesOfPrefix(before, i);
    } else {
      assert chunks[..i] == chunks;
    }
  }

  // Streams one field to its file. A field is finished exactly when every chunk arrived and was written, the
  // file was flushed, and the bytes of the whole request stay within the limit.
  method StreamToFile(f: FileField, total: nat, limit: nat) returns (stop: Stop, size: nat, newTotal: nat)
    requires total <= limit < U64_RANGE
    ensures stop.Finished? <==> Written(f.chunks) && f.flushes && total + Bytes(f.chunks) <= limit
    ensures stop.Finished? ==> size == Bytes(f.chunks) && newTotal == total + size
    ensures stop.Overflow? || stop.OverLimit? ==> total + Bytes(f.chunks) > limit
  {
    size, newTotal := 0, total;
    for i := 0 to |f.chunks|
      invariant size == Bytes(f.chunks[..i]) && newTotal == total + size <= limit
      invariant Written(f.chunks[..i])
    {
      var chunk := f.chunks[i];
      assert chunk in f.chunks;
      assert f.chunks[..i + 1] == f.chunks[..i] + [chunk];
      BytesOfPrefix(f.chunks, i + 1);
      if chunk.Cut? {
        return BrokenOff, size, newTotal;
      }
      if size + chunk.bytes >= U64_RANGE || newTotal + chunk.bytes >= U64_RANGE {
        return Overflow, size, newTotal;
      }
      size, newTotal := size + chunk.bytes, newTotal + chunk.bytes;
      if newTotal > limit {
        return OverLimit, size, newTotal;
      }
      if !chunk.written {
        return WriteFailed, size, newTotal;
      }
    }
    assert f.chunks[..|f.chunks|] == f.chunks;
    return if f.flushes then Finished else FlushFailed, size, newTotal;
  }

  // The temporary files of one kind: those created, and those handed to deletion.
  class TempFiles {
    var created: set<string>
    var deleted: set<string>

    constructor ()
      ensures created == {} && deleted == {}
    {
      created, deleted := {}, {};
    }

    // Neither deleted nor on its way to be.
    function Live(): set<string>
      reads this
    {
      created - deleted
    }

    method Create(id: string)
      modifies this`created
      ensures created == old(created) + {id}
    {
      created := created + {id};
    }

    method Remove(ids: set<string>)
      modifies this`deleted
      ensures deleted == old(deleted) + ids
    {
      deleted := deleted + ids;
    }
  }
}
