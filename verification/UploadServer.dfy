/** The server half of an upload: `append_chunk` with its batches and its rollback, and `complete`. */
module UploadServer {
  import opened Wrappers

  type Byte = b: int | 0 <= b < 256
  type Bytes = seq<Byte>

  const BATCH: nat := 4 * 1024 * 1024

  /** What one flush of the buffer meets: success, no capacity, or a write that fails after n bytes. */
  datatype Flush = Written | NoCapacity | WriteFails(n: nat, full: bool)

  datatype UploadError = NotUploading | WrongOffset(size: nat) | TooLarge | StorageLimit | WriteError | BodyBroken

  function Concat(body: seq<Bytes>): Bytes {
    if body == [] then []
    else
      var n := |body| - 1;
      Concat(body[..n]) + body[n]
  }

  lemma {:induction false} ConcatPrefix(body: seq<Bytes>, k: nat)
    requires k <= |body|
    ensures Concat(body[..k]) <= Concat(body)
  {
    if k < |body| {
      ConcatPrefix(body[..|body| - 1], k);
      assert body[..|body| - 1][..k] == body[..k];
    } else {
      assert body[..k] == body;
    }
  }

  /** One is a prefix of the other. */
  ghost predicate Part(a: Bytes, b: Bytes) {
    a <= b
  }

  /** The states the file on disk goes through: each is the old content and a part of the body, a batch more at most. */
  ghost predicate GrowsBy(disk: seq<Bytes>, before: Bytes, body: Bytes) {
    && disk != [] && disk[0] == before
    && (forall k :: 0 <= k < |disk| ==> Part(before, disk[k]) && Part(disk[k], before + body))
    && (forall k :: 0 < k < |disk| ==> Part(disk[k - 1], disk[k]) && |disk[k]| <= |disk[k - 1]| + BATCH)
  }

  ghost predicate Latest(disk: seq<Bytes>, file: Bytes) {
    disk != [] && disk[|disk| - 1] == file
  }

  lemma GrowsStart(before: Bytes, body: Bytes)
    ensures GrowsBy([before], before, body)
  {
  }

  /** What is on disk and in the buffer is the old content and the part of the body that was taken so far. */
  ghost predicate Taken(file: Bytes, buffer: Bytes, before: Bytes, taken: Bytes, body: Bytes) {
    file + buffer == before + taken && Part(taken, body)
  }

  /** A flush puts the buffer, or a part of it, behind what is on disk. */
  lemma GrowsMore(disk: seq<Bytes>, before: Bytes, body: Bytes, file: Bytes, buffer: Bytes, taken: Bytes, n: nat)
    requires GrowsBy(disk, before, body) && Latest(disk, file)
    requires Taken(file, buffer, before, taken, body)
    requires n <= |buffer| <= BATCH
    ensures GrowsBy(disk + [file + buffer[..n]], before, body)
  {
    var next := file + buffer[..n];
    assert next <= file + buffer;
    assert before + taken <= before + body;
    assert Part(before, file);
  }

  /** More of the body moves into the buffer. */
  lemma TakeMore(file: Bytes, buffer: Bytes, before: Bytes, taken: Bytes, body: Bytes, view: Bytes)
    requires file + buffer == before + taken && Part(taken + view, body)
    ensures Taken(file, buffer + view, before, taken + view, body)
  {
    assert file + (buffer + view) == (file + buffer) + view;
    assert before + (taken + view) == (before + taken) + view;
  }

  lemma TakenFlushed(file: Bytes, buffer: Bytes, before: Bytes, taken: Bytes, body: Bytes)
    requires Taken(file, buffer, before, taken, body)
    ensures Taken(file + buffer, [], before, taken, body)
  {
  }

  /** The part of the body up to somewhere inside its i-th piece. */
  lemma PieceOfBody(body: seq<Bytes>, i: nat, offset: nat)
    requires i < |body| && offset <= |body[i]|
    ensures Part(Concat(body[..i]) + body[i][..offset], Concat(body))
    ensures Concat(body[..i + 1]) == Concat(body[..i]) + body[i]
    ensures |Concat(body[..i + 1])| <= |Concat(body)|
  {
    ConcatPrefix(body, i + 1);
    assert body[..i + 1][..i] == body[..i];
    var next, whole := Concat(body[..i + 1]), Concat(body);
    assert next == Concat(body[..i]) + body[i];
    assert Concat(body[..i]) + body[i][..offset] <= next;
  }

  /** What a flush that does not succeed is reported as: a full disk, found out before or while writing, or an error. */
  predicate Reported(f: Flush, e: UploadError) {
    if f.NoCapacity? || (f.WriteFails? && f.full) then e == StorageLimit else f.WriteFails? && e == WriteError
  }

  /** Some flush failed in this way. */
  ghost predicate FlushFailed(flush: nat -> Flush, e: UploadError) {
    exists k: nat :: Reported(flush(k), e)
  }

  /** What goes wrong without any flush failing: more bytes than were declared, or else a body that breaks off. */
  predicate Mishap(held: nat, expected: nat, body: Bytes, broken: bool, error: Option<UploadError>) {
    if body != [] && held + |body| > expected then error == Some(TooLarge)
    else if broken then error == Some(BodyBroken)
    else error == None
  }

  class Upload {
    var file: Bytes
    var uploading: bool
    var ready: bool
    var uploaded: nat
    const expected: nat

    constructor (expected: nat)
      ensures file == [] && uploading && !ready && this.expected == expected
    {
      file, uploading, ready, uploaded := [], true, false, 0;
      this.expected := expected;
    }

    /** Writes the buffer behind the file; a failure may leave a part of it there. */
    method FlushBatch(buffer: Bytes, f: Flush, ghost disk: seq<Bytes>, ghost before: Bytes, ghost taken: Bytes,
                      ghost all: Bytes)
      returns (error: Option<UploadError>, ghost grown: seq<Bytes>)
      requires GrowsBy(disk, before, all) && Latest(disk, file) && |buffer| <= BATCH
      requires Taken(file, buffer, before, taken, all)
      modifies this`file
      ensures GrowsBy(grown, before, all) && Latest(grown, file)
      ensures error.None? ==> file == old(file) + buffer && Taken(file, [], before, taken, all)
      ensures f.Written? <==> error.None?
      ensures error.Some? ==> Reported(f, error.value)
    {
      hide GrowsBy, Taken;
      ghost var held := file;
      var n: nat := 0;
      match f {
        case NoCapacity =>
          error := Some(StorageLimit);
        case Written =>
          n := |buffer|;
          error := None;
        case WriteFails(part, full) =>
          n := if part < |buffer| then part else |buffer|;
          error := Some(if full then StorageLimit else WriteError);
      }
      file := file + buffer[..n];
      GrowsMore(disk, before, all, held, buffer, taken, n);
      TakenFlushed(held, buffer, before, taken, all);
      assert n == |buffer| ==> buffer[..n] == buffer;
      grown := disk + [file];
    }

    /**
     One piece of the body: taken into the buffer in views of at most a batch, flushed whenever the buffer is full.
     */
    method TakePiece(chunk: Bytes, held: Bytes, flush: nat -> Flush, first: nat,
                     ghost disk: seq<Bytes>, ghost before: Bytes, ghost taken: Bytes, ghost all: Bytes)
      returns (error: Option<UploadError>, buffer: Bytes, flushes: nat, ghost grown: seq<Bytes>)
      requires GrowsBy(disk, before, all) && Latest(disk, file) && |held| <= BATCH
      requires Taken(file, held, before, taken, all) && Part(taken + chunk, all)
      modifies this`file
      ensures GrowsBy(grown, before, all) && Latest(grown, file)
      ensures error.None? ==> Taken(file, buffer, before, taken + chunk, all) && |buffer| <= BATCH
      ensures error.Some? ==> FlushFailed(flush, error.value)
    {
      hide GrowsBy, Taken, Part;
      buffer, flushes, grown, error := held, first, disk, None;
      var offset := 0;
      assert taken + chunk[..0] == taken;
      while offset < |chunk|
        invariant offset <= |chunk| && |buffer| <= BATCH && error.None?
        invariant GrowsBy(grown, before, all) && Latest(grown, file)
        invariant Taken(file, buffer, before, taken + chunk[..offset], all)
      {
        var end := if offset + BATCH < |chunk| then offset + BATCH else |chunk|;
        var view := chunk[offset..end];
        if |buffer| + |view| > BATCH {
          error, grown := FlushBatch(buffer, flush(flushes), grown, before, taken + chunk[..offset], all);
          flushes := flushes + 1;
          if error.Some? {
            return;
          }
          buffer := [];
        }
        MoreOfPiece(file, buffer, before, taken, all, chunk, offset, end);
        buffer := buffer + view;
        offset := end;
        if |buffer| == BATCH {
          error, grown := FlushBatch(buffer, flush(flushes), grown, before, taken + chunk[..offset], all);
          flushes := flushes + 1;
          if error.Some? {
            return;
          }
          buffer := [];
        }
      }
      assert chunk[..offset] == chunk;
    }

    lemma MoreOfPiece(held: Bytes, buffer: Bytes, before: Bytes, taken: Bytes, all: Bytes, chunk: Bytes,
                      offset: nat, end: nat)
      requires offset <= end <= |chunk| && Part(taken + chunk, all)
      requires Taken(held, buffer, before, taken + chunk[..offset], all)
      ensures Taken(held, buffer + chunk[offset..end], before, taken + chunk[..end], all)
    {
      var view := chunk[offset..end];
      assert taken + chunk[..end] == (taken + chunk[..offset]) + view;
      assert taken + chunk[..end] <= taken + chunk;
      assert Part(taken + chunk[..end], all);
      TakeMore(held, buffer, before, taken + chunk[..offset], all, view);
    }

    /**
     The loop over the body. `flush(k)` is what the k-th flush meets, `broken` whether the body ends in an exception.
     Whatever happens, the file holds the old content and a part of the body.
     */
    method WriteBody(body: seq<Bytes>, broken: bool, flush: nat -> Flush)
      returns (error: Option<UploadError>, total: nat, ghost disk: seq<Bytes>)
      modifies this`file
      ensures GrowsBy(disk, old(file), Concat(body)) && Latest(disk, file)
      ensures error.None? ==> file == old(file) + Concat(body) && total == |file| && !broken
      ensures error.None? && |old(file)| <= expected ==> total <= expected
      ensures || (error.Some? && FlushFailed(flush, error.value))
              || Mishap(|old(file)|, expected, Concat(body), broken, error)
    {
      hide GrowsBy, Taken, Part, Concat;
      ghost var before, all := file, Concat(body);
      var buffer: Bytes := [];
      var flushes: nat := 0;
      total := |file|;
      disk := [file];
      GrowsStart(file, all);
      NothingTaken(body, before);
      for i := 0 to |body|
        invariant GrowsBy(disk, before, all) && Latest(disk, file)
        invariant Taken(file, buffer, before, Concat(body[..i]), all) && |buffer| <= BATCH
        invariant total == |before| + |Concat(body[..i])|
        invariant |before| <= expected || Concat(body[..i]) != [] ==> total <= expected
      {
        var chunk := body[i];
        PieceOfBody(body, i, |chunk|);
        assert chunk[..|chunk|] == chunk;
        if chunk == [] {
          assert Concat(body[..i]) + [] == Concat(body[..i]);
          continue;
        }
        total := total + |chunk|;
        if total > expected {
          return Some(TooLarge), total, disk;
        }
        error, buffer, flushes, disk := TakePiece(chunk, buffer, flush, flushes, disk, before, Concat(body[..i]), all);
        if error.Some? {
          return;
        }
      }
      assert body[..|body|] == body;
      if broken {
        return Some(BodyBroken), total, disk;
      }
      error := None;
      if buffer != [] {
        error, disk := FlushBatch(buffer, flush(flushes), disk, before, all, all);
        if error.Some? {
          return;
        }
        buffer := [];
      }
      AllTaken(file, before, all);
    }

    lemma NothingTaken(body: seq<Bytes>, before: Bytes)
      ensures Concat(body[..0]) == [] && Taken(before, [], before, Concat(body[..0]), Concat(body))
    {
    }

    lemma AllTaken(held: Bytes, before: Bytes, all: Bytes)
      requires Taken(held, [], before, all, all)
      ensures held == before + all
    {
      assert held + [] == held;
    }

    /**
     One chunk request, with the state lock held. It succeeds with the whole body behind the old content, or it fails
     with the old content and the old record.
     */
    method AppendChunk(offset: nat, body: seq<Bytes>, broken: bool, flush: nat -> Flush)
      returns (r: Result<nat, UploadError>, ghost disk: seq<Bytes>)
      modifies this
      ensures uploading == old(uploading) && ready == old(ready)
      ensures r.Ok? ==> old(uploading) && offset == |old(file)|
      ensures r.Ok? ==> file == old(file) + Concat(body) && uploaded == r.value == |file|
      ensures |old(file)| <= expected ==> |file| <= expected
      ensures r.Err? ==> file == old(file) && uploaded == old(uploaded)
      ensures r == Err(NotUploading) <==> !old(uploading)
      ensures old(uploading) && offset != |old(file)| ==> r == Err(WrongOffset(|old(file)|))
      ensures old(uploading) && offset == |old(file)| ==>
        || (r.Err? && FlushFailed(flush, r.error))
        || Mishap(offset, expected, Concat(body), broken, if r.Err? then Some(r.error) else None)
      ensures GrowsBy(disk, old(file), Concat(body)) && (r.Ok? ==> Latest(disk, file))
    {
      hide Concat;
      disk := [file];
      GrowsStart(file, Concat(body));
      if !uploading {
        return Err(NotUploading), disk;
      }
      var currentSize := |file|;
      if currentSize != offset {
        return Err(WrongOffset(currentSize)), disk;
      }
      var error, total, states := WriteBody(body, broken, flush);
      disk := states;
      if error.Some? {
        assert Part(old(file), file);
        file := file[..currentSize];
        return Err(error.value), disk;
      }
      uploaded := total;
      return Ok(uploaded), disk;
    }

    /** `complete`: only a file of exactly the declared size. */
    method Complete() returns (r: Result<nat, UploadError>)
      modifies this
      ensures file == old(file)
      ensures r.Ok? <==> old(uploading) && |old(file)| == expected
      ensures r.Ok? ==> ready && !uploading && uploaded == expected
      ensures r.Err? ==> ready == old(ready) && uploading == old(uploading) && uploaded == old(uploaded)
      ensures r.Err? && old(uploading) ==> r.error == WrongOffset(|old(file)|)
    {
      if !uploading {
        return Err(NotUploading);
      }
      if |file| != expected {
        return Err(WrongOffset(|file|));
      }
      uploaded := |file|;
      ready, uploading := true, false;
      return Ok(uploaded);
    }
  }
}
