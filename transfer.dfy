/**
 * Copying one file from a source store to a destination store (`do_copy_file`,
 * written identically three times in the repository), and the name a source
 * file goes by when it is copied into a directory.
 */
module Transfer {
  import opened Wrappers
  import opened Errors
  import opened Paths
  import opened Storage

  /** The name of a source: its last path component, else the file name of its
      content disposition, else an `Unexpected` error. */
  function SourceName(path: string, meta: Metadata): (r: Result<string>)
    ensures r.Err? <==> FileName(path).None? && meta.dispositionName.None?
    ensures r.Err? ==> r.kind == Unexpected
    ensures FileName(path).Some? ==> r == Ok(FileName(path).value)
    ensures FileName(path).None? && meta.dispositionName.Some? ==> r == Ok(meta.dispositionName.value)
  {
    match FileName(path)
    case Some(n) => Ok(n)
    case None =>
      match meta.dispositionName
      case Some(n) => Ok(n)
      case None => Err(Unexpected)
  }

  // ---------------------------------------------------------------------------
  // The chunk loop
  // ---------------------------------------------------------------------------

  /** The write calls of a sequence of chunks on one key. */
  function WriteCalls(key: string, chunks: seq<Chunk>): seq<Call>
  {
    if chunks == [] then [] else [WriteCall(key, chunks[0])] + WriteCalls(key, chunks[1..])
  }

  /** Writing the chunks one after another, stopping at the first failure. */
  function WriteAll(faults: Faults, s: DestState, w: Writer, chunks: seq<Chunk>): (Result<Writer>, DestState)
    decreases |chunks|
  {
    if chunks == [] then (Ok(w), s)
    else
      var (r, s') := WriteStep(faults, s, w, chunks[0]);
      if r.Err? then (r, s') else WriteAll(faults, s', r.value, chunks[1..])
  }

  /** What `do_copy_file` does: open a reader on the source, open a writer on the
      destination with the source's content type, open the byte stream, write
      each chunk, report a stream error, close. */
  function TransferSpec(src: Store, faults: Faults, s: DestState, from: string, meta: Metadata, to: string): (Outcome, DestState)
  {
    var rd := src.Reader(from);
    if rd.Err? then (Err(rd.kind), s)
    else
      var (w, s1) := OpenWriterStep(faults, s, to, meta.contentType);
      if w.Err? then (Err(w.kind), s1)
      else
        var st := src.OpenStream(from);
        if st.Err? then (Err(st.kind), s1)
        else
          StreamTo(faults, s1, w.value, st.value)
  }

  /** The end of `do_copy_file`, after the chunk loop: a refused write, then a
      stream that ended with an error, is reported; otherwise the writer is closed. */
  function Finish(faults: Faults, s: DestState, w: Result<Writer>, end: Option<IoErrorKind>): (Outcome, DestState)
  {
    if w.Err? then (Err(w.kind), s)
    else if end.Some? then (Err(IntoError(end.value)), s)
    else CloseStep(faults, s, w.value)
  }

  /** `do_copy_file`. */
  method DoCopyFile(src: Store, dst: Destination, from: string, meta: Metadata, to: string) returns (r: Outcome)
    modifies dst
    ensures (r, dst.State()) == TransferSpec(src, dst.faults, old(dst.State()), from, meta, to)
  {
    var rd := src.Reader(from);
    if rd.Err? {
      return Err(rd.kind);
    }
    var openRes := dst.OpenWriter(to, meta.contentType);
    if openRes.Err? {
      return Err(openRes.kind);
    }
    ghost var s1 := dst.State();
    var stream := src.OpenStream(from);
    if stream.Err? {
      return Err(stream.kind);
    }
    var chunks := stream.value.chunks;
    var writer := openRes.value;
    var i := 0;
    while i < |chunks|
      invariant 0 <= i <= |chunks|
      invariant WriteAll(dst.faults, dst.State(), writer, chunks[i..]) == WriteAll(dst.faults, s1, openRes.value, chunks)
    {
      assert chunks[i..][1..] == chunks[i + 1..];
      var w := dst.Write(writer, chunks[i]);
      if w.Err? {
        return Err(w.kind);
      }
      writer := w.value;
      i := i + 1;
    }
    if stream.value.end.Some? {
      return Err(IntoError(stream.value.end.value));
    }
    r := dst.Close(writer);
  }

  // ---------------------------------------------------------------------------
  // Properties
  // ---------------------------------------------------------------------------

  /** Whether the destination accepts the writes at positions `from` up to `to` of a key. */
  predicate WritesAccepted(faults: Faults, key: string, from: nat, to: nat)
  {
    forall j :: from <= j < to ==> WriteOp(key, j) !in faults
  }

  /** The chunk loop never changes the stored nodes. */
  lemma {:induction false} WriteAllKeepsNodes(faults: Faults, s: DestState, w: Writer, chunks: seq<Chunk>)
    ensures WriteAll(faults, s, w, chunks).1.nodes == s.nodes
    decreases |chunks|
  {
    if chunks != [] {
      var (r1, s1) := WriteStep(faults, s, w, chunks[0]);
      if r1.Ok? {
        WriteAllKeepsNodes(faults, s1, r1.value, chunks[1..]);
      }
    }
  }

  /** The chunk loop succeeds exactly when every one of its writes is accepted;
      it has then buffered the chunks in order and issued one write per chunk. */
  lemma {:induction false} WriteAllOk(faults: Faults, s: DestState, w: Writer, chunks: seq<Chunk>)
    ensures var (r, s') := WriteAll(faults, s, w, chunks);
      && (r.Ok? <==> WritesAccepted(faults, w.key, |w.written|, |w.written| + |chunks|))
      && (r.Ok? ==> r.value == w.(written := w.written + chunks) && s'.log == s.log + WriteCalls(w.key, chunks))
    decreases |chunks|
  {
    if chunks == [] {
      assert w.written + chunks == w.written;
    } else {
      var (r1, s1) := WriteStep(faults, s, w, chunks[0]);
      if r1.Ok? {
        var w1 := r1.value;
        WriteAllOk(faults, s1, w1, chunks[1..]);
        assert w1.written + chunks[1..] == w.written + chunks;
        assert WriteCalls(w.key, chunks) == [WriteCall(w.key, chunks[0])] + WriteCalls(w.key, chunks[1..]);
      } else {
        assert !WritesAccepted(faults, w.key, |w.written|, |w.written| + |chunks|) by {
          assert WriteOp(w.key, |w.written|) in faults;
        }
      }
    }
  }

  /** A failed chunk loop has issued the writes up to and including the refused one. */
  lemma {:induction false} WriteAllErrLog(faults: Faults, s: DestState, w: Writer, chunks: seq<Chunk>)
    requires WriteAll(faults, s, w, chunks).0.Err?
    ensures var s' := WriteAll(faults, s, w, chunks).1;
      && |s.log| < |s'.log| <= |s.log| + |chunks|
      && s'.log == s.log + WriteCalls(w.key, chunks[..|s'.log| - |s.log|])
    decreases |chunks|
  {
    var (r1, s1) := WriteStep(faults, s, w, chunks[0]);
    if r1.Ok? {
      WriteAllErrLog(faults, s1, r1.value, chunks[1..]);
      var s' := WriteAll(faults, s, w, chunks).1;
      var n := |s'.log| - |s1.log|;
      assert chunks[..n + 1] == [chunks[0]] + chunks[1..][..n];
      assert chunks[..n + 1][1..] == chunks[1..][..n];
    } else {
      assert chunks[..1] == [chunks[0]];
      assert WriteCalls(w.key, chunks[..1]) == [WriteCall(w.key, chunks[0])];
    }
  }

  /** A copied file holds exactly the source's chunks with its content type, and
      the destination has seen one writer opened, one write per chunk in stream
      order and one close, after all writes. */
  lemma TransferOk(src: Store, faults: Faults, s: DestState, from: string, meta: Metadata, to: string)
    requires TransferSpec(src, faults, s, from, meta, to).0.Ok?
    ensures var s' := TransferSpec(src, faults, s, from, meta, to).1;
      var key := StoreKey(to);
      var chunks := src.nodes[StoreKey(from)].chunks;
      && StoreKey(from) in src.nodes && src.nodes[StoreKey(from)].File?
      && !EndsWithSlash(key)
      && s'.nodes == s.nodes[key := File(chunks, meta.contentType, None, None)]
      && s'.log == s.log + [OpenWriterCall(to, meta.contentType)] + WriteCalls(key, chunks) + [CloseCall(key)]
  {
    var (w, s1) := OpenWriterStep(faults, s, to, meta.contentType);
    var chunks := src.OpenStream(from).value.chunks;
    WriteAllOk(faults, s1, w.value, chunks);
    WriteAllKeepsNodes(faults, s1, w.value, chunks);
    var (w2, s2) := WriteAll(faults, s1, w.value, chunks);
    assert w.value.written + chunks == chunks;
    assert w2.value == Writer(StoreKey(to), meta.contentType, chunks);
    assert s2.log == s.log + [OpenWriterCall(to, meta.contentType)] + WriteCalls(StoreKey(to), chunks);
  }

  /** A copy succeeds exactly when the source is a readable file whose stream
      ends cleanly and the destination accepts the writer, every write and the close. */
  lemma TransferSucceedsIff(src: Store, faults: Faults, s: DestState, from: string, meta: Metadata, to: string)
    ensures TransferSpec(src, faults, s, from, meta, to).0.Ok? <==>
      var kf := StoreKey(from);
      var kt := StoreKey(to);
      && src.Reader(from).Ok?
      && !EndsWithSlash(kt) && WriterOp(kt) !in faults
      && StreamOp(kf) !in src.faults && kf in src.nodes && src.nodes[kf].File?
      && WritesAccepted(faults, kt, 0, |src.nodes[kf].chunks|)
      && src.nodes[kf].streamEnd.None?
      && CloseOp(kt) !in faults
  {
    var kf := StoreKey(from);
    var kt := StoreKey(to);
    if src.Reader(from).Ok? && !EndsWithSlash(kt) && WriterOp(kt) !in faults
      && StreamOp(kf) !in src.faults && kf in src.nodes && src.nodes[kf].File?
    {
      var (w, s1) := OpenWriterStep(faults, s, to, meta.contentType);
      var chunks := src.nodes[kf].chunks;
      WriteAllOk(faults, s1, w.value, chunks);
      var (w2, s2) := WriteAll(faults, s1, w.value, chunks);
      assert w.value.key == kt && |w.value.written| == 0;
      if w2.Ok? {
        assert w2.value.key == kt;
      }
    }
  }

  /** A failed copy stores nothing. */
  lemma TransferErrKeepsNodes(src: Store, faults: Faults, s: DestState, from: string, meta: Metadata, to: string)
    requires TransferSpec(src, faults, s, from, meta, to).0.Err?
    ensures TransferSpec(src, faults, s, from, meta, to).1.nodes == s.nodes
  {
    var (w, s1) := OpenWriterStep(faults, s, to, meta.contentType);
    if w.Ok? && src.Reader(from).Ok? && src.OpenStream(from).Ok? {
      WriteAllKeepsNodes(faults, s1, w.value, src.OpenStream(from).value.chunks);
    }
  }

  /** A copy never replaces what is stored under a directory key. */
  lemma TransferKeepsDirKeys(src: Store, faults: Faults, s: DestState, from: string, meta: Metadata, to: string, k: string)
    requires EndsWithSlash(k) && k in s.nodes
    ensures var s' := TransferSpec(src, faults, s, from, meta, to).1;
      k in s'.nodes && s'.nodes[k] == s.nodes[k]
  {
    if TransferSpec(src, faults, s, from, meta, to).0.Ok? {
      TransferOk(src, faults, s, from, meta, to);
    } else {
      TransferErrKeepsNodes(src, faults, s, from, meta, to);
    }
  }

  /** Whether none of the calls is a `create_dir`. */
  predicate NoCreateDir(calls: seq<Call>)
  {
    forall i :: 0 <= i < |calls| ==> !calls[i].CreateDirCall?
  }

  lemma NoCreateDirConcat(a: seq<Call>, b: seq<Call>)
    ensures NoCreateDir(a + b) <==> NoCreateDir(a) && NoCreateDir(b)
  {
    if NoCreateDir(a + b) {
      forall i | 0 <= i < |a| ensures !a[i].CreateDirCall? { assert (a + b)[i] == a[i]; }
      forall i | 0 <= i < |b| ensures !b[i].CreateDirCall? { assert (a + b)[|a| + i] == b[i]; }
    }
  }

  lemma {:induction false} WriteCallsNoCreateDir(key: string, chunks: seq<Chunk>)
    ensures NoCreateDir(WriteCalls(key, chunks))
    decreases |chunks|
  {
    if chunks != [] {
      WriteCallsNoCreateDir(key, chunks[1..]);
      NoCreateDirConcat([WriteCall(key, chunks[0])], WriteCalls(key, chunks[1..]));
    }
  }

  /** A copy only ever appends calls to the log, and never a `create_dir`. */
  lemma TransferCreatesNoDirs(src: Store, faults: Faults, s: DestState, from: string, meta: Metadata, to: string)
    ensures var s' := TransferSpec(src, faults, s, from, meta, to).1;
      && |s.log| <= |s'.log| && s'.log[..|s.log|] == s.log
      && NoCreateDir(s'.log[|s.log|..])
  {
    var s' := TransferSpec(src, faults, s, from, meta, to).1;
    var added := TransferAdded(src, faults, s, from, meta, to);
    assert s'.log[|s.log|..] == added;
    assert s'.log[..|s.log|] == s.log;
  }

  /** The calls the chunk loop appends are writes. */
  lemma WriteAllAdded(faults: Faults, s: DestState, w: Writer, chunks: seq<Chunk>) returns (added: seq<Call>)
    ensures WriteAll(faults, s, w, chunks).1.log == s.log + added
    ensures NoCreateDir(added)
  {
    WriteAllOk(faults, s, w, chunks);
    var (w2, s2) := WriteAll(faults, s, w, chunks);
    if w2.Ok? {
      added := WriteCalls(w.key, chunks);
      WriteCallsNoCreateDir(w.key, chunks);
    } else {
      WriteAllErrLog(faults, s, w, chunks);
      added := WriteCalls(w.key, chunks[..|s2.log| - |s.log|]);
      WriteCallsNoCreateDir(w.key, chunks[..|s2.log| - |s.log|]);
    }
  }

  /** The calls the end of a copy appends: at most a close. */
  lemma FinishAdded(faults: Faults, s: DestState, w: Result<Writer>, end: Option<IoErrorKind>) returns (added: seq<Call>)
    ensures Finish(faults, s, w, end).1.log == s.log + added
    ensures NoCreateDir(added)
  {
    if w.Ok? && end.None? {
      added := [CloseCall(w.value.key)];
    } else {
      added := [];
    }
  }

  /** The calls a copy appends: a writer opened, writes, and a close. */
  lemma TransferAdded(src: Store, faults: Faults, s: DestState, from: string, meta: Metadata, to: string) returns (added: seq<Call>)
    ensures TransferSpec(src, faults, s, from, meta, to).1.log == s.log + added
    ensures NoCreateDir(added)
  {
    var (w, s1) := OpenWriterStep(faults, s, to, meta.contentType);
    var opening := [OpenWriterCall(to, meta.contentType)];
    if src.Reader(from).Err? {
      added := [];
    } else if w.Err? || src.OpenStream(from).Err? {
      added := opening;
    } else {
      var st := src.OpenStream(from).value;
      assert TransferSpec(src, faults, s, from, meta, to) == StreamTo(faults, s1, w.value, st);
      added := StreamedAdded(faults, s, s1, w.value, st, opening);
    }
  }

  /** The chunk loop, then the end of the copy. */
  function StreamTo(faults: Faults, s: DestState, w: Writer, st: Stream): (Outcome, DestState)
  {
    var (w2, s2) := WriteAll(faults, s, w, st.chunks);
    Finish(faults, s2, w2, st.end)
  }

  /** After an opening that creates no directory, the writes and the close
      create none either. */
  lemma StreamedAdded(faults: Faults, s: DestState, s1: DestState, w: Writer, st: Stream, opening: seq<Call>) returns (added: seq<Call>)
    requires s1.log == s.log + opening && NoCreateDir(opening)
    ensures StreamTo(faults, s1, w, st).1.log == s.log + added
    ensures NoCreateDir(added)
  {
    var writes := WriteAllAdded(faults, s1, w, st.chunks);
    var (w2, s2) := WriteAll(faults, s1, w, st.chunks);
    var closing := FinishAdded(faults, s2, w2, st.end);
    added := opening + writes + closing;
    NoCreateDirConcat(opening, writes);
    NoCreateDirConcat(opening + writes, closing);
    assert ((s.log + opening) + writes) + closing == s.log + added;
  }
}
