/**
 * How the older copier behaves, set against the current one: it never creates
 * a directory, never copies a directory, refuses a directory copy onto a file
 * with a different error, and places a source known only by its
 * content-disposition name differently in its free function and in its
 * copier object.
 */
module Copy2Laws {
  import opened Wrappers
  import opened Errors
  import opened Paths
  import opened Storage
  import opened Transfer
  import opened List
  import Copy
  import opened Copy2
  import opened Restate

  /** The free `copy` sends a directory source to `copy_dir`. */
  lemma CopySpecOfDir(src: Store, faults: Faults, s: DestState, srcPath: string, dstPath: string)
    requires src.Stat(srcPath).Ok? && src.Stat(srcPath).value.mode == DIR
    ensures CopySpec(src, faults, s, srcPath, dstPath) == Copy2.CopyDirSpec(src, faults, s, srcPath, src.Stat(srcPath).value, dstPath)
  {
  }

  /** The free `copy` sends a file source to `copy_file`. */
  lemma CopySpecOfFile(src: Store, faults: Faults, s: DestState, srcPath: string, dstPath: string)
    requires src.Stat(srcPath).Ok? && src.Stat(srcPath).value.mode == FILE
    ensures CopySpec(src, faults, s, srcPath, dstPath) == Copy2.CopyFileSpec(src, faults, s, srcPath, src.Stat(srcPath).value, dstPath)
  {
  }

  /** A directory copied onto a file: the older copier says `Unexpected`, the
      current one `NotADirectory`; neither touches the destination. */
  lemma DirOntoFileContrast(src: Store, g: Globber, faults: Faults, s: DestState, srcPath: string, meta: Metadata, dstPath: string, recursive: bool)
    requires StatIn(s.nodes, faults, dstPath).Ok? && StatIn(s.nodes, faults, dstPath).value.mode == FILE
    ensures Copy2.CopyDirSpec(src, faults, s, srcPath, meta, dstPath) == (Err(Unexpected), s)
    ensures Copy.CopyDirSpec(src, g, faults, s, Copy.Source(srcPath, meta), dstPath, recursive) == (Err(NotADirectory), s)
  {
  }

  /** Reported as permanent, the current copier's refusal ends a handler with
      422 and the older copier's with 500. */
  lemma DirOntoFileStatus(src: Store, g: Globber, faults: Faults, s: DestState, srcPath: string, meta: Metadata, dstPath: string, recursive: bool)
    requires StatIn(s.nodes, faults, dstPath).Ok? && StatIn(s.nodes, faults, dstPath).value.mode == FILE
    ensures ToRestateError(Copy.CopyDirSpec(src, g, faults, s, Copy.Source(srcPath, meta), dstPath, recursive).0.kind, true) == Terminal(422)
    ensures ToRestateError(Copy2.CopyDirSpec(src, faults, s, srcPath, meta, dstPath).0.kind, true) == Terminal(500)
  {
    DirOntoFileContrast(src, g, faults, s, srcPath, meta, dstPath, recursive);
  }

  /** The free `copy` only appends a writer's calls to the log: it never
      creates a directory, not even a missing parent. */
  lemma CopyCreatesNoDirs(src: Store, faults: Faults, s: DestState, srcPath: string, dstPath: string) returns (added: seq<Call>)
    ensures CopySpec(src, faults, s, srcPath, dstPath).1.log == s.log + added
    ensures NoCreateDir(added)
  {
    var st := src.Stat(srcPath);
    var d := StatIn(s.nodes, faults, dstPath);
    if st.Err? || st.value.mode == Unknown {
      added := [];
    } else {
      var target :=
        if d.Ok? && d.value.mode == DIR then IntoDirectory(srcPath, st.value, dstPath)
        else if d.Ok? && st.value.mode == DIR then Err(Unexpected)
        else if d.Ok? || d.kind == NotFound then Ok(dstPath)
        else Err(d.kind);
      if target.Err? {
        added := [];
      } else {
        added := TransferAdded(src, faults, s, srcPath, st.value, target.value);
      }
    }
  }

  /** `Copier::copy` never creates a directory either. */
  lemma CopierCopyCreatesNoDirs(src: Store, faults: Faults, s: DestState, source: string, destination: string) returns (added: seq<Call>)
    ensures CopierCopySpec(src, faults, s, source, destination).1.log == s.log + added
    ensures NoCreateDir(added)
  {
    var st := src.Stat(source);
    var d := StatIn(s.nodes, faults, destination);
    if st.Err? || st.value.mode != FILE {
      added := [];
    } else if d.Ok? && d.value.mode == DIR {
      var name := SourceName(source, st.value);
      if name.Err? {
        added := [];
      } else {
        added := TransferAdded(src, faults, s, source, st.value, JoinPath(destination, name.value));
      }
    } else if d.Ok? || d.kind == NotFound {
      added := TransferAdded(src, faults, s, source, st.value, destination);
    } else {
      added := [];
    }
  }

  /** A directory source is never copied by the free `copy`: the transfer it
      attempts fails, since a directory cannot be read as a byte stream, and
      nothing is stored. */
  lemma CopyOfDirectoryStoresNothing(src: Store, faults: Faults, s: DestState, srcPath: string, dstPath: string)
    requires src.Stat(srcPath).Ok? && src.Stat(srcPath).value.mode == DIR
    ensures CopySpec(src, faults, s, srcPath, dstPath).0.Err?
    ensures CopySpec(src, faults, s, srcPath, dstPath).1.nodes == s.nodes
  {
    var meta := src.Stat(srcPath).value;
    var key := StoreKey(srcPath);
    assert key == "/" || (key in src.nodes && src.nodes[key] == Dir);
    var d := StatIn(s.nodes, faults, dstPath);
    if d.Ok? && d.value.mode == DIR && IntoDirectory(srcPath, meta, dstPath).Ok? {
      var t := IntoDirectory(srcPath, meta, dstPath).value;
      TransferSucceedsIff(src, faults, s, srcPath, meta, t);
      TransferErrKeepsNodes(src, faults, s, srcPath, meta, t);
    } else if d.Err? && d.kind == NotFound {
      TransferSucceedsIff(src, faults, s, srcPath, meta, dstPath);
      TransferErrKeepsNodes(src, faults, s, srcPath, meta, dstPath);
    }
  }

  /** A source with no last path component but a content-disposition name,
      copied into an existing directory: the free `copy_file` writes at the
      bare name, `Copier::copy_file` at the name joined onto the directory. */
  lemma DispositionNameContrast(src: Store, faults: Faults, s: DestState, srcPath: string, meta: Metadata, dstPath: string)
    requires FileName(srcPath).None? && meta.dispositionName.Some?
    requires StatIn(s.nodes, faults, dstPath).Ok? && StatIn(s.nodes, faults, dstPath).value.mode == DIR
    ensures Copy2.CopyFileSpec(src, faults, s, srcPath, meta, dstPath) == TransferSpec(src, faults, s, srcPath, meta, meta.dispositionName.value)
    ensures CopierCopyFileSpec(src, faults, s, srcPath, meta, dstPath) == TransferSpec(src, faults, s, srcPath, meta, JoinPath(dstPath, meta.dispositionName.value))
  {
  }

  /** A missing destination is written as it is, with no `create_dir` for its
      parent: the older `copy_file` is exactly one transfer there. */
  lemma MissingDestinationIsWrittenAsIs(src: Store, faults: Faults, s: DestState, srcPath: string, meta: Metadata, dstPath: string)
    requires StatIn(s.nodes, faults, dstPath) == Err(NotFound)
    ensures Copy2.CopyFileSpec(src, faults, s, srcPath, meta, dstPath) == TransferSpec(src, faults, s, srcPath, meta, dstPath)
    ensures Copy2.CopyDirSpec(src, faults, s, srcPath, meta, dstPath) == TransferSpec(src, faults, s, srcPath, meta, dstPath)
  {
  }
}
