/**
 * The older copier, kept beside the current one but not part of the crate's
 * module tree. It differs from the current copier in observable ways: paths
 * are used as given, with no normalisation; no parent directory is ever
 * created; a directory copied onto a file is an `Unexpected` error; a
 * directory copy is a single file transfer, with no listing; and a source with
 * no last path component lands at its bare content-disposition name.
 */
module Copy2 {
  import opened Wrappers
  import opened Errors
  import opened Paths
  import opened Storage
  import opened Transfer

  /** Where a source goes inside an existing directory (free functions): the
      directory joined with the source's last component, else the
      content-disposition name on its own, else an `Unexpected` error. */
  function IntoDirectory(srcPath: string, meta: Metadata, dstPath: string): (r: Result<string>)
    ensures r.Err? <==> FileName(srcPath).None? && meta.dispositionName.None?
    ensures r.Err? ==> r.kind == Unexpected
    ensures FileName(srcPath).Some? ==> r == Ok(JoinPath(dstPath, FileName(srcPath).value))
    ensures FileName(srcPath).None? && meta.dispositionName.Some? ==> r == Ok(meta.dispositionName.value)
  {
    match FileName(srcPath)
    case Some(n) => Ok(JoinPath(dstPath, n))
    case None =>
      match meta.dispositionName
      case Some(n) => Ok(n)
      case None => Err(Unexpected)
  }

  /** The free `copy_dir`: an existing directory receives the source inside
      it, an existing file is an `Unexpected` error, a missing destination is
      written as it is, other `stat` errors are passed on; then one transfer. */
  function CopyDirSpec(src: Store, faults: Faults, s: DestState, srcPath: string, meta: Metadata, dstPath: string): (res: (Outcome, DestState))
    ensures var st := StatIn(s.nodes, faults, dstPath);
      st.Ok? && st.value.mode != DIR ==> res == (Err(Unexpected), s)
  {
    var st := StatIn(s.nodes, faults, dstPath);
    if st.Ok? && st.value.mode == DIR then
      var t := IntoDirectory(srcPath, meta, dstPath);
      if t.Err? then (Err(t.kind), s) else TransferSpec(src, faults, s, srcPath, meta, t.value)
    else if st.Ok? then (Err(Unexpected), s)
    else if st.kind == NotFound then TransferSpec(src, faults, s, srcPath, meta, dstPath)
    else (Err(st.kind), s)
  }

  /** The free `copy_file`: as `copy_dir`, except that an existing file is
      overwritten. */
  function CopyFileSpec(src: Store, faults: Faults, s: DestState, srcPath: string, meta: Metadata, dstPath: string): (Outcome, DestState)
  {
    var st := StatIn(s.nodes, faults, dstPath);
    if st.Ok? && st.value.mode == DIR then
      var t := IntoDirectory(srcPath, meta, dstPath);
      if t.Err? then (Err(t.kind), s) else TransferSpec(src, faults, s, srcPath, meta, t.value)
    else if st.Ok? || st.kind == NotFound then TransferSpec(src, faults, s, srcPath, meta, dstPath)
    else (Err(st.kind), s)
  }

  /** The free `copy`: `stat` the source as given and go by its kind. */
  function CopySpec(src: Store, faults: Faults, s: DestState, srcPath: string, dstPath: string): (res: (Outcome, DestState))
    ensures var st := src.Stat(srcPath);
      st.Err? ==> res == (Err(st.kind), s)
    ensures var st := src.Stat(srcPath);
      st.Ok? && st.value.mode == Unknown ==> res == (Err(Unsupported), s)
  {
    var st := src.Stat(srcPath);
    if st.Err? then (Err(st.kind), s)
    else
      match st.value.mode
      case DIR => CopyDirSpec(src, faults, s, srcPath, st.value, dstPath)
      case FILE => CopyFileSpec(src, faults, s, srcPath, st.value, dstPath)
      case Unknown => (Err(Unsupported), s)
  }

  /** The free `copy`. */
  method Copy(src: Store, dst: Destination, srcPath: string, dstPath: string) returns (r: Outcome)
    modifies dst
    ensures (r, dst.State()) == CopySpec(src, dst.faults, old(dst.State()), srcPath, dstPath)
  {
    var st := src.Stat(srcPath);
    if st.Err? {
      return Err(st.kind);
    }
    match st.value.mode
    case DIR => r := CopyDir(src, dst, srcPath, st.value, dstPath);
    case FILE => r := CopyFile(src, dst, srcPath, st.value, dstPath);
    case Unknown => r := Err(Unsupported);
  }

  /** Resolves the destination of the free functions, refusing a file when
      `refuseFile` holds (`copy_dir`) and overwriting it otherwise (`copy_file`). */
  method Resolve(dst: Destination, srcPath: string, meta: Metadata, dstPath: string, refuseFile: bool) returns (t: Result<string>)
    ensures var st := StatIn(dst.nodes, dst.faults, dstPath);
      t == if st.Ok? && st.value.mode == DIR then IntoDirectory(srcPath, meta, dstPath)
           else if st.Ok? then (if refuseFile then Err(Unexpected) else Ok(dstPath))
           else if st.kind == NotFound then Ok(dstPath)
           else Err(st.kind)
  {
    var st := dst.Stat(dstPath);
    if st.Ok? && st.value.mode == DIR {
      t := IntoDirectory(srcPath, meta, dstPath);
    } else if st.Ok? {
      t := if refuseFile then Err(Unexpected) else Ok(dstPath);
    } else if st.kind == NotFound {
      t := Ok(dstPath);
    } else {
      t := Err(st.kind);
    }
  }

  /** The free `copy_dir`. */
  method CopyDir(src: Store, dst: Destination, srcPath: string, meta: Metadata, dstPath: string) returns (r: Outcome)
    modifies dst
    ensures (r, dst.State()) == CopyDirSpec(src, dst.faults, old(dst.State()), srcPath, meta, dstPath)
  {
    var t := Resolve(dst, srcPath, meta, dstPath, true);
    if t.Err? {
      return Err(t.kind);
    }
    r := DoCopyFile(src, dst, srcPath, meta, t.value);
  }

  /** The free `copy_file`. */
  method CopyFile(src: Store, dst: Destination, srcPath: string, meta: Metadata, dstPath: string) returns (r: Outcome)
    modifies dst
    ensures (r, dst.State()) == CopyFileSpec(src, dst.faults, old(dst.State()), srcPath, meta, dstPath)
  {
    var t := Resolve(dst, srcPath, meta, dstPath, false);
    if t.Err? {
      return Err(t.kind);
    }
    r := DoCopyFile(src, dst, srcPath, meta, t.value);
  }

  // ---------------------------------------------------------------------------
  // The older copier object
  // ---------------------------------------------------------------------------

  /** `Copier::copy_file`: an existing directory receives the source joined
      under its name, whichever way that name was found. */
  function CopierCopyFileSpec(src: Store, faults: Faults, s: DestState, source: string, meta: Metadata, destination: string): (Outcome, DestState)
  {
    var st := StatIn(s.nodes, faults, destination);
    if st.Ok? && st.value.mode == DIR then
      var name := SourceName(source, meta);
      if name.Err? then (Err(name.kind), s) else TransferSpec(src, faults, s, source, meta, JoinPath(destination, name.value))
    else if st.Ok? || st.kind == NotFound then TransferSpec(src, faults, s, source, meta, destination)
    else (Err(st.kind), s)
  }

  /** `Copier::copy`: only files are copied. */
  function CopierCopySpec(src: Store, faults: Faults, s: DestState, source: string, destination: string): (res: (Outcome, DestState))
    ensures var st := src.Stat(source);
      st.Ok? && st.value.mode != FILE ==> res == (Err(Unsupported), s)
    ensures var st := src.Stat(source);
      st.Err? ==> res == (Err(st.kind), s)
  {
    var st := src.Stat(source);
    if st.Err? then (Err(st.kind), s)
    else if st.value.mode == FILE then CopierCopyFileSpec(src, faults, s, source, st.value, destination)
    else (Err(Unsupported), s)
  }

  class Copier {
    const source: Store
    const destination: Destination

    constructor(source: Store, destination: Destination)
      ensures this.source == source && this.destination == destination
    {
      this.source := source;
      this.destination := destination;
    }

    method Copy(from: string, to: string) returns (r: Outcome)
      modifies destination
      ensures (r, destination.State()) == CopierCopySpec(source, destination.faults, old(destination.State()), from, to)
    {
      var meta := source.Stat(from);
      if meta.Err? {
        return Err(meta.kind);
      }
      if meta.value.mode != FILE {
        return Err(Unsupported);
      }
      r := CopyFile(from, meta.value, to);
    }

    method CopyFile(from: string, meta: Metadata, to: string) returns (r: Outcome)
      modifies destination
      ensures (r, destination.State()) == CopierCopyFileSpec(source, destination.faults, old(destination.State()), from, meta, to)
    {
      var st := destination.Stat(to);
      var target := to;
      if st.Ok? && st.value.mode == DIR {
        var name := SourceName(from, meta);
        if name.Err? {
          return Err(name.kind);
        }
        target := JoinPath(to, name.value);
      } else if st.Err? && st.kind != NotFound {
        return Err(st.kind);
      }
      r := DoCopyFile(source, destination, from, meta, target);
    }
  }
}
