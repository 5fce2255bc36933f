/**
 * The copier: copies a file or a directory tree from a source store to a
 * destination store. Both paths are normalised first; the source's kind
 * decides between a file copy and a directory copy. A file copied onto an
 * existing directory goes inside it under the source's name; a directory copy
 * lists the source and copies every file under the destination, creating each
 * parent directory once.
 */
module Copy {
  import opened Wrappers
  import opened Errors
  import opened Paths
  import opened Storage
  import opened Transfer
  import opened List

  /** A source object: its normalised path and the metadata `stat` reported. */
  datatype Source = Source(path: string, meta: Metadata)

  // ---------------------------------------------------------------------------
  // File copy
  // ---------------------------------------------------------------------------

  /** `copy_file`, with the argument given to `create_dir` for the parent of a
      destination that does not exist computed by `parentArg`: an existing
      directory receives the file under the source's name, an existing file is
      overwritten, a missing destination has its parent created first, and any
      other `stat` error is passed on. */
  function CopyFileVia(src: Store, faults: Faults, s: DestState, source: Source, dest: string, parentArg: string -> string): (Outcome, DestState)
  {
    var st := StatIn(s.nodes, faults, dest);
    if st.Ok? && st.value.mode == DIR then
      var name := SourceName(source.path, source.meta);
      if name.Err? then (Err(name.kind), s)
      else TransferSpec(src, faults, s, source.path, source.meta, JoinPath(dest, name.value))
    else if st.Ok? then TransferSpec(src, faults, s, source.path, source.meta, dest)
    else if st.kind == NotFound then
      var parent := ParentOf(dest);
      if parent.None? then TransferSpec(src, faults, s, source.path, source.meta, dest)
      else
        var (r, s1) := CreateDirStep(faults, s, parentArg(parent.value));
        if r.Err? then (r, s1) else TransferSpec(src, faults, s1, source.path, source.meta, dest)
    else (Err(st.kind), s)
  }

  /** `copy_file` as written: the parent is passed to `create_dir` as it is,
      without a trailing separator. */
  function CopyFileAsWritten(src: Store, faults: Faults, s: DestState, source: Source, dest: string): (Outcome, DestState)
  {
    CopyFileVia(src, faults, s, source, dest, p => p)
  }

  /** `copy_file` as intended and modelled: the parent is created as a
      directory, with a trailing separator, as `copy_dir` does. */
  function CopyFileSpec(src: Store, faults: Faults, s: DestState, source: Source, dest: string): (Outcome, DestState)
  {
    CopyFileVia(src, faults, s, source, dest, p => p + "/")
  }

  // ---------------------------------------------------------------------------
  // Directory copy
  // ---------------------------------------------------------------------------

  /** The state of the directory-copy loop: how the last step went, the
      directories known to exist (compared by components, as paths are) and
      the destination. */
  datatype Progress = Progress(outcome: Outcome, created: set<seq<Component>>, state: DestState)

  /** Creates `parent` unless there is none or it is known to exist, and records it. */
  function EnsureParent(faults: Faults, created: set<seq<Component>>, s: DestState, parent: Option<string>): Progress
  {
    if parent.None? || Comps(parent.value) in created then Progress(Ok(()), created, s)
    else
      var (r, s1) := CreateDirStep(faults, s, parent.value + "/");
      if r.Err? then Progress(r, created, s1) else Progress(Ok(()), created + {Comps(parent.value)}, s1)
  }

  /** Copies a file entry to `target`, after ensuring the parent of `target`. */
  function PlaceEntry(src: Store, faults: Faults, created: set<seq<Component>>, s: DestState, e: Entry, target: string): Progress
  {
    var p := EnsureParent(faults, created, s, ParentOf(target));
    if p.outcome.Err? then p
    else
      var (r, s2) := TransferSpec(src, faults, p.state, e.path, e.meta, target);
      Progress(r, p.created, s2)
  }

  /** One step of the loop of `copy_dir`: a directory entry is skipped; any
      other entry is copied to the destination joined with its path relative
      to the source; an entry outside the source is an `Unexpected` error. */
  function CopyOne(src: Store, faults: Faults, from: string, dest: string, created: set<seq<Component>>, s: DestState, e: Entry): Progress
  {
    if e.meta.mode == DIR then Progress(Ok(()), created, s)
    else
      var rel := StripPrefix(e.path, from);
      if rel.None? then Progress(Err(Unexpected), created, s)
      else PlaceEntry(src, faults, created, s, e, JoinPath(dest, rel.value))
  }

  /** The loop of `copy_dir` over the listed entries, in order; the first error
      ends it. */
  function CopyEntries(src: Store, faults: Faults, from: string, dest: string, created: set<seq<Component>>, s: DestState, entries: seq<Entry>): Progress
    decreases |entries|
  {
    if entries == [] then Progress(Ok(()), created, s)
    else
      var p := CopyOne(src, faults, from, dest, created, s, entries[0]);
      if p.outcome.Err? then p else CopyEntries(src, faults, from, dest, p.created, p.state, entries[1..])
  }

  /** The listing options of a directory copy: recursive ones, or none. */
  function DirListOptions(recursive: bool): (o: Option<ListOptions>)
    ensures recursive ==> o == Some(DefaultListOptions.(recursive := true))
    ensures !recursive ==> o == None
  {
    if recursive then Some(DefaultListOptions.(recursive := true)) else None
  }

  /** `copy_dir`: a destination that is a file is refused, a missing one is
      created, other `stat` errors are passed on; then the source is listed and
      its entries copied, the destination counting as created. */
  function CopyDirSpec(src: Store, g: Globber, faults: Faults, s: DestState, source: Source, dest: string, recursive: bool): (res: (Outcome, DestState))
    ensures var st := StatIn(s.nodes, faults, dest);
      st.Ok? && st.value.mode == FILE ==> res == (Err(NotADirectory), s)
    ensures var st := StatIn(s.nodes, faults, dest);
      st.Err? && st.kind != NotFound ==> res == (Err(st.kind), s)
  {
    var st := StatIn(s.nodes, faults, dest);
    if st.Ok? && st.value.mode == FILE then (Err(NotADirectory), s)
    else if st.Err? && st.kind != NotFound then (Err(st.kind), s)
    else
      var (r0, s0) := if st.Ok? then (Ok(()), s) else CreateDirStep(faults, s, dest + "/");
      if r0.Err? then (r0, s0)
      else CopyListed(src, faults, s0, source.path, dest, Lister(src, g, source.path, DirListOptions(recursive)))
  }

  /** The rest of `copy_dir` once the destination exists, given the source's
      listing: a listing error is passed on; otherwise the entries are copied,
      the destination counting as created, and the first error or the
      listing's own end is the outcome. */
  function CopyListed(src: Store, faults: Faults, s0: DestState, from: string, dest: string, l: Result<Listing>): (res: (Outcome, DestState))
    ensures l.Err? ==> res == (Err(l.kind), s0)
  {
    if l.Err? then (Err(l.kind), s0)
    else
      var p := CopyEntries(src, faults, from, dest, {Comps(dest)}, s0, l.value.entries);
      if p.outcome.Err? then (p.outcome, p.state) else (l.value.end, p.state)
  }

  /** `copy_impl`: normalise both paths, `stat` the source and go by its kind. */
  function CopyImplSpec(src: Store, g: Globber, faults: Faults, s: DestState, source: string, dest: string, recursive: bool): (res: (Outcome, DestState))
    ensures var st := src.Stat(Normalized(source));
      st.Err? ==> res == (Err(st.kind), s)
    ensures var st := src.Stat(Normalized(source));
      st.Ok? && st.value.mode == Unknown ==> res == (Err(Unsupported), s)
  {
    var sp := Normalized(source);
    var dp := Normalized(dest);
    var st := src.Stat(sp);
    if st.Err? then (Err(st.kind), s)
    else
      match st.value.mode
      case DIR => CopyDirSpec(src, g, faults, s, Source(sp, st.value), dp, recursive)
      case FILE => CopyFileSpec(src, faults, s, Source(sp, st.value), dp)
      case Unknown => (Err(Unsupported), s)
  }

  // ---------------------------------------------------------------------------
  // The copier object
  // ---------------------------------------------------------------------------

  class Copier {
    const source: Store
    const destination: Destination
    const globber: Globber

    constructor(source: Store, destination: Destination, globber: Globber)
      ensures this.source == source && this.destination == destination && this.globber == globber
    {
      this.source := source;
      this.destination := destination;
      this.globber := globber;
    }

    /** `copy`: a file, or a directory's direct entries. */
    method Copy(from: string, to: string) returns (r: Outcome)
      modifies destination
      ensures (r, destination.State()) == CopyImplSpec(source, globber, destination.faults, old(destination.State()), from, to, false)
    {
      r := CopyImpl(from, to, false);
    }

    /** `copy_recursive`: a file, or a whole directory tree. */
    method CopyRecursive(from: string, to: string) returns (r: Outcome)
      modifies destination
      ensures (r, destination.State()) == CopyImplSpec(source, globber, destination.faults, old(destination.State()), from, to, true)
    {
      r := CopyImpl(from, to, true);
    }

    method CopyImpl(from: string, to: string, recursive: bool) returns (r: Outcome)
      modifies destination
      ensures (r, destination.State()) == CopyImplSpec(source, globber, destination.faults, old(destination.State()), from, to, recursive)
    {
      var sp := NormalizePath(from);
      var dp := NormalizePath(to);
      var st := source.Stat(sp);
      if st.Err? {
        return Err(st.kind);
      }
      match st.value.mode
      case DIR => r := CopyDir(Source(sp, st.value), dp, recursive);
      case FILE => r := CopyFile(Source(sp, st.value), dp);
      case Unknown => r := Err(Unsupported);
    }

    method CopyDir(src: Source, dest: string, recursive: bool) returns (r: Outcome)
      modifies destination
      ensures (r, destination.State()) == CopyDirSpec(source, globber, destination.faults, old(destination.State()), src, dest, recursive)
    {
      var st := destination.Stat(dest);
      if st.Ok? && st.value.mode == FILE {
        return Err(NotADirectory);
      }
      if st.Err? {
        if st.kind != NotFound {
          return Err(st.kind);
        }
        var c := destination.CreateDir(dest + "/");
        if c.Err? {
          return c;
        }
      }
      var l := Lister(source, globber, src.path, DirListOptions(recursive));
      if l.Err? {
        return Err(l.kind);
      }
      var entries := l.value.entries;
      var created: set<seq<Component>> := {Comps(dest)};
      ghost var s0 := destination.State();
      var i := 0;
      while i < |entries|
        invariant 0 <= i <= |entries|
        invariant CopyEntries(source, destination.faults, src.path, dest, created, destination.State(), entries[i..])
               == CopyEntries(source, destination.faults, src.path, dest, {Comps(dest)}, s0, entries)
      {
        assert entries[i..][1..] == entries[i + 1..];
        var e := entries[i];
        ghost var before := destination.State();
        ghost var step := CopyOne(source, destination.faults, src.path, dest, created, before, e);
        if e.meta.mode == DIR {
          i := i + 1;
          continue;
        }
        var rel := StripPrefix(e.path, src.path);
        if rel.None? {
          return Err(Unexpected);
        }
        var target := JoinPath(dest, rel.value);
        var t;
        t, created := PlaceFile(e, target, created);
        assert step == Progress(t, created, destination.State());
        if t.Err? {
          return t;
        }
        i := i + 1;
      }
      r := l.value.end;
    }

    /** One file entry of the loop of `copy_dir`: its parent is created unless
        known to exist, then the file is copied to `target`. */
    method PlaceFile(e: Entry, target: string, created: set<seq<Component>>) returns (r: Outcome, known: set<seq<Component>>)
      modifies destination
      ensures Progress(r, known, destination.State()) == PlaceEntry(source, destination.faults, created, old(destination.State()), e, target)
    {
      var parent := ParentOf(target);
      known := created;
      if parent.Some? && Comps(parent.value) !in created {
        var c := destination.CreateDir(parent.value + "/");
        if c.Err? {
          return c, known;
        }
        known := created + {Comps(parent.value)};
      }
      assert EnsureParent(destination.faults, created, old(destination.State()), parent) == Progress(Ok(()), known, destination.State());
      r := DoCopyFile(source, destination, e.path, e.meta, target);
    }

    method CopyFile(src: Source, dest: string) returns (r: Outcome)
      modifies destination
      ensures (r, destination.State()) == CopyFileSpec(source, destination.faults, old(destination.State()), src, dest)
    {
      var st := destination.Stat(dest);
      var target := dest;
      if st.Ok? && st.value.mode == DIR {
        var name := SourceName(src.path, src.meta);
        if name.Err? {
          return Err(name.kind);
        }
        target := JoinPath(dest, name.value);
      } else if st.Err? {
        if st.kind != NotFound {
          return Err(st.kind);
        }
        var parent := ParentOf(dest);
        if parent.Some? {
          var c := destination.CreateDir(parent.value + "/");
          if c.Err? {
            return c;
          }
        }
      }
      r := DoCopyFile(source, destination, src.path, src.meta, target);
    }
  }
}
