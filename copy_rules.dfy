/**
 * The copier's rules at the level of whole calls: where a file copy lands, that
 * a directory copy leaves its destination existing and creates nothing twice,
 * that the outcome depends only on the normal form of the paths, and the
 * scenarios of the copier's tests.
 */
module CopyRules {
  import opened Wrappers
  import opened Errors
  import opened Paths
  import opened Glob
  import opened Storage
  import opened Transfer
  import opened List
  import opened Copy
  import opened CopyLaws
  import opened PathExamples

  /** A path ending in a separator is stored under a key ending in one. */
  lemma StoreKeyKeepsSlash(p: string)
    requires EndsWithSlash(p)
    ensures EndsWithSlash(StoreKey(p))
  {
  }

  // ---------------------------------------------------------------------------
  // Dispatch
  // ---------------------------------------------------------------------------

  /** Copying depends only on the normal form of both paths: copying between
      normalised paths is copying between the paths themselves. */
  lemma CopyImplNormalizes(src: Store, g: Globber, faults: Faults, s: DestState, source: string, dest: string, recursive: bool)
    ensures CopyImplSpec(src, g, faults, s, Normalized(source), Normalized(dest), recursive)
         == CopyImplSpec(src, g, faults, s, source, dest, recursive)
  {
    NormalizedIdempotent(source);
    NormalizedIdempotent(dest);
  }

  // ---------------------------------------------------------------------------
  // File copies
  // ---------------------------------------------------------------------------

  /** A file copy that succeeds stores the source's chunks, with its content
      type, inside the destination when that is a directory (under the
      source's name) and at the destination itself otherwise; it only succeeds
      when the destination exists or is missing. */
  lemma CopyFileLands(src: Store, faults: Faults, s: DestState, source: Source, dest: string)
    requires CopyFileSpec(src, faults, s, source, dest).0.Ok?
    ensures var st := StatIn(s.nodes, faults, dest);
      var into := st.Ok? && st.value.mode == DIR;
      && (st.Err? ==> st.kind == NotFound)
      && (into ==> SourceName(source.path, source.meta).Ok?)
      && var target := if into then JoinPath(dest, SourceName(source.path, source.meta).value) else dest;
        var s' := CopyFileSpec(src, faults, s, source, dest).1;
        && StoreKey(source.path) in src.nodes && src.nodes[StoreKey(source.path)].File?
        && StoreKey(target) in s'.nodes
        && s'.nodes[StoreKey(target)] == File(src.nodes[StoreKey(source.path)].chunks, source.meta.contentType, None, None)
  {
    var st := StatIn(s.nodes, faults, dest);
    if st.Ok? && st.value.mode == DIR {
      var name := SourceName(source.path, source.meta);
      TransferOk(src, faults, s, source.path, source.meta, JoinPath(dest, name.value));
    } else if st.Ok? || ParentOf(dest).None? {
      TransferOk(src, faults, s, source.path, source.meta, dest);
    } else {
      var (r, s1) := CreateDirStep(faults, s, ParentOf(dest).value + "/");
      TransferOk(src, faults, s1, source.path, source.meta, dest);
    }
  }

  /** A missing destination has its parent created as a directory before the
      file is written, and the parent stays a directory. */
  lemma CopyFileCreatesParent(src: Store, faults: Faults, s: DestState, source: Source, dest: string)
    requires StatIn(s.nodes, faults, dest) == Err(NotFound)
    requires ParentOf(dest).Some?
    requires var q := ParentOf(dest).value + "/"; EndsWithSlash(StoreKey(q)) && CreateDirOp(StoreKey(q)) !in faults
    ensures var q := ParentOf(dest).value + "/";
      var s1 := DestState(s.nodes[StoreKey(q) := Dir], s.log + [CreateDirCall(q)]);
      var res := CopyFileSpec(src, faults, s, source, dest);
      && res == TransferSpec(src, faults, s1, source.path, source.meta, dest)
      && StoreKey(q) in res.1.nodes && res.1.nodes[StoreKey(q)] == Dir
  {
    var q := ParentOf(dest).value + "/";
    var s1 := DestState(s.nodes[StoreKey(q) := Dir], s.log + [CreateDirCall(q)]);
    assert CreateDirStep(faults, s, q) == (Ok(()), s1);
    TransferKeepsDirKeys(src, faults, s1, source.path, source.meta, dest, StoreKey(q));
  }

  /** The parent of `d/n`, for proper names, is `d`. */
  lemma ParentOfTwo(d: string, n: string)
    requires IsName(d) && IsName(n)
    ensures ParentOf(d + "/" + n) == Some(d)
    ensures StoreKey(d + "/" + n) == d + "/" + n
  {
    JoinTwo(d, n);
    assert Join([d, n]) + "" == d + "/" + n;
    CompsOfNames([d, n], false);
    assert Comps(d + "/" + n)[..1] == [Normal(d)];
    assert Names([Normal(d)]) == [d];
    StoreKeyOfNames([d, n], false);
  }

  /** As written, a file copied to `d/n`, missing with its parent, is refused:
      the parent is passed to `create_dir` without a separator, which names a
      file, so `NotADirectory` is returned and no writer is opened. */
  lemma CopyFileAsWrittenRefusesMissingParent(src: Store, faults: Faults, s: DestState, source: Source, d: string, n: string)
    requires IsName(d) && IsName(n)
    requires StatOp(d + "/" + n) !in faults && d + "/" + n !in s.nodes
    ensures CopyFileAsWritten(src, faults, s, source, d + "/" + n) == (Err(NotADirectory), s.(log := s.log + [CreateDirCall(d)]))
  {
    ParentOfTwo(d, n);
    StoreKeyOfName(d);
  }

  /** With no faults on either side, copying a file that reads cleanly to a
      file key succeeds and stores the source's chunks there. */
  lemma TransferCleanly(src: Store, s: DestState, from: string, meta: Metadata, to: string)
    requires src.faults == map[]
    requires StoreKey(from) in src.nodes && src.nodes[StoreKey(from)].File?
    requires src.nodes[StoreKey(from)].streamEnd.None? && !EndsWithSlash(StoreKey(from))
    requires !EndsWithSlash(StoreKey(to))
    ensures var res := TransferSpec(src, map[], s, from, meta, to);
      && res.0 == Ok(())
      && res.1.nodes == s.nodes[StoreKey(to) := File(src.nodes[StoreKey(from)].chunks, meta.contentType, None, None)]
  {
    TransferSucceedsIff(src, map[], s, from, meta, to);
    TransferOk(src, map[], s, from, meta, to);
  }

  /** As intended, the same copy creates `d/` and then writes at `d/n`; with no
      faults it succeeds whenever the source is a file that reads cleanly. */
  lemma CopyFileSpecCreatesMissingParent(src: Store, s: DestState, source: Source, d: string, n: string)
    requires IsName(d) && IsName(n)
    requires d + "/" + n !in s.nodes
    requires src.faults == map[]
    requires StoreKey(source.path) in src.nodes && src.nodes[StoreKey(source.path)].File?
    requires src.nodes[StoreKey(source.path)].streamEnd.None? && !EndsWithSlash(StoreKey(source.path))
    ensures var res := CopyFileSpec(src, map[], s, source, d + "/" + n);
      && res.0 == Ok(())
      && res.1.nodes == s.nodes[d + "/" := Dir][d + "/" + n := File(src.nodes[StoreKey(source.path)].chunks, source.meta.contentType, None, None)]
  {
    var dest := d + "/" + n;
    ParentOfTwo(d, n);
    StoreKeyOfNames([d], true);
    assert Join([d]) + "/" == d + "/";
    CopyFileCreatesParent(src, map[], s, source, dest);
    var s1 := DestState(s.nodes[d + "/" := Dir], s.log + [CreateDirCall(d + "/")]);
    TransferCleanly(src, s1, source.path, source.meta, dest);
  }

  /** `copy` of a file goes to the file copy with the normalised paths. */
  lemma CopyImplOfFile(src: Store, g: Globber, faults: Faults, s: DestState, source: string, dest: string, recursive: bool)
    requires src.Stat(Normalized(source)).Ok? && src.Stat(Normalized(source)).value.mode == FILE
    ensures CopyImplSpec(src, g, faults, s, source, dest, recursive)
         == CopyFileSpec(src, faults, s, Source(Normalized(source), src.Stat(Normalized(source)).value), Normalized(dest))
  {
  }

  /** `copy` of a directory goes to the directory copy with the normalised
      paths, keeping the recursion flag. */
  lemma CopyImplOfDir(src: Store, g: Globber, faults: Faults, s: DestState, source: string, dest: string, recursive: bool)
    requires src.Stat(Normalized(source)).Ok? && src.Stat(Normalized(source)).value.mode == DIR
    ensures CopyImplSpec(src, g, faults, s, source, dest, recursive)
         == CopyDirSpec(src, g, faults, s, Source(Normalized(source), src.Stat(Normalized(source)).value), Normalized(dest), recursive)
  {
  }

  /** Once the destination directory exists, a directory copy lists the source
      with recursive options exactly when it is recursive, and with none
      otherwise. */
  lemma CopyDirListsByRecursion(src: Store, g: Globber, faults: Faults, s: DestState, source: Source, dest: string, recursive: bool)
    requires StatIn(s.nodes, faults, dest).Ok? && StatIn(s.nodes, faults, dest).value.mode != FILE
    ensures recursive ==> (CopyDirSpec(src, g, faults, s, source, dest, recursive)
         == CopyListed(src, faults, s, source.path, dest, Lister(src, g, source.path, Some(DefaultListOptions.(recursive := true)))))
    ensures !recursive ==> (CopyDirSpec(src, g, faults, s, source, dest, recursive)
         == CopyListed(src, faults, s, source.path, dest, Lister(src, g, source.path, None)))
  {
  }

  /** A missing destination directory, once created, is listed into the same way. */
  lemma CopyDirListsByRecursionMissing(src: Store, g: Globber, faults: Faults, s: DestState, source: Source, dest: string, recursive: bool)
    requires StatIn(s.nodes, faults, dest) == Err(NotFound)
    requires CreateDirStep(faults, s, dest + "/").0.Ok?
    ensures var s0 := CreateDirStep(faults, s, dest + "/").1;
      recursive ==> (CopyDirSpec(src, g, faults, s, source, dest, recursive)
         == CopyListed(src, faults, s0, source.path, dest, Lister(src, g, source.path, Some(DefaultListOptions.(recursive := true)))))
    ensures var s0 := CreateDirStep(faults, s, dest + "/").1;
      !recursive ==> (CopyDirSpec(src, g, faults, s, source, dest, recursive)
         == CopyListed(src, faults, s0, source.path, dest, Lister(src, g, source.path, None)))
  {
  }

  /** A join of three proper names is its own key, and names a file. */
  lemma ThreeNamesKey(a: string, b: string, n: string)
    requires IsName(a) && IsName(b) && IsName(n)
    ensures StoreKey(a + "/" + b + "/" + n) == a + "/" + b + "/" + n
    ensures !EndsWithSlash(a + "/" + b + "/" + n)
  {
    var p := a + "/" + b + "/" + n;
    JoinThree(a, b, n);
    assert Join([a, b, n]) + "" == p;
    StoreKeyOfNames([a, b, n], false);
    JoinOfNamesBare([a, b, n]);
  }

  /** A file copied to the root lands under its name. */
  lemma CopyFileToRoot(src: Store, s: DestState, a: string, b: string, n: string, meta: Metadata)
    requires IsName(a) && IsName(b) && IsName(n)
    ensures CopyFileSpec(src, map[], s, Source(a + "/" + b + "/" + n, meta), "") == TransferSpec(src, map[], s, a + "/" + b + "/" + n, meta, n)
  {
    var p := a + "/" + b + "/" + n;
    StoreKeyRoot();
    assert p == JoinPath(a + "/" + b, n);
    FileNameOfJoin(a + "/" + b, n);
    assert SourceName(p, meta) == Ok(n);
    assert JoinPath("", n) == n;
  }

  /** The file test: `a/b/n` copied to the empty destination, the root, lands
      at `n` with the source's chunks. */
  lemma CopyFileIntoRootScenario(src: Store, g: Globber, s: DestState, a: string, b: string, n: string, chunks: seq<Chunk>, ct: Option<string>, dn: Option<string>)
    requires IsName(a) && IsName(b) && IsName(n)
    requires src.faults == map[]
    requires a + "/" + b + "/" + n in src.nodes && src.nodes[a + "/" + b + "/" + n] == File(chunks, ct, dn, None)
    ensures var res := CopyImplSpec(src, g, map[], s, a + "/" + b + "/" + n, "", false);
      && res.0 == Ok(())
      && res.1.nodes == s.nodes[n := File(chunks, ct, None, None)]
  {
    var p := a + "/" + b + "/" + n;
    var meta := Metadata(FILE, ct, dn);
    ThreeNamesKey(a, b, n);
    NormalizedThree(a, b, n);
    NormalizedEmpty();
    assert src.Stat(p) == Ok(meta);
    CopyImplOfFile(src, g, map[], s, p, "", false);
    CopyFileToRoot(src, s, a, b, n, meta);
    StoreKeyOfName(n);
    TransferCleanly(src, s, p, meta, n);
  }

  // ---------------------------------------------------------------------------
  // Directory copies
  // ---------------------------------------------------------------------------

  /** A missing destination directory `x/` is created first, with a doubled
      separator that names the same key, and exists whatever the rest of the
      copy does. */
  lemma CopyDirMakesDestination(src: Store, g: Globber, faults: Faults, s: DestState, source: Source, x: string, recursive: bool)
    requires x != ""
    requires var key := StoreKey(x + "/");
      && key != "/" && key !in s.nodes
      && StatOp(key) !in faults && CreateDirOp(key) !in faults
    ensures var s' := CopyDirSpec(src, g, faults, s, source, x + "/", recursive).1;
      && |s'.log| > |s.log| && s'.log[..|s.log| + 1] == s.log + [CreateDirCall(x + "/" + "/")]
      && StatIn(s'.nodes, faults, x + "/") == Ok(DirMeta)
  {
    var dest := x + "/";
    var key := StoreKey(dest);
    StoreKeyDoubleSlash(x);
    StoreKeyKeepsSlash(dest);
    var (r0, s0) := CreateDirStep(faults, s, dest + "/");
    assert r0.Ok? && s0.nodes == s.nodes[key := Dir];
    var l := Lister(src, g, source.path, DirListOptions(recursive));
    var s' := CopyDirSpec(src, g, faults, s, source, dest, recursive).1;
    if l.Ok? {
      var entries := l.value.entries;
      CopyEntriesKeepsDirs(src, faults, source.path, dest, {Comps(dest)}, s0, entries, key);
      var added := CopyEntriesCreatesOnce(src, faults, source.path, dest, {Comps(dest)}, s0, entries);
      assert s'.log == s.log + [CreateDirCall(dest + "/")] + added;
      assert s'.log[..|s.log| + 1] == s.log + [CreateDirCall(dest + "/")];
    }
  }

  /** The empty-directory test: `a/`, listed empty, copied to a missing `b/`,
      creates `b/` and nothing else. */
  lemma EmptyDirectoryScenario(src: Store, g: Globber, s: DestState, a: string, b: string)
    requires IsName(a) && IsName(b) && !HasGlobChars(a)
    requires src.faults == map[]
    requires a + "/" in src.nodes && src.nodes[a + "/"] == Dir
    requires src.lister(a + "/", DefaultListOptions) == Listing([], Ok(()))
    requires b + "/" !in s.nodes
    ensures var res := CopyImplSpec(src, g, map[], s, a + "/", b + "/", false);
      && res == (Ok(()), DestState(s.nodes[b + "/" := Dir], s.log + [CreateDirCall(b + "/" + "/")]))
      && StatIn(res.1.nodes, map[], b + "/") == Ok(DirMeta)
  {
    EmptySourceSide(src, g, s, a, b);
    EmptyDestinationSide(src, g, s, Source(a + "/", DirMeta), b);
  }

  /** The source side of the empty-directory test: `a/` is a directory whose
      listing is empty. */
  lemma EmptySourceSide(src: Store, g: Globber, s: DestState, a: string, b: string)
    requires IsName(a) && IsName(b) && !HasGlobChars(a)
    requires src.faults == map[]
    requires a + "/" in src.nodes && src.nodes[a + "/"] == Dir
    requires src.lister(a + "/", DefaultListOptions) == Listing([], Ok(()))
    ensures CopyImplSpec(src, g, map[], s, a + "/", b + "/", false)
         == CopyDirSpec(src, g, map[], s, Source(a + "/", DirMeta), b + "/", false)
    ensures Lister(src, g, a + "/", DirListOptions(false)) == Ok(Listing([], Ok(())))
  {
    DirNameNormal(a);
    DirNameNormal(b);
    EmptyListing(src, g, a);
    assert src.Stat(a + "/") == Ok(DirMeta);
  }

  /** A name with a trailing separator is its own normal form and its own key. */
  lemma DirNameNormal(a: string)
    requires IsName(a)
    ensures Normalized(a + "/") == a + "/" && StoreKey(a + "/") == a + "/"
  {
    assert Join([a]) == a;
    NormalizedOfNames([a], true);
    StoreKeyOfNames([a], true);
  }

  /** A directory name without glob metacharacters is listed plainly. */
  lemma EmptyListing(src: Store, g: Globber, a: string)
    requires IsName(a) && !HasGlobChars(a)
    requires src.faults == map[]
    requires src.lister(a + "/", DefaultListOptions) == Listing([], Ok(()))
    ensures Lister(src, g, a + "/", DirListOptions(false)) == Ok(Listing([], Ok(())))
  {
    DirNameNormal(a);
    HasGlobCharsConcat(a, "/");
    LiteralPrefixNoneIff(a + "/");
  }

  /** The destination side of the empty-directory test: a missing `b/` is
      created and an empty listing copies nothing. */
  lemma EmptyDestinationSide(src: Store, g: Globber, s: DestState, source: Source, b: string)
    requires IsName(b) && b + "/" !in s.nodes
    requires Lister(src, g, source.path, DirListOptions(false)) == Ok(Listing([], Ok(())))
    ensures var res := CopyDirSpec(src, g, map[], s, source, b + "/", false);
      && res == (Ok(()), DestState(s.nodes[b + "/" := Dir], s.log + [CreateDirCall(b + "/" + "/")]))
      && StatIn(res.1.nodes, map[], b + "/") == Ok(DirMeta)
  {
    assert Join([b]) == b;
    StoreKeyOfNames([b], true);
    StoreKeyDoubleSlash(b);
    assert StatIn(s.nodes, map[], b + "/") == Err(NotFound);
  }

  /** The loop of a directory copy creates distinct directories, none of them
      the destination. */
  lemma CopyListedCreates(src: Store, faults: Faults, s0: DestState, from: string, dest: string, l: Result<Listing>)
    returns (rest: seq<Call>)
    requires l.Ok?
    ensures var made := CreatedParents(rest);
      && CopyListed(src, faults, s0, from, dest, l).1.log == s0.log + rest
      && NoDup(made) && (forall i :: 0 <= i < |made| ==> made[i] != Comps(dest))
  {
    rest := CopyEntriesCreatesOnce(src, faults, from, dest, {Comps(dest)}, s0, l.value.entries);
  }

  /** Into an existing directory, only the loop creates directories. */
  lemma CopyDirCreatesOnceExisting(src: Store, g: Globber, faults: Faults, s: DestState, source: Source, dest: string, recursive: bool)
    returns (added: seq<Call>)
    requires StatIn(s.nodes, faults, dest).Ok? && StatIn(s.nodes, faults, dest).value.mode != FILE
    ensures var s' := CopyDirSpec(src, g, faults, s, source, dest, recursive).1;
      s'.log == s.log + added && NoDup(CreatedParents(added))
  {
    var l := Lister(src, g, source.path, DirListOptions(recursive));
    assert CopyDirSpec(src, g, faults, s, source, dest, recursive) == CopyListed(src, faults, s, source.path, dest, l);
    if l.Err? {
      added := [];
    } else {
      added := CopyListedCreates(src, faults, s, source.path, dest, l);
    }
  }

  /** Into a missing directory, the destination is created first and the loop
      never creates it again. */
  lemma CopyDirCreatesOnceMissing(src: Store, g: Globber, faults: Faults, s: DestState, source: Source, dest: string, recursive: bool)
    returns (added: seq<Call>)
    requires StatIn(s.nodes, faults, dest) == Err(NotFound)
    ensures var s' := CopyDirSpec(src, g, faults, s, source, dest, recursive).1;
      s'.log == s.log + added && NoDup(CreatedParents(added))
  {
    var (r0, s0) := CreateDirStep(faults, s, dest + "/");
    if r0.Err? {
      added := [CreateDirCall(dest + "/")];
      CreatesDestination(dest);
      assert CopyDirSpec(src, g, faults, s, source, dest, recursive).1 == s0;
    } else {
      var l := Lister(src, g, source.path, DirListOptions(recursive));
      assert CopyDirSpec(src, g, faults, s, source, dest, recursive) == CopyListed(src, faults, s0, source.path, dest, l);
      added := ListedAfterCreating(src, faults, s, s0, source.path, dest, l);
    }
  }

  /** The loop after creating the destination creates no directory twice. */
  lemma ListedAfterCreating(src: Store, faults: Faults, s: DestState, s0: DestState, from: string, dest: string, l: Result<Listing>)
    returns (added: seq<Call>)
    requires s0.log == s.log + [CreateDirCall(dest + "/")]
    ensures CopyListed(src, faults, s0, from, dest, l).1.log == s.log + added
    ensures NoDup(CreatedParents(added))
  {
    var first := [CreateDirCall(dest + "/")];
    CreatesDestination(dest);
    if l.Err? {
      added := first;
    } else {
      var rest := CopyListedCreates(src, faults, s0, from, dest, l);
      added := first + rest;
      FirstThenLoop(dest, first, rest);
      assert (s.log + first) + rest == s.log + added;
    }
  }

  /** Creating `dest/` creates the directory `dest`. */
  lemma CreatesDestination(dest: string)
    ensures CreatedParents([CreateDirCall(dest + "/")]) == [Comps(dest)]
  {
    assert DropSlash(dest + "/") == dest by {
      assert (dest + "/")[..|dest|] == dest;
    }
    assert CreatedParents([CreateDirCall(dest + "/")]) == [Comps(DropSlash(dest + "/"))] + CreatedParents([]);
  }

  /** Creating the destination and then distinct directories other than it
      creates no directory twice. */
  lemma FirstThenLoop(dest: string, first: seq<Call>, rest: seq<Call>)
    requires CreatedParents(first) == [Comps(dest)]
    requires var made := CreatedParents(rest);
      NoDup(made) && (forall i :: 0 <= i < |made| ==> made[i] != Comps(dest))
    ensures NoDup(CreatedParents(first + rest))
  {
    CreatedParentsConcat(first, rest);
    NoDupConcat([Comps(dest)], CreatedParents(rest));
  }

  /** A directory copy creates no directory twice: the destination, when it is
      missing, and then each parent, once. */
  lemma CopyDirCreatesOnce(src: Store, g: Globber, faults: Faults, s: DestState, source: Source, dest: string, recursive: bool)
    returns (added: seq<Call>)
    ensures var s' := CopyDirSpec(src, g, faults, s, source, dest, recursive).1;
      s'.log == s.log + added && NoDup(CreatedParents(added))
  {
    var st := StatIn(s.nodes, faults, dest);
    if (st.Ok? && st.value.mode == FILE) || (st.Err? && st.kind != NotFound) {
      added := [];
    } else if st.Ok? {
      added := CopyDirCreatesOnceExisting(src, g, faults, s, source, dest, recursive);
    } else {
      added := CopyDirCreatesOnceMissing(src, g, faults, s, source, dest, recursive);
    }
  }
}
