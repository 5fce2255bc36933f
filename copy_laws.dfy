/**
 * What the copier promises: the directory loop creates every parent once and
 * never the destination itself again, skips directories, stops at the first
 * error, and keeps every created directory; a directory copy onto a file is
 * refused before anything happens; file copies land where the destination's
 * kind says; and the copy's outcome does not depend on how the paths are
 * spelled, only on their normal form.
 */
module CopyLaws {
  import opened Wrappers
  import opened Errors
  import opened Paths
  import opened Storage
  import opened Transfer
  import opened List
  import opened Copy

  // ---------------------------------------------------------------------------
  // Parents are created once
  // ---------------------------------------------------------------------------

  /** A path with its trailing separator, if any, removed. */
  function DropSlash(q: string): string
  {
    if EndsWithSlash(q) then q[..|q| - 1] else q
  }

  /** The directories the calls create, by components, in order. */
  function CreatedParents(calls: seq<Call>): seq<seq<Component>>
  {
    if calls == [] then []
    else (if calls[0].CreateDirCall? then [Comps(DropSlash(calls[0].path))] else []) + CreatedParents(calls[1..])
  }

  predicate NoDup<T(==)>(xs: seq<T>)
  {
    forall i, j :: 0 <= i < j < |xs| ==> xs[i] != xs[j]
  }

  lemma {:induction false} CreatedParentsConcat(a: seq<Call>, b: seq<Call>)
    ensures CreatedParents(a + b) == CreatedParents(a) + CreatedParents(b)
    decreases |a|
  {
    if a == [] {
      assert a + b == b;
    } else {
      assert (a + b)[0] == a[0];
      assert (a + b)[1..] == a[1..] + b;
      CreatedParentsConcat(a[1..], b);
    }
  }

  lemma {:induction false} CreatedParentsNone(a: seq<Call>)
    requires NoCreateDir(a)
    ensures CreatedParents(a) == []
    decreases |a|
  {
    if a != [] {
      assert !a[0].CreateDirCall?;
      assert NoCreateDir(a[1..]) by {
        forall i | 0 <= i < |a[1..]| ensures !a[1..][i].CreateDirCall? { assert a[1..][i] == a[i + 1]; }
      }
      CreatedParentsNone(a[1..]);
    }
  }

  lemma NoDupConcat<T>(a: seq<T>, b: seq<T>)
    requires NoDup(a) && NoDup(b)
    requires forall i :: 0 <= i < |a| ==> a[i] !in b
    ensures NoDup(a + b)
  {
    forall i, j | 0 <= i < j < |a + b| ensures (a + b)[i] != (a + b)[j] {
      if j < |a| {
        assert (a + b)[i] == a[i] && (a + b)[j] == a[j];
      } else if i >= |a| {
        assert (a + b)[i] == b[i - |a|] && (a + b)[j] == b[j - |a|];
      } else {
        assert (a + b)[i] == a[i] && (a + b)[j] == b[j - |a|];
      }
    }
  }

  lemma ElementsConcat<T>(a: seq<T>, b: seq<T>)
    ensures (set x | x in a + b) == (set x | x in a) + (set x | x in b)
  {
  }

  /** What one step from `created` and `s` to `p`, having logged `added`,
      promises: at most one directory created, one not known to exist, and
      recorded when the step succeeds. */
  predicate StepAdds(created: set<seq<Component>>, s: DestState, p: Progress, added: seq<Call>)
  {
    var made := CreatedParents(added);
    && p.state.log == s.log + added
    && |made| <= 1
    && (forall i :: 0 <= i < |made| ==> made[i] !in created)
    && (p.outcome.Ok? ==> p.created == created + (set c | c in made))
  }

  /** Ensuring a parent creates it only when it is not known to exist. */
  lemma EnsureParentAdded(faults: Faults, created: set<seq<Component>>, s: DestState, parent: Option<string>) returns (added: seq<Call>)
    ensures StepAdds(created, s, EnsureParent(faults, created, s, parent), added)
  {
    if parent.None? || Comps(parent.value) in created {
      added := [];
    } else {
      added := EnsureParentCreates(faults, created, s, parent.value);
    }
  }

  lemma EnsureParentCreates(faults: Faults, created: set<seq<Component>>, s: DestState, d: string) returns (added: seq<Call>)
    requires Comps(d) !in created
    ensures StepAdds(created, s, EnsureParent(faults, created, s, Some(d)), added)
  {
    var q := d + "/";
    added := [CreateDirCall(q)];
    assert DropSlash(q) == d by {
      assert q[..|q| - 1] == d;
    }
    assert CreatedParents(added) == [Comps(d)] + CreatedParents([]);
    var (r, s1) := CreateDirStep(faults, s, q);
    assert s1.log == s.log + added;
  }

  /** Placing an entry adds what ensuring its parent adds, then the copy's
      calls, none of which creates a directory. */
  lemma PlaceCreates(src: Store, faults: Faults, created: set<seq<Component>>, s: DestState, e: Entry, target: string) returns (added: seq<Call>)
    ensures StepAdds(created, s, PlaceEntry(src, faults, created, s, e, target), added)
  {
    var p := EnsureParent(faults, created, s, ParentOf(target));
    var a1 := EnsureParentAdded(faults, created, s, ParentOf(target));
    if p.outcome.Err? {
      added := a1;
      assert PlaceEntry(src, faults, created, s, e, target) == p;
    } else {
      var a2 := TransferAdded(src, faults, p.state, e.path, e.meta, target);
      var t := TransferSpec(src, faults, p.state, e.path, e.meta, target);
      StepThen(created, s, p, a1, t, a2);
      added := a1 + a2;
      assert PlaceEntry(src, faults, created, s, e, target) == Progress(t.0, p.created, t.1);
    }
  }

  /** A step that keeps its promise, followed by calls none of which creates a
      directory, keeps it. */
  lemma StepThen(created: set<seq<Component>>, s: DestState, p: Progress, a1: seq<Call>, t: (Outcome, DestState), a2: seq<Call>)
    requires StepAdds(created, s, p, a1) && p.outcome.Ok?
    requires t.1.log == p.state.log + a2 && NoCreateDir(a2)
    ensures StepAdds(created, s, Progress(t.0, p.created, t.1), a1 + a2)
  {
    CreatedParentsNone(a2);
    CreatedParentsConcat(a1, a2);
    assert t.1.log == s.log + (a1 + a2) by {
      assert t.1.log == (s.log + a1) + a2;
    }
  }

  /** One step of the loop creates at most one directory, one not known to
      exist, and records it when the step succeeds. */
  lemma CopyOneCreates(src: Store, faults: Faults, from: string, dest: string, created: set<seq<Component>>, s: DestState, e: Entry)
    returns (added: seq<Call>)
    ensures StepAdds(created, s, CopyOne(src, faults, from, dest, created, s, e), added)
  {
    if e.meta.mode == DIR || StripPrefix(e.path, from).None? {
      added := [];
    } else {
      added := PlaceCreates(src, faults, created, s, e, JoinPath(dest, StripPrefix(e.path, from).value));
    }
  }

  /** What a run of the loop from `created` and `s` to `p`, having logged
      `added`, promises: the log only grows, by calls that create distinct
      directories not known to exist, and on success they are what is now known. */
  predicate CreatesOnce(created: set<seq<Component>>, s: DestState, p: Progress, added: seq<Call>)
  {
    var made := CreatedParents(added);
    && p.state.log == s.log + added
    && NoDup(made)
    && (forall i :: 0 <= i < |made| ==> made[i] !in created)
    && (p.outcome.Ok? ==> p.created == created + (set c | c in made))
  }

  /** At most one new directory, then distinct ones new after it: distinct
      new directories, and what is known afterwards counts them all. */
  lemma MadeJoin(created: set<seq<Component>>, m1: seq<seq<Component>>, m2: seq<seq<Component>>)
    requires |m1| <= 1 && (forall i :: 0 <= i < |m1| ==> m1[i] !in created)
    requires NoDup(m2) && (forall i :: 0 <= i < |m2| ==> m2[i] !in created + (set c | c in m1))
    ensures NoDup(m1 + m2)
    ensures forall i :: 0 <= i < |m1 + m2| ==> (m1 + m2)[i] !in created
    ensures created + (set c | c in m1) + (set c | c in m2) == created + (set c | c in m1 + m2)
  {
    NoDupConcat(m1, m2);
    ElementsConcat(m1, m2);
  }

  /** A step that creates at most one new directory followed by a run that
      keeps the promise is a run that keeps it. */
  lemma CreatesOnceJoin(created: set<seq<Component>>, s: DestState, p: Progress, a1: seq<Call>, q: Progress, a2: seq<Call>)
    requires StepAdds(created, s, p, a1) && p.outcome.Ok?
    requires CreatesOnce(p.created, p.state, q, a2)
    ensures CreatesOnce(created, s, q, a1 + a2)
  {
    CreatedParentsConcat(a1, a2);
    MadeJoin(created, CreatedParents(a1), CreatedParents(a2));
    assert q.state.log == (s.log + a1) + a2;
  }

  /** The directory loop creates each parent at most once and never one known
      to exist when it starts (the destination itself among them); what it
      knows to exist afterwards is what it knew and what it created. */
  lemma {:induction false} CopyEntriesCreatesOnce(src: Store, faults: Faults, from: string, dest: string, created: set<seq<Component>>, s: DestState, entries: seq<Entry>)
    returns (added: seq<Call>)
    ensures CreatesOnce(created, s, CopyEntries(src, faults, from, dest, created, s, entries), added)
    decreases |entries|
  {
    if entries == [] {
      added := [];
    } else {
      var p := CopyOne(src, faults, from, dest, created, s, entries[0]);
      var a1 := CopyOneCreates(src, faults, from, dest, created, s, entries[0]);
      if p.outcome.Err? {
        added := a1;
      } else {
        var q := CopyEntries(src, faults, from, dest, p.created, p.state, entries[1..]);
        assert CopyEntries(src, faults, from, dest, created, s, entries) == q;
        var a2 := CopyEntriesCreatesOnce(src, faults, from, dest, p.created, p.state, entries[1..]);
        CreatesOnceJoin(created, s, p, a1, q, a2);
        added := a1 + a2;
      }
    }
  }

  // ---------------------------------------------------------------------------
  // The loop's other invariants
  // ---------------------------------------------------------------------------

  lemma CopyOneKeepsDirs(src: Store, faults: Faults, from: string, dest: string, created: set<seq<Component>>, s: DestState, e: Entry, k: string)
    requires EndsWithSlash(k) && k in s.nodes && s.nodes[k] == Dir
    ensures var p := CopyOne(src, faults, from, dest, created, s, e);
      k in p.state.nodes && p.state.nodes[k] == Dir
  {
    if e.meta.mode != DIR && StripPrefix(e.path, from).Some? {
      var target := JoinPath(dest, StripPrefix(e.path, from).value);
      var p := EnsureParent(faults, created, s, ParentOf(target));
      if p.outcome.Ok? {
        TransferKeepsDirKeys(src, faults, p.state, e.path, e.meta, target, k);
      }
    }
  }

  /** An entry whose path does not lie under the source is an `Unexpected`
      error that touches nothing. */
  lemma CopyOneOutsideSource(src: Store, faults: Faults, from: string, dest: string, created: set<seq<Component>>, s: DestState, e: Entry)
    requires e.meta.mode != DIR && StripPrefix(e.path, from).None?
    ensures CopyOne(src, faults, from, dest, created, s, e) == Progress(Err(Unexpected), created, s)
  {
  }

  /** A file entry copied without error is stored at the destination joined
      with its path relative to the source, with the source's chunks and
      content type. */
  lemma CopyOneLands(src: Store, faults: Faults, from: string, dest: string, created: set<seq<Component>>, s: DestState, e: Entry)
    requires e.meta.mode != DIR
    requires CopyOne(src, faults, from, dest, created, s, e).outcome.Ok?
    ensures StripPrefix(e.path, from).Some?
    ensures var target := JoinPath(dest, StripPrefix(e.path, from).value);
      var s' := CopyOne(src, faults, from, dest, created, s, e).state;
      && StoreKey(e.path) in src.nodes && src.nodes[StoreKey(e.path)].File?
      && StoreKey(target) in s'.nodes
      && s'.nodes[StoreKey(target)] == File(src.nodes[StoreKey(e.path)].chunks, e.meta.contentType, None, None)
  {
    var target := JoinPath(dest, StripPrefix(e.path, from).value);
    var p := EnsureParent(faults, created, s, ParentOf(target));
    TransferOk(src, faults, p.state, e.path, e.meta, target);
  }

  /** A directory stays a directory: nothing the loop does replaces it. */
  lemma {:induction false} CopyEntriesKeepsDirs(src: Store, faults: Faults, from: string, dest: string, created: set<seq<Component>>, s: DestState, entries: seq<Entry>, k: string)
    requires EndsWithSlash(k) && k in s.nodes && s.nodes[k] == Dir
    ensures var p := CopyEntries(src, faults, from, dest, created, s, entries);
      k in p.state.nodes && p.state.nodes[k] == Dir
    decreases |entries|
  {
    if entries != [] {
      var p := CopyOne(src, faults, from, dest, created, s, entries[0]);
      CopyOneKeepsDirs(src, faults, from, dest, created, s, entries[0], k);
      if p.outcome.Ok? {
        CopyEntriesKeepsDirs(src, faults, from, dest, p.created, p.state, entries[1..], k);
      }
    }
  }

  /** The entries that are not directories, in order. */
  function NonDirs(entries: seq<Entry>): seq<Entry>
  {
    if entries == [] then []
    else if entries[0].meta.mode == DIR then NonDirs(entries[1..])
    else [entries[0]] + NonDirs(entries[1..])
  }

  /** Directory entries play no part: the loop over the listing is the loop over
      its files. */
  lemma {:induction false} CopyEntriesSkipsDirs(src: Store, faults: Faults, from: string, dest: string, created: set<seq<Component>>, s: DestState, entries: seq<Entry>)
    ensures CopyEntries(src, faults, from, dest, created, s, entries) == CopyEntries(src, faults, from, dest, created, s, NonDirs(entries))
    decreases |entries|
  {
    if entries != [] {
      var e := entries[0];
      if e.meta.mode == DIR {
        CopyEntriesSkipsDirs(src, faults, from, dest, created, s, entries[1..]);
      } else {
        var rest := NonDirs(entries[1..]);
        assert NonDirs(entries) == [e] + rest;
        assert ([e] + rest)[0] == e && ([e] + rest)[1..] == rest;
        var p := CopyOne(src, faults, from, dest, created, s, e);
        CopyEntriesSkipsDirs(src, faults, from, dest, p.created, p.state, entries[1..]);
      }
    }
  }

  /** The loop over two runs of entries is the loop over the first, then, if
      that succeeded, the loop over the second from where the first ended: the
      first error ends the copy. */
  lemma {:induction false} CopyEntriesConcat(src: Store, faults: Faults, from: string, dest: string, created: set<seq<Component>>, s: DestState, a: seq<Entry>, b: seq<Entry>)
    ensures var pa := CopyEntries(src, faults, from, dest, created, s, a);
      CopyEntries(src, faults, from, dest, created, s, a + b) ==
        if pa.outcome.Err? then pa else CopyEntries(src, faults, from, dest, pa.created, pa.state, b)
    decreases |a|
  {
    if a == [] {
      assert a + b == b;
    } else {
      assert (a + b)[0] == a[0];
      assert (a + b)[1..] == a[1..] + b;
      var p := CopyOne(src, faults, from, dest, created, s, a[0]);
      CopyEntriesConcat(src, faults, from, dest, p.created, p.state, a[1..], b);
    }
  }
}
