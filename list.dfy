/**
 * Listing a path: a plain listing with the caller's options, or, when the path
 * is a glob pattern, a recursive listing under the pattern's literal prefix
 * filtered to the entries whose path matches the pattern.
 */
module List {
  import opened Wrappers
  import opened Errors
  import opened Paths
  import opened Glob
  import opened Storage

  /** The glob library: whether a pattern compiles, and whether a compiled
      pattern matches a path. */
  datatype Globber = Globber(compiles: string -> bool, matches: (string, string) -> bool)

  /** The entries whose path the pattern matches, in their order (`try_filter`). */
  function Keep(g: Globber, pattern: string, entries: seq<Entry>): seq<Entry>
  {
    if entries == [] then []
    else if g.matches(pattern, entries[0].path) then [entries[0]] + Keep(g, pattern, entries[1..])
    else Keep(g, pattern, entries[1..])
  }

  /** `try_collect`: all entries, unless the listing ends with an error. */
  function Collect(l: Result<Listing>): (r: Result<seq<Entry>>)
    ensures l.Err? ==> r == Err(l.kind)
    ensures l.Ok? && l.value.end.Ok? ==> r == Ok(l.value.entries)
    ensures l.Ok? && l.value.end.Err? ==> r == Err(l.value.end.kind)
  {
    match l
    case Err(e) => Err(e)
    case Ok(listing) => if listing.end.Err? then Err(listing.end.kind) else Ok(listing.entries)
  }

  /** The options of a glob listing: the caller's, or the defaults, made recursive. */
  function GlobOptions(options: Option<ListOptions>): (o: ListOptions)
    ensures o.recursive
    ensures o == options.GetOr(DefaultListOptions).(recursive := true)
  {
    var o := options.GetOr(DefaultListOptions);
    o.(recursive := true)
  }

  /** `list_glob`: an invalid pattern is refused before anything is listed;
      otherwise the recursive listing under the prefix, filtered by the pattern. */
  function ListGlob(store: Store, g: Globber, prefix: string, pattern: string, options: Option<ListOptions>): Result<seq<Entry>>
  {
    if !g.compiles(pattern) then Err(Unexpected)
    else
      match store.Lister(prefix, GlobOptions(options))
      case Err(e) => Err(e)
      case Ok(l) => Collect(Ok(Listing(Keep(g, pattern, l.entries), l.end)))
  }

  /** `list`: a pattern goes to `list_glob` with its literal prefix; any other
      path is listed with the caller's options or the defaults. */
  function ListPath(store: Store, g: Globber, path: string, options: Option<ListOptions>): Result<seq<Entry>>
  {
    match LiteralPrefixOf(path)
    case Some(prefix) => ListGlob(store, g, prefix, path, options)
    case None => Collect(store.Lister(path, options.GetOr(DefaultListOptions)))
  }

  /** `lister`: the lazy counterpart of `list`, with the same routing; its
      entries are yielded in order and then its end. */
  function Lister(store: Store, g: Globber, path: string, options: Option<ListOptions>): Result<Listing>
  {
    match LiteralPrefixOf(path)
    case Some(prefix) =>
      if !g.compiles(path) then Err(Unexpected)
      else
        (match store.Lister(prefix, GlobOptions(options))
         case Err(e) => Err(e)
         case Ok(l) => Ok(Listing(Keep(g, path, l.entries), l.end)))
    case None => store.Lister(path, options.GetOr(DefaultListOptions))
  }

  // ---------------------------------------------------------------------------
  // Properties
  // ---------------------------------------------------------------------------

  /** An entry is kept exactly when it is listed and the pattern matches its path. */
  lemma {:induction false} KeepMembers(g: Globber, pattern: string, entries: seq<Entry>, e: Entry)
    ensures e in Keep(g, pattern, entries) <==> e in entries && g.matches(pattern, e.path)
    decreases |entries|
  {
    if entries != [] {
      KeepMembers(g, pattern, entries[1..], e);
      assert entries == [entries[0]] + entries[1..];
    }
  }

  /** Filtering a concatenation filters each part, keeping their order. */
  lemma {:induction false} KeepConcat(g: Globber, pattern: string, a: seq<Entry>, b: seq<Entry>)
    ensures Keep(g, pattern, a + b) == Keep(g, pattern, a) + Keep(g, pattern, b)
    decreases |a|
  {
    if a == [] {
      assert a + b == b;
    } else {
      assert (a + b)[0] == a[0];
      assert (a + b)[1..] == a[1..] + b;
      KeepConcat(g, pattern, a[1..], b);
    }
  }

  /** Nothing is dropped when every entry matches, and nothing is kept when none does. */
  lemma {:induction false} KeepAllOrNone(g: Globber, pattern: string, entries: seq<Entry>)
    ensures (forall i :: 0 <= i < |entries| ==> g.matches(pattern, entries[i].path)) ==> Keep(g, pattern, entries) == entries
    ensures (forall i :: 0 <= i < |entries| ==> !g.matches(pattern, entries[i].path)) ==> Keep(g, pattern, entries) == []
    decreases |entries|
  {
    if entries != [] {
      KeepAllOrNone(g, pattern, entries[1..]);
      assert forall i :: 1 <= i < |entries| ==> entries[1..][i - 1] == entries[i];
    }
  }

  /** Filtering keeps a subsequence: at most as many entries, each listed. */
  lemma {:induction false} KeepShrinks(g: Globber, pattern: string, entries: seq<Entry>)
    ensures |Keep(g, pattern, entries)| <= |entries|
    decreases |entries|
  {
    if entries != [] {
      KeepShrinks(g, pattern, entries[1..]);
    }
  }

  /** `list` collects what `lister` yields. */
  lemma ListIsCollectedLister(store: Store, g: Globber, path: string, options: Option<ListOptions>)
    ensures ListPath(store, g, path, options) == Collect(Lister(store, g, path, options))
  {
  }

  /** A pattern is listed by `list_glob` with the whole pattern and its literal prefix. */
  lemma ListRoutesPatterns(store: Store, g: Globber, path: string, options: Option<ListOptions>)
    requires HasGlobChars(path)
    ensures LiteralPrefixOf(path).Some?
    ensures ListPath(store, g, path, options) == ListGlob(store, g, LiteralPrefixOf(path).value, path, options)
  {
    LiteralPrefixNoneIff(path);
  }

  /** A path without glob metacharacters yields the backend's entries, unfiltered,
      listed with the caller's options or the defaults. */
  lemma ListPlain(store: Store, g: Globber, path: string, options: Option<ListOptions>)
    requires !HasGlobChars(path)
    ensures ListPath(store, g, path, options) == Collect(store.Lister(path, options.GetOr(DefaultListOptions)))
  {
    LiteralPrefixNoneIff(path);
  }

  /** An invalid pattern fails with `Unexpected` whatever the store holds: no
      listing is consulted. */
  lemma ListGlobInvalid(store: Store, g: Globber, prefix: string, pattern: string, options: Option<ListOptions>)
    requires !g.compiles(pattern)
    ensures ListGlob(store, g, prefix, pattern, options) == Err(Unexpected)
  {
  }

  /** A valid pattern's result is the recursive listing under the prefix,
      filtered by the pattern; listing errors are passed on. */
  lemma ListGlobResult(store: Store, g: Globber, prefix: string, pattern: string, options: Option<ListOptions>)
    requires g.compiles(pattern)
    ensures var l := store.Lister(prefix, options.GetOr(DefaultListOptions).(recursive := true));
      ListGlob(store, g, prefix, pattern, options) ==
        if l.Err? then Err(l.kind)
        else if l.value.end.Err? then Err(l.value.end.kind)
        else Ok(Keep(g, pattern, l.value.entries))
  {
  }

  /** The recursion flag of a glob listing does not depend on the caller. */
  lemma GlobListingIgnoresRecursion(store: Store, g: Globber, prefix: string, pattern: string, o: ListOptions)
    ensures ListGlob(store, g, prefix, pattern, Some(o)) == ListGlob(store, g, prefix, pattern, Some(o.(recursive := true)))
    ensures ListGlob(store, g, prefix, pattern, None) == ListGlob(store, g, prefix, pattern, Some(DefaultListOptions.(recursive := true)))
  {
  }

  /** The plain scenarios of the listing tests: a glob-free path, listed with
      the caller's options or the defaults, yields exactly what the backend's
      listing under its key yields, in order. */
  lemma PlainScenario(store: Store, g: Globber, path: string, options: Option<ListOptions>, es: seq<Entry>)
    requires !HasGlobChars(path)
    requires ListOp(StoreKey(path)) !in store.faults
    requires store.lister(StoreKey(path), options.GetOr(DefaultListOptions)) == Listing(es, Ok(()))
    ensures ListPath(store, g, path, options) == Ok(es)
  {
    ListPlain(store, g, path, options);
  }

  /** The literal prefix of `a/gp/f`, with `gp` the only piece holding a glob
      metacharacter, is `a`. */
  lemma PrefixOfThreePieces(a: string, gp: string, f: string)
    requires '/' !in a && '/' !in gp && '/' !in f
    requires !HasGlobChars(a) && HasGlobChars(gp)
    ensures LiteralPrefixOf(a + "/" + gp + "/" + f) == Some(a)
  {
    assert [a, gp, f] == [a] + [gp] + [f];
    LiteralPrefixOfJoin([a], gp, [f]);
    assert Join([a, gp, f]) == a + "/" + gp + "/" + f by {
      assert Join([f]) == f;
      assert [a, gp, f][1..] == [gp, f];
      assert [gp, f][1..] == [f];
    }
    assert Join([a]) == a;
  }

  /** The glob scenario of the listing tests (there `a` is `path`, `gp` is `**`
      and `f` is `file.txt`): the pattern `a/gp/f` lists `a` recursively and
      keeps, in order, the entries the pattern matches. */
  lemma GlobScenario(store: Store, g: Globber, a: string, gp: string, f: string, e1: Entry, e2: Entry)
    requires IsName(a) && '/' !in gp && '/' !in f
    requires !HasGlobChars(a) && HasGlobChars(gp)
    requires ListOp(a) !in store.faults
    requires store.lister(a, DefaultListOptions.(recursive := true)) == Listing([e1, e2], Ok(()))
    requires g.compiles(a + "/" + gp + "/" + f)
    requires g.matches(a + "/" + gp + "/" + f, e1.path) && g.matches(a + "/" + gp + "/" + f, e2.path)
    ensures ListPath(store, g, a + "/" + gp + "/" + f, None) == Ok([e1, e2])
  {
    var pattern := a + "/" + gp + "/" + f;
    PrefixOfThreePieces(a, gp, f);
    StoreKeyOfName(a);
    assert store.Lister(a, GlobOptions(None)) == Ok(Listing([e1, e2], Ok(())));
    assert Keep(g, pattern, [e1, e2]) == [e1, e2] by {
      assert [e1, e2][1..] == [e2];
      assert Keep(g, pattern, [e2]) == [e2] + Keep(g, pattern, []);
    }
  }
}
