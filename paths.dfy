/**
 * A lexical model of Unix paths as the copier uses them: splitting on `/`,
 * the component view (root, `.`, `..`, names), joining, parent, file name,
 * prefix stripping, and the copier's `normalize_path`.
 */
module Paths {
  import opened Wrappers

  predicate StartsWithSlash(s: string) { |s| > 0 && s[0] == '/' }

  predicate EndsWithSlash(s: string) { |s| > 0 && s[|s| - 1] == '/' }

  /** A proper path segment: non-empty, not `.` or `..`, without a separator. */
  predicate IsName(s: string) { s != "" && s != "." && s != ".." && '/' !in s }

  // ---------------------------------------------------------------------------
  // Splitting on '/' and joining with '/'
  // ---------------------------------------------------------------------------

  /** The `/`-separated pieces of `s`, empty pieces included (Rust's `str::split('/')`). */
  function Split(s: string): (parts: seq<string>)
    ensures |parts| >= 1
  {
    if |s| == 0 then [""]
    else
      var rest := Split(s[1..]);
      if s[0] == '/' then [""] + rest
      else [[s[0]] + rest[0]] + rest[1..]
  }

  /** No piece of a split contains a separator. */
  lemma {:induction false} SplitPieces(s: string)
    ensures forall i :: 0 <= i < |Split(s)| ==> '/' !in Split(s)[i]
  {
    if |s| > 0 {
      SplitPieces(s[1..]);
      var rest := Split(s[1..]);
      if s[0] != '/' {
        assert '/' !in [s[0]] + rest[0];
      }
    }
  }

  /** The pieces glued with `/` between consecutive ones (Rust's `join("/")`). */
  function Join(parts: seq<string>): string
  {
    if |parts| == 0 then ""
    else if |parts| == 1 then parts[0]
    else parts[0] + "/" + Join(parts[1..])
  }

  /** Joining the pieces of a split gives back the string. */
  lemma {:induction false} JoinSplit(s: string)
    ensures Join(Split(s)) == s
  {
    if |s| > 0 {
      JoinSplit(s[1..]);
      var rest := Split(s[1..]);
      if s[0] == '/' {
        assert Split(s) == [""] + rest;
        assert Join(Split(s)) == "" + "/" + Join(rest);
      } else if |rest| == 1 {
        assert Join(Split(s)) == [s[0]] + rest[0];
      } else {
        assert Split(s)[1..] == rest[1..];
        assert Join(rest) == rest[0] + "/" + Join(rest[1..]);
      }
    }
  }

  /** A string without a separator is a single piece. */
  lemma {:induction false} SplitNoSlash(s: string)
    requires '/' !in s
    ensures Split(s) == [s]
  {
    if |s| > 0 {
      assert '/' !in s[1..] by {
        forall i | 0 <= i < |s[1..]| ensures s[1..][i] != '/' { assert s[1..][i] == s[i + 1]; }
      }
      SplitNoSlash(s[1..]);
      assert [s[0]] + s[1..] == s;
    }
  }

  /** A separator between `a` and `b` splits into the pieces of `a` followed by those of `b`. */
  lemma {:induction false} SplitConcat(a: string, b: string)
    ensures Split(a + "/" + b) == Split(a) + Split(b)
  {
    var s := a + "/" + b;
    if |a| == 0 {
      assert s == [('/' as char)] + b;
      SplitCons('/', b);
    } else {
      var t := a[1..] + "/" + b;
      assert s == [a[0]] + t;
      assert a == [a[0]] + a[1..];
      SplitConcat(a[1..], b);
      SplitCons(a[0], t);
      SplitCons(a[0], a[1..]);
      ConsPieces(a[0], Split(a[1..]), Split(b));
    }
  }

  /** Splitting a string by its first character. */
  lemma SplitCons(c: char, t: string)
    ensures Split([c] + t) == if c == '/' then [""] + Split(t) else [[c] + Split(t)[0]] + Split(t)[1..]
  {
    assert ([c] + t)[1..] == t;
  }

  /** Gluing a character onto the first piece commutes with appending pieces. */
  lemma ConsPieces(c: char, ra: seq<string>, rb: seq<string>)
    requires |ra| >= 1
    ensures var rs := ra + rb;
      && (c == '/' ==> [""] + rs == ([""] + ra) + rb)
      && (c != '/' ==> [[c] + rs[0]] + rs[1..] == ([[c] + ra[0]] + ra[1..]) + rb)
  {
    var rs := ra + rb;
    assert rs[0] == ra[0];
    assert rs[1..] == ra[1..] + rb;
  }

  /** Splitting a join of separator-free pieces gives back the pieces. */
  lemma {:induction false} SplitJoin(parts: seq<string>)
    requires |parts| >= 1
    requires forall i :: 0 <= i < |parts| ==> '/' !in parts[i]
    ensures Split(Join(parts)) == parts
  {
    if |parts| == 1 {
      SplitNoSlash(parts[0]);
    } else {
      SplitJoin(parts[1..]);
      SplitNoSlash(parts[0]);
      SplitConcat(parts[0], Join(parts[1..]));
    }
  }

  /** A join of non-empty pieces begins with the first piece's first character
      and ends with the last piece's last character. */
  lemma {:induction false} JoinEnds(parts: seq<string>)
    requires |parts| >= 1
    requires forall i :: 0 <= i < |parts| ==> parts[i] != ""
    ensures |Join(parts)| > 0
    ensures Join(parts)[0] == parts[0][0]
    ensures Join(parts)[|Join(parts)| - 1] == parts[|parts| - 1][|parts[|parts| - 1]| - 1]
  {
    if |parts| > 1 {
      var rest := parts[1..];
      JoinEnds(rest);
      var j := Join(rest);
      var x := parts[0] + "/" + j;
      assert Join(parts) == x;
      assert x[0] == parts[0][0];
      assert x[|x| - 1] == j[|j| - 1];
      assert rest[|rest| - 1] == parts[|parts| - 1];
    }
  }

  // ---------------------------------------------------------------------------
  // Components
  // ---------------------------------------------------------------------------

  /** One component of a Unix path, as a path library's component iterator yields it. */
  datatype Component = RootDir | CurDir | ParentDir | Normal(name: string)

  /** The components of separator-free pieces: empty pieces and `.` vanish. */
  function Segments(parts: seq<string>): (cs: seq<Component>)
  {
    if parts == [] then []
    else
      var rest := Segments(parts[1..]);
      if parts[0] == "" || parts[0] == "." then rest
      else if parts[0] == ".." then [ParentDir] + rest
      else [Normal(parts[0])] + rest
  }

  /** Segments are `..` or proper names. */
  lemma {:induction false} SegmentsShape(parts: seq<string>)
    requires forall i :: 0 <= i < |parts| ==> '/' !in parts[i]
    ensures forall i :: 0 <= i < |Segments(parts)| ==>
      Segments(parts)[i] == ParentDir || (Segments(parts)[i].Normal? && IsName(Segments(parts)[i].name))
  {
    if parts != [] {
      SegmentsShape(parts[1..]);
    }
  }

  lemma {:induction false} SegmentsConcat(a: seq<string>, b: seq<string>)
    ensures Segments(a + b) == Segments(a) + Segments(b)
  {
    if a != [] {
      assert (a + b)[1..] == a[1..] + b;
      SegmentsConcat(a[1..], b);
    } else {
      assert a + b == b;
    }
  }

  /** The components of a path: a leading root, a leading `.`, then `..` and names;
      repeated separators, inner `.` and a trailing separator leave no trace. */
  function Comps(p: string): seq<Component>
  {
    PieceComps(StartsWithSlash(p), Split(p))
  }

  /** The components of the pieces of a path, absolute or not. */
  function PieceComps(absolute: bool, parts: seq<string>): seq<Component>
    requires |parts| >= 1
  {
    if absolute then [RootDir] + Segments(parts)
    else if parts[0] == "." then [CurDir] + Segments(parts[1..])
    else Segments(parts)
  }

  function ComponentName(c: Component): string
  {
    match c
    case RootDir => ""
    case CurDir => "."
    case ParentDir => ".."
    case Normal(n) => n
  }

  function Names(cs: seq<Component>): (ns: seq<string>)
    ensures |ns| == |cs|
    ensures forall i :: 0 <= i < |cs| ==> ns[i] == ComponentName(cs[i])
  {
    if cs == [] then [] else [ComponentName(cs[0])] + Names(cs[1..])
  }

  /** The path string of a component sequence. */
  function Render(cs: seq<Component>): string
  {
    if |cs| > 0 && cs[0] == RootDir then "/" + Join(Names(cs[1..])) else Join(Names(cs))
  }

  /** The last component's name, when the last component is a name (`file_name`). */
  function FileName(p: string): Option<string>
  {
    var cs := Comps(p);
    if |cs| > 0 && cs[|cs| - 1].Normal? then Some(cs[|cs| - 1].name) else None
  }

  /** The path without its last component; none for the empty path and the root (`parent`). */
  function ParentOf(p: string): Option<string>
  {
    var cs := Comps(p);
    if |cs| > 0 && cs[|cs| - 1] != RootDir then Some(Render(cs[..|cs| - 1])) else None
  }

  /** `base` extended by `rel` (`join`): an absolute `rel` replaces `base`, and a
      separator is inserted unless `base` is empty or already ends with one. */
  function JoinPath(base: string, rel: string): string
  {
    if StartsWithSlash(rel) then rel
    else if base == "" then rel
    else if EndsWithSlash(base) then base + rel
    else base + "/" + rel
  }

  /** The rest of `p` after the components of `base`, when they are a prefix of
      its components (`strip_prefix`). */
  function StripPrefix(p: string, base: string): Option<string>
  {
    var cp := Comps(p);
    var cb := Comps(base);
    if cb <= cp then Some(Render(cp[|cb|..])) else None
  }

  /** Appending a separator to a non-empty path does not change its components. */
  lemma CompsTrailingSlash(p: string)
    requires p != ""
    ensures Comps(p + "/") == Comps(p)
  {
    assert p + "/" == p + "/" + "";
    SplitConcat(p, "");
    var parts := Split(p);
    assert Split(p + "/") == parts + [""];
    SegmentsConcat(parts, [""]);
    assert StartsWithSlash(p + "/") == StartsWithSlash(p);
    if !StartsWithSlash(p) && parts[0] == "." {
      assert (parts + [""])[1..] == parts[1..] + [""];
      SegmentsConcat(parts[1..], [""]);
    }
  }

  /** A name appended to any path is that path's file name. */
  lemma FileNameOfJoin(base: string, n: string)
    requires IsName(n)
    ensures FileName(JoinPath(base, n)) == Some(n)
  {
    SplitNoSlash(n);
    var p := JoinPath(base, n);
    if base == "" {
      assert n[0] in n;
      assert Comps(p) == [Normal(n)] + Segments([]);
    } else {
      var a := if EndsWithSlash(base) then base[..|base| - 1] else base;
      assert p == a + "/" + n by {
        if EndsWithSlash(base) { assert base == a + "/"; }
      }
      SplitConcat(a, n);
      var pa := Split(a);
      assert Split(p) == pa + [n];
      SegmentsConcat(pa, [n]);
      if !StartsWithSlash(p) && (pa + [n])[0] == "." {
        assert (pa + [n])[1..] == pa[1..] + [n];
        SegmentsConcat(pa[1..], [n]);
      }
    }
  }

  // ---------------------------------------------------------------------------
  // Lexical normalisation
  // ---------------------------------------------------------------------------

  /** Resolves `.` and `..` against a stack of already resolved components: `.` is
      dropped, `..` removes a preceding name and is dropped at the root or at the
      start (clamping), everything else is pushed. */
  function ResolveFrom(stack: seq<Component>, cs: seq<Component>): seq<Component>
    decreases |cs|
  {
    if cs == [] then stack
    else if cs[0] == CurDir then ResolveFrom(stack, cs[1..])
    else if cs[0] == ParentDir then
      if |stack| > 0 && stack[|stack| - 1].Normal? then ResolveFrom(stack[..|stack| - 1], cs[1..])
      else ResolveFrom(stack, cs[1..])
    else ResolveFrom(stack + [cs[0]], cs[1..])
  }

  function Resolve(cs: seq<Component>): seq<Component> { ResolveFrom([], cs) }

  /** Only a leading root and proper names. */
  predicate Resolved(cs: seq<Component>)
  {
    forall i :: 0 <= i < |cs| ==> (cs[i] == RootDir && i == 0) || (cs[i].Normal? && IsName(cs[i].name))
  }

  lemma {:induction false} ResolveFromResolved(stack: seq<Component>, cs: seq<Component>)
    requires Resolved(stack)
    requires forall i :: 0 <= i < |cs| ==> cs[i] == RootDir ==> i == 0 && stack == []
    requires forall i :: 0 <= i < |cs| ==> cs[i].Normal? ==> IsName(cs[i].name)
    ensures Resolved(ResolveFrom(stack, cs))
    decreases |cs|
  {
    if cs != [] {
      if cs[0] == CurDir {
        ResolveFromResolved(stack, cs[1..]);
      } else if cs[0] == ParentDir {
        if |stack| > 0 && stack[|stack| - 1].Normal? {
          ResolveFromResolved(stack[..|stack| - 1], cs[1..]);
        } else {
          ResolveFromResolved(stack, cs[1..]);
        }
      } else {
        ResolveFromResolved(stack + [cs[0]], cs[1..]);
      }
    }
  }

  /** Resolving proper names only pushes them. */
  lemma {:induction false} ResolveFromNames(stack: seq<Component>, cs: seq<Component>)
    requires forall i :: 0 <= i < |cs| ==> cs[i].Normal? && IsName(cs[i].name)
    ensures ResolveFrom(stack, cs) == stack + cs
    decreases |cs|
  {
    if cs != [] {
      ResolveFromNames(stack + [cs[0]], cs[1..]);
      assert stack + [cs[0]] + cs[1..] == stack + cs;
    }
  }

  lemma CompsShape(p: string)
    ensures forall i :: 0 <= i < |Comps(p)| ==> Comps(p)[i] == RootDir ==> i == 0
    ensures forall i :: 0 <= i < |Comps(p)| ==> Comps(p)[i].Normal? ==> IsName(Comps(p)[i].name)
  {
    var parts := Split(p);
    SplitPieces(p);
    SegmentsShape(parts);
    SegmentsShape(parts[1..]);
  }

  /** `trim_start_matches("/")`: the longest suffix that does not start with `/`. */
  function TrimLeadingSlashes(s: string): (r: string)
    ensures !StartsWithSlash(r)
    ensures |r| <= |s| && s[|s| - |r|..] == r
    ensures forall i :: 0 <= i < |s| - |r| ==> s[i] == '/'
  {
    if StartsWithSlash(s) then TrimLeadingSlashes(s[1..]) else s
  }

  /** The names of a resolved component sequence, the root left out. */
  function NamePart(cs: seq<Component>): seq<string>
  {
    if |cs| > 0 && cs[0] == RootDir then Names(cs[1..]) else Names(cs)
  }

  /** The separator-free string a path normalises to, before its directory marker. */
  function NormalCore(path: string): string
  {
    TrimLeadingSlashes(Render(Resolve(Comps(path))))
  }

  /** `normalize_path`: lexical normalisation with every leading separator removed,
      and a trailing separator exactly when the input has one. */
  function Normalized(path: string): string
  {
    var core := NormalCore(path);
    if EndsWithSlash(path) then core + "/" else core
  }

  /** The normalised core is the join of proper names. */
  lemma NormalCoreNames(path: string)
    ensures var ns := NamePart(Resolve(Comps(path)));
      && (forall i :: 0 <= i < |ns| ==> IsName(ns[i]))
      && NormalCore(path) == Join(ns)
  {
    CompsShape(path);
    ResolveFromResolved([], Comps(path));
    var cs := Resolve(Comps(path));
    var ns := NamePart(cs);
    NamePartNames(cs);
    var j := Join(ns);
    assert !StartsWithSlash(j) by {
      if |ns| > 0 { JoinEnds(ns); }
    }
    if |cs| > 0 && cs[0] == RootDir {
      assert Render(cs) == "/" + j;
      assert TrimLeadingSlashes("/" + j) == TrimLeadingSlashes(j);
    }
  }

  /** The names of a resolved sequence are proper names. */
  lemma NamePartNames(cs: seq<Component>)
    requires Resolved(cs)
    ensures forall i :: 0 <= i < |NamePart(cs)| ==> IsName(NamePart(cs)[i])
  {
    var ns := NamePart(cs);
    if |cs| > 0 && cs[0] == RootDir {
      forall i | 0 <= i < |ns| ensures IsName(ns[i]) { assert cs[1..][i] == cs[i + 1]; }
    }
  }

  /** The shape of a normalised path: it is its proper names joined by `/`, with
      a final `/` exactly when the input ends with one. */
  lemma NormalizedNames(path: string)
    ensures var ns := NamePart(Resolve(Comps(path)));
      Normalized(path) == Join(ns) + (if EndsWithSlash(path) then "/" else "")
  {
    NormalCoreNames(path);
  }

  /** The name components of proper names. */
  function AsNormals(ns: seq<string>): (cs: seq<Component>)
    ensures |cs| == |ns|
    ensures forall i :: 0 <= i < |ns| ==> cs[i] == Normal(ns[i])
  {
    seq(|ns|, i requires 0 <= i < |ns| => Normal(ns[i]))
  }

  /** A join of proper names, with or without a final separator, has exactly those names as components. */
  lemma {:induction false} CompsOfNames(ns: seq<string>, dir: bool)
    requires |ns| > 0
    requires forall i :: 0 <= i < |ns| ==> IsName(ns[i])
    ensures Comps(Join(ns) + (if dir then "/" else "")) == AsNormals(ns)
  {
    var p := Join(ns) + (if dir then "/" else "");
    var parts := if dir then ns + [""] else ns;
    SplitJoin(ns);
    assert Split(Join(ns)) == ns;
    if dir {
      assert p == Join(ns) + "/" + "";
      SplitConcat(Join(ns), "");
      assert Split("") == [""];
      assert Split(p) == ns + [""];
    } else {
      assert p == Join(ns);
    }
    assert Split(p) == parts;
    assert !StartsWithSlash(p) by {
      JoinEnds(ns);
      assert ns[0][0] in ns[0];
    }
    assert parts[0] == ns[0];
    CompsPlain(p);
    assert Segments(parts) == AsNormals(ns) by {
      NamesSegments(ns);
      if dir {
        SegmentsConcat(ns, [""]);
      }
    }
  }

  lemma CompsPlain(p: string)
    requires !StartsWithSlash(p) && Split(p)[0] != "."
    ensures Comps(p) == Segments(Split(p))
  {
  }

  /** Normalising a join of proper names, with or without a final separator, gives it back. */
  lemma {:induction false} NormalizedOfNames(ns: seq<string>, dir: bool)
    requires forall i :: 0 <= i < |ns| ==> IsName(ns[i])
    ensures var p := Join(ns) + (if dir then "/" else "");
      Normalized(p) == p
  {
    var p := Join(ns) + (if dir then "/" else "");
    if |ns| == 0 {
      if dir { NormalizedRoot(); } else { NormalizedEmpty(); }
    } else {
      NormalCoreOfNames(ns, dir);
      JoinOfNamesBare(ns);
    }
  }

  /** A non-empty join of proper names neither starts nor ends with a separator. */
  lemma JoinOfNamesBare(ns: seq<string>)
    requires |ns| > 0
    requires forall i :: 0 <= i < |ns| ==> IsName(ns[i])
    ensures !StartsWithSlash(Join(ns)) && !EndsWithSlash(Join(ns))
  {
    JoinEnds(ns);
    assert ns[0][0] in ns[0];
    assert ns[|ns| - 1][|ns[|ns| - 1]| - 1] in ns[|ns| - 1];
  }

  lemma NormalCoreOfNames(ns: seq<string>, dir: bool)
    requires |ns| > 0
    requires forall i :: 0 <= i < |ns| ==> IsName(ns[i])
    ensures NormalCore(Join(ns) + (if dir then "/" else "")) == Join(ns)
  {
    CompsOfNames(ns, dir);
    RenderOfNormals(ns);
    JoinOfNamesBare(ns);
  }

  lemma RenderOfNormals(ns: seq<string>)
    requires |ns| > 0
    requires forall i :: 0 <= i < |ns| ==> IsName(ns[i])
    ensures Render(Resolve(AsNormals(ns))) == Join(ns)
  {
    var cs := AsNormals(ns);
    ResolveOfNormals(ns);
    NamesOfNormals(ns);
    assert cs[0] != RootDir;
  }

  lemma ResolveOfNormals(ns: seq<string>)
    requires forall i :: 0 <= i < |ns| ==> IsName(ns[i])
    ensures Resolve(AsNormals(ns)) == AsNormals(ns)
  {
    var cs := AsNormals(ns);
    assert forall i :: 0 <= i < |cs| ==> cs[i].Normal? && IsName(cs[i].name);
    ResolveFromNames([], cs);
    assert [] + cs == cs;
  }

  lemma NamesOfNormals(ns: seq<string>)
    ensures Names(AsNormals(ns)) == ns
  {
    var cs := AsNormals(ns);
    assert forall i :: 0 <= i < |ns| ==> Names(cs)[i] == ComponentName(cs[i]) == ns[i];
  }

  lemma NormalizedRoot()
    ensures Normalized("/") == "/"
  {
    assert Split("/") == [""] + Split("");
    assert Comps("/") == [RootDir];
    assert Resolve([RootDir]) == ResolveFrom([RootDir], []);
    assert Render([RootDir]) == "/";
  }

  lemma NormalizedEmpty()
    ensures Normalized("") == ""
  {
    assert Comps("") == [];
  }

  lemma {:induction false} NamesSegments(ns: seq<string>)
    requires forall i :: 0 <= i < |ns| ==> IsName(ns[i])
    ensures Segments(ns) == AsNormals(ns)
  {
    if ns != [] {
      NamesSegments(ns[1..]);
    }
  }

  /** Normalisation is idempotent. */
  lemma NormalizedIdempotent(path: string)
    ensures Normalized(Normalized(path)) == Normalized(path)
  {
    NormalizedNames(path);
    NormalCoreNames(path);
    NormalizedOfNames(NamePart(Resolve(Comps(path))), EndsWithSlash(path));
  }

  /** A normalised path starts with `/` only when it is `/` itself (every leading
      separator is removed), and ends with `/` exactly when the input does. */
  lemma NormalizedEnds(path: string)
    ensures StartsWithSlash(Normalized(path)) ==> Normalized(path) == "/"
    ensures EndsWithSlash(Normalized(path)) <==> EndsWithSlash(path)
  {
    NormalizedNames(path);
    NormalCoreNames(path);
    var ns := NamePart(Resolve(Comps(path)));
    var j := Join(ns);
    if |ns| > 0 {
      JoinOfNamesBare(ns);
      if EndsWithSlash(path) {
        assert (j + "/")[0] == j[0];
      }
    } else {
      assert j == "";
    }
  }

  /** No piece of a normalised path is `.` or `..`, and apart from the last piece
      none is empty: there is no leading separator (unless the path is `/`) and
      no repeated separator. */
  lemma NormalizedPieces(path: string)
    ensures var parts := Split(Normalized(path));
      && (forall k :: 0 <= k < |parts| ==> parts[k] != "." && parts[k] != "..")
      && (Normalized(path) != "/" ==> forall k :: 0 <= k < |parts| - 1 ==> parts[k] != "")
  {
    NormalizedNames(path);
    NormalCoreNames(path);
    var ns := NamePart(Resolve(Comps(path)));
    JoinedNamesPieces(Normalized(path), ns, EndsWithSlash(path));
  }

  lemma JoinedNamesPieces(r: string, ns: seq<string>, dir: bool)
    requires forall i :: 0 <= i < |ns| ==> IsName(ns[i])
    requires r == Join(ns) + (if dir then "/" else "")
    ensures var parts := Split(r);
      && (forall k :: 0 <= k < |parts| ==> parts[k] != "." && parts[k] != "..")
      && (r != "/" ==> forall k :: 0 <= k < |parts| - 1 ==> parts[k] != "")
  {
    if |ns| == 0 {
      if dir {
        SplitRoot();
      } else {
        assert r == "";
      }
    } else {
      PiecesOfNames(ns, dir);
      var parts := ns + (if dir then [""] else []);
      assert forall k :: 0 <= k < |ns| ==> parts[k] == ns[k];
    }
  }

  lemma SplitRoot()
    ensures Split("/") == ["", ""]
  {
    assert Split("/") == [""] + Split("");
  }

  /** The pieces of a join of names, with or without a final separator. */
  lemma PiecesOfNames(ns: seq<string>, dir: bool)
    requires |ns| > 0
    requires forall i :: 0 <= i < |ns| ==> IsName(ns[i])
    ensures Split(Join(ns) + (if dir then "/" else "")) == ns + (if dir then [""] else [])
  {
    SplitJoin(ns);
    if dir {
      assert Join(ns) + "/" == Join(ns) + "/" + "";
      SplitConcat(Join(ns), "");
    } else {
      assert Join(ns) + "" == Join(ns);
    }
  }

  // ---------------------------------------------------------------------------
  // The rewriting laws of normalisation
  // ---------------------------------------------------------------------------

  /** Paths with the same components and the same directory marker normalise alike. */
  lemma SameNormalization(p: string, q: string)
    requires Comps(p) == Comps(q)
    requires EndsWithSlash(p) == EndsWithSlash(q)
    ensures Normalized(p) == Normalized(q)
  {
  }

  /** What follows a separator behind a non-empty path only adds segments. */
  lemma CompsConcat(a: string, rest: string)
    requires a != ""
    ensures Comps(a + "/" + rest) == Comps(a) + Segments(Split(rest))
  {
    var s := a + "/" + rest;
    SplitConcat(a, rest);
    assert s[0] == a[0];
    CompsOfSplit(s, a, Split(a), Split(rest));
  }

  /** `Comps` of a string whose pieces are those of `a` followed by `pr`, and which
      starts like `a`. */
  lemma CompsOfSplit(s: string, a: string, pa: seq<string>, pr: seq<string>)
    requires Split(s) == pa + pr && Split(a) == pa
    requires StartsWithSlash(s) == StartsWithSlash(a)
    ensures Comps(s) == Comps(a) + Segments(pr)
  {
    PieceCompsConcat(StartsWithSlash(a), pa, pr);
  }

  lemma PieceCompsConcat(absolute: bool, pa: seq<string>, pr: seq<string>)
    requires |pa| >= 1
    ensures PieceComps(absolute, pa + pr) == PieceComps(absolute, pa) + Segments(pr)
  {
    var ps := pa + pr;
    assert ps[0] == pa[0];
    if absolute || pa[0] != "." {
      SegmentsConcat(pa, pr);
    } else {
      assert ps[1..] == pa[1..] + pr;
      SegmentsConcat(pa[1..], pr);
    }
  }

  lemma {:induction false} ResolveFromConcat(stack: seq<Component>, xs: seq<Component>, ys: seq<Component>)
    ensures ResolveFrom(stack, xs + ys) == ResolveFrom(ResolveFrom(stack, xs), ys)
    decreases |xs|
  {
    if xs != [] {
      assert (xs + ys)[1..] == xs[1..] + ys;
      if xs[0] == CurDir {
        ResolveFromConcat(stack, xs[1..], ys);
      } else if xs[0] == ParentDir {
        if |stack| > 0 && stack[|stack| - 1].Normal? {
          ResolveFromConcat(stack[..|stack| - 1], xs[1..], ys);
        } else {
          ResolveFromConcat(stack, xs[1..], ys);
        }
      } else {
        ResolveFromConcat(stack + [xs[0]], xs[1..], ys);
      }
    } else {
      assert xs + ys == ys;
    }
  }

  lemma EndsWithSlashConcat(a: string, b: string)
    ensures EndsWithSlash(a + b) == if b == "" then EndsWithSlash(a) else EndsWithSlash(b)
  {
    if b == "" { assert a + b == a; }
  }

  /** A `.` segment is dropped: `a/./b` normalises as `a/b`. */
  lemma NormalizeDropsDot(a: string, b: string)
    requires a != ""
    ensures Normalized(a + "/./" + b) == Normalized(a + "/" + b)
  {
    assert a + "/./" + b == a + "/" + ("." + "/" + b);
    CompsConcat(a, "." + "/" + b);
    CompsConcat(a, b);
    SplitConcat(".", b);
    SplitNoSlash(".");
    SegmentsConcat(["."], Split(b));
    EndsWithSlashConcat(a + "/./", b);
    EndsWithSlashConcat(a + "/", b);
    SameNormalization(a + "/./" + b, a + "/" + b);
  }

  /** A repeated separator collapses: `a//b` normalises as `a/b`. */
  lemma NormalizeCollapsesSlashes(a: string, b: string)
    requires a != ""
    ensures Normalized(a + "//" + b) == Normalized(a + "/" + b)
  {
    assert a + "//" + b == a + "/" + ("" + "/" + b);
    CompsConcat(a, "" + "/" + b);
    CompsConcat(a, b);
    SplitConcat("", b);
    SegmentsConcat([""], Split(b));
    EndsWithSlashConcat(a + "//", b);
    EndsWithSlashConcat(a + "/", b);
    SameNormalization(a + "//" + b, a + "/" + b);
  }

  /** Paths whose components resolve alike and that agree on the directory
      marker normalise alike. */
  lemma SameResolution(p: string, q: string)
    requires Resolve(Comps(p)) == Resolve(Comps(q))
    requires EndsWithSlash(p) == EndsWithSlash(q)
    ensures Normalized(p) == Normalized(q)
  {
  }

  lemma SplitNameParent(n: string, b: string)
    requires IsName(n)
    ensures Split(n + "/../" + b) == [n, ".."] + Split(b)
  {
    var rest := ".." + "/" + b;
    assert n + "/../" + b == n + "/" + rest;
    SplitConcat(n, rest);
    SplitNoSlash(n);
    SplitParentFirst(b);
  }

  lemma SplitParentFirst(b: string)
    ensures Split(".." + "/" + b) == [".."] + Split(b)
  {
    SplitConcat("..", b);
    SplitNoSlash("..");
  }

  /** A name followed by `..` resolves to nothing, whatever comes before and after. */
  lemma ResolveCancel(ca: seq<Component>, n: string, sb: seq<Component>)
    ensures Resolve(ca + [Normal(n), ParentDir] + sb) == Resolve(ca + sb)
  {
    ResolveFromConcat([], ca + [Normal(n), ParentDir], sb);
    ResolveFromConcat([], ca, [Normal(n), ParentDir]);
    ResolveFromConcat([], ca, sb);
    var r := ResolveFrom([], ca);
    assert ResolveFrom(r, [Normal(n), ParentDir]) == r by {
      assert ResolveFrom(r, [Normal(n), ParentDir]) == ResolveFrom(r + [Normal(n)], [ParentDir]);
      assert (r + [Normal(n)])[..|r|] == r;
      assert ResolveFrom(r + [Normal(n)], [ParentDir]) == ResolveFrom(r, []);
    }
  }

  /** A `..` segment cancels the name before it: `a/n/../b` normalises as `a/b`. */
  lemma NormalizeResolvesParent(a: string, n: string, b: string)
    requires a != "" && IsName(n)
    ensures Normalized(a + "/" + n + "/../" + b) == Normalized(a + "/" + b)
  {
    var p := a + "/" + n + "/../" + b;
    var rest := n + "/../" + b;
    assert p == a + "/" + rest;
    CompsConcat(a, rest);
    CompsConcat(a, b);
    SplitNameParent(n, b);
    SegmentsConcat([n, ".."], Split(b));
    assert Segments([n, ".."]) == [Normal(n), ParentDir] by {
      assert [n, ".."][1..] == [".."];
      assert Segments([".."]) == [ParentDir] + Segments([]);
    }
    ResolveCancel(Comps(a), n, Segments(Split(b)));
    assert Comps(a) + ([Normal(n), ParentDir] + Segments(Split(b)))
      == Comps(a) + [Normal(n), ParentDir] + Segments(Split(b));
    EndsWithSlashConcat(a + "/" + n + "/../", b);
    EndsWithSlashConcat(a + "/", b);
    SameResolution(p, a + "/" + b);
  }

  lemma {:induction false} SegmentsNoRoot(parts: seq<string>)
    ensures forall i :: 0 <= i < |Segments(parts)| ==> Segments(parts)[i] != RootDir
  {
    if parts != [] {
      SegmentsNoRoot(parts[1..]);
    }
  }

  lemma {:induction false} ResolveFromUnderRoot(stack: seq<Component>, xs: seq<Component>)
    requires forall i :: 0 <= i < |xs| ==> xs[i] != RootDir
    ensures ResolveFrom([RootDir] + stack, xs) == [RootDir] + ResolveFrom(stack, xs)
    decreases |xs|
  {
    if xs != [] {
      if xs[0] == CurDir {
        ResolveFromUnderRoot(stack, xs[1..]);
      } else if xs[0] == ParentDir {
        if |stack| > 0 && stack[|stack| - 1].Normal? {
          assert ([RootDir] + stack)[..|stack|] == [RootDir] + stack[..|stack| - 1];
          ResolveFromUnderRoot(stack[..|stack| - 1], xs[1..]);
        } else {
          ResolveFromUnderRoot(stack, xs[1..]);
        }
      } else {
        assert [RootDir] + stack + [xs[0]] == [RootDir] + (stack + [xs[0]]);
        ResolveFromUnderRoot(stack + [xs[0]], xs[1..]);
      }
    }
  }

  lemma {:induction false} ResolveFromNoRoot(stack: seq<Component>, xs: seq<Component>)
    requires forall i :: 0 <= i < |stack| ==> stack[i] != RootDir
    requires forall i :: 0 <= i < |xs| ==> xs[i] != RootDir
    ensures forall i :: 0 <= i < |ResolveFrom(stack, xs)| ==> ResolveFrom(stack, xs)[i] != RootDir
    decreases |xs|
  {
    if xs != [] {
      if xs[0] == CurDir {
        ResolveFromNoRoot(stack, xs[1..]);
      } else if xs[0] == ParentDir {
        if |stack| > 0 && stack[|stack| - 1].Normal? {
          ResolveFromNoRoot(stack[..|stack| - 1], xs[1..]);
        } else {
          ResolveFromNoRoot(stack, xs[1..]);
        }
      } else {
        ResolveFromNoRoot(stack + [xs[0]], xs[1..]);
      }
    }
  }

  lemma TrimRoot(j: string)
    ensures TrimLeadingSlashes("/" + j) == TrimLeadingSlashes(j)
  {
    assert ("/" + j)[1..] == j;
  }

  lemma RenderUnderRoot(r: seq<Component>)
    requires forall i :: 0 <= i < |r| ==> r[i] != RootDir
    ensures Render([RootDir] + r) == "/" + Render(r)
  {
    assert ([RootDir] + r)[1..] == r;
  }

  lemma ResolveUnderRoot(xs: seq<Component>)
    requires forall i :: 0 <= i < |xs| ==> xs[i] != RootDir
    ensures Resolve([RootDir] + xs) == [RootDir] + Resolve(xs)
  {
    assert ([RootDir] + xs)[1..] == xs;
    assert [] + [RootDir] == [RootDir];
    assert Resolve([RootDir] + xs) == ResolveFrom([RootDir], xs);
    ResolveFromUnderRoot([], xs);
    assert [RootDir] + [] == [RootDir];
  }

  /** Below an added root, relative components normalise to the same core. */
  lemma CoreUnderRoot(xs: seq<Component>)
    requires forall i :: 0 <= i < |xs| ==> xs[i] != RootDir
    ensures TrimLeadingSlashes(Render(Resolve([RootDir] + xs)))
      == TrimLeadingSlashes(Render(Resolve(xs)))
  {
    ResolveUnderRoot(xs);
    ResolveFromNoRoot([], xs);
    RenderUnderRoot(Resolve(xs));
    TrimRoot(Render(Resolve(xs)));
  }

  /** A leading separator is removed: `/b` normalises as `b` (for non-empty `b`). */
  lemma NormalizeStripsRoot(b: string)
    requires b != ""
    ensures Normalized("/" + b) == Normalized(b)
  {
    var p := "/" + b;
    assert p == "" + "/" + b;
    SplitConcat("", b);
    var pb := Split(b);
    SegmentsConcat([""], pb);
    assert Comps(p) == [RootDir] + Segments(pb);
    EndsWithSlashConcat("/", b);
    if !StartsWithSlash(b) {
      var xs := Segments(pb);
      if pb[0] == "." {
        assert pb == ["."] + pb[1..];
        SegmentsConcat(["."], pb[1..]);
        assert Comps(b) == [CurDir] + xs;
      } else {
        assert Comps(b) == xs;
      }
      assert Resolve(Comps(b)) == Resolve(xs);
      SegmentsNoRoot(pb);
      CoreUnderRoot(xs);
    }
  }

  /** The copier's `normalize_path`: note whether the input names a directory,
      normalise, strip the leading separators, and put the directory marker back. */
  method NormalizePath(path: string) returns (r: string)
    ensures r == Normalized(path)
    ensures EndsWithSlash(r) <==> EndsWithSlash(path)
    ensures StartsWithSlash(r) ==> r == "/"
  {
    var isDir := EndsWithSlash(path);
    r := TrimLeadingSlashes(Render(Resolve(Comps(path))));
    if isDir {
      r := r + "/";
    }
    NormalizedEnds(path);
  }
}
