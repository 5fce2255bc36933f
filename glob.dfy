/**
 * Glob helpers: whether a string holds glob metacharacters, and the literal
 * directory prefix of a glob pattern (the pieces before the first piece that
 * holds one).
 */
module Glob {
  import opened Wrappers
  import opened Paths

  /** The characters that make a pattern a glob. */
  predicate IsGlobChar(c: char) { c == '*' || c == '?' || c == '[' || c == '{' }

  /** `has_glob_chars`: some character of `s` is a glob metacharacter. */
  function HasGlobChars(s: string): (r: bool)
    ensures r <==> exists i :: 0 <= i < |s| && IsGlobChar(s[i])
  {
    if s == [] then false
    else if IsGlobChar(s[0]) then true
    else
      assert forall i :: 1 <= i < |s| ==> s[i] == s[1..][i - 1];
      HasGlobChars(s[1..])
  }

  /** The index of the first piece holding a glob metacharacter, `|parts|` when none does. */
  function FirstGlob(parts: seq<string>): (k: nat)
    ensures k <= |parts|
    ensures forall j :: 0 <= j < k ==> !HasGlobChars(parts[j])
    ensures k < |parts| ==> HasGlobChars(parts[k])
  {
    if parts == [] then 0
    else if HasGlobChars(parts[0]) then 0
    else 1 + FirstGlob(parts[1..])
  }

  /** What `literal_prefix` returns: when some `/`-separated piece of the pattern
      holds a glob metacharacter, the pieces before the first such piece joined
      with `/` (possibly the empty string); otherwise nothing. */
  function LiteralPrefixOf(pattern: string): Option<string>
  {
    var parts := Split(pattern);
    var k := FirstGlob(parts);
    if k < |parts| then Some(Join(parts[..k])) else None
  }

  /** `literal_prefix`: walks the pieces of the pattern, collecting them until a
      piece with a glob metacharacter is met. */
  method LiteralPrefix(pattern: string) returns (r: Option<string>)
    ensures r == LiteralPrefixOf(pattern)
  {
    var components := Split(pattern);
    var parts: seq<string> := [];
    var foundGlob := false;
    var i := 0;
    while i < |components|
      invariant 0 <= i <= |components|
      invariant parts == components[..i]
      invariant forall j :: 0 <= j < i ==> !HasGlobChars(components[j])
      invariant !foundGlob
    {
      if HasGlobChars(components[i]) {
        foundGlob := true;
        break;
      }
      parts := parts + [components[i]];
      i := i + 1;
    }
    if foundGlob {
      return Some(Join(parts));
    }
    return None;
  }

  // ---------------------------------------------------------------------------
  // Properties
  // ---------------------------------------------------------------------------

  lemma HasGlobCharsConcat(a: string, b: string)
    ensures HasGlobChars(a + b) <==> HasGlobChars(a) || HasGlobChars(b)
  {
    if HasGlobChars(a + b) {
      var i :| 0 <= i < |a + b| && IsGlobChar((a + b)[i]);
      if i >= |a| { assert b[i - |a|] == (a + b)[i]; }
    }
    if HasGlobChars(a) {
      var i :| 0 <= i < |a| && IsGlobChar(a[i]);
      assert (a + b)[i] == a[i];
    }
    if HasGlobChars(b) {
      var i :| 0 <= i < |b| && IsGlobChar(b[i]);
      assert (a + b)[|a| + i] == b[i];
    }
  }

  /** A join holds a glob metacharacter exactly when one of its pieces does. */
  lemma {:induction false} HasGlobCharsJoin(parts: seq<string>)
    ensures HasGlobChars(Join(parts)) <==> exists j :: 0 <= j < |parts| && HasGlobChars(parts[j])
  {
    if |parts| == 1 {
    } else if |parts| > 1 {
      HasGlobCharsJoin(parts[1..]);
      HasGlobCharsConcat(parts[0] + "/", Join(parts[1..]));
      HasGlobCharsConcat(parts[0], "/");
      assert !HasGlobChars("/");
      forall j | 1 <= j < |parts| ensures parts[j] == parts[1..][j - 1] { }
    }
  }

  lemma {:induction false} JoinConcat(xs: seq<string>, ys: seq<string>)
    requires |xs| > 0 && |ys| > 0
    ensures Join(xs + ys) == Join(xs) + "/" + Join(ys)
    decreases |xs|
  {
    if |xs| == 1 {
      assert (xs + ys)[1..] == ys;
    } else {
      assert (xs + ys)[1..] == xs[1..] + ys;
      JoinConcat(xs[1..], ys);
    }
  }

  /** `literal_prefix` gives nothing exactly when the pattern has no glob metacharacter. */
  lemma LiteralPrefixNoneIff(pattern: string)
    ensures LiteralPrefixOf(pattern).None? <==> !HasGlobChars(pattern)
  {
    JoinSplit(pattern);
    HasGlobCharsJoin(Split(pattern));
  }

  /** A literal prefix is a glob-free beginning of the pattern that ends where a
      piece ends, and the rest of the pattern holds a glob metacharacter. */
  lemma LiteralPrefixIsPrefix(pattern: string)
    requires LiteralPrefixOf(pattern).Some?
    ensures var q := LiteralPrefixOf(pattern).value;
      && |q| <= |pattern| && pattern[..|q|] == q
      && !HasGlobChars(q)
      && HasGlobChars(pattern[|q|..])
      && (q == "" || (|q| < |pattern| && pattern[|q|] == '/'))
  {
    var parts := Split(pattern);
    var k := FirstGlob(parts);
    var q := Join(parts[..k]);
    var tail := Join(parts[k..]);
    JoinSplit(pattern);
    HasGlobCharsJoin(parts[..k]);
    HasGlobCharsJoin(parts[k..]);
    assert parts[k..][0] == parts[k];
    if k == 0 {
      assert parts[k..] == parts;
      assert q == "";
    } else {
      assert parts == parts[..k] + parts[k..];
      JoinConcat(parts[..k], parts[k..]);
      assert pattern == q + "/" + tail;
      SlashAt(q, tail);
      HasGlobCharsConcat("/", tail);
    }
  }

  /** Where the separator joining two strings sits. */
  lemma SlashAt(q: string, tail: string)
    ensures var p := q + "/" + tail;
      && |q| < |p| && p[..|q|] == q && p[|q|..] == "/" + tail && p[|q|] == '/'
  {
    var p := q + "/" + tail;
    assert p[..|q|] == q;
    assert p[|q|..] == "/" + tail;
  }

  /** The literal prefix of glob-free pieces followed by a piece with a glob
      metacharacter and anything after it is the join of the glob-free pieces. */
  lemma LiteralPrefixOfJoin(ps: seq<string>, g: string, rest: seq<string>)
    requires forall i :: 0 <= i < |ps| ==> '/' !in ps[i] && !HasGlobChars(ps[i])
    requires '/' !in g && HasGlobChars(g)
    requires forall i :: 0 <= i < |rest| ==> '/' !in rest[i]
    ensures LiteralPrefixOf(Join(ps + [g] + rest)) == Some(Join(ps))
  {
    var parts := ps + [g] + rest;
    SplitJoin(parts);
    FirstGlobAt(parts, |ps|);
    assert parts[..|ps|] == ps;
  }

  /** A pattern without glob metacharacters in its pieces has no literal prefix. */
  lemma LiteralPrefixOfGlobFree(ps: seq<string>)
    requires |ps| > 0
    requires forall i :: 0 <= i < |ps| ==> '/' !in ps[i] && !HasGlobChars(ps[i])
    ensures LiteralPrefixOf(Join(ps)) == None
  {
    SplitJoin(ps);
  }

  lemma FirstGlobAt(parts: seq<string>, k: nat)
    requires k < |parts| && HasGlobChars(parts[k])
    requires forall j :: 0 <= j < k ==> !HasGlobChars(parts[j])
    ensures FirstGlob(parts) == k
  {
  }

  /** A piece holding a glob metacharacter, preceded by glob-free pieces `ps`
      and followed by one more piece: the prefix is the join of `ps`. */
  lemma PrefixBefore(ps: seq<string>, g: string, rest: seq<string>, pattern: string)
    requires forall i :: 0 <= i < |ps| ==> '/' !in ps[i] && !HasGlobChars(ps[i])
    requires '/' !in g && HasGlobChars(g)
    requires forall i :: 0 <= i < |rest| ==> '/' !in rest[i]
    requires pattern == Join(ps + [g] + rest)
    ensures LiteralPrefixOf(pattern) == Some(Join(ps))
  {
    LiteralPrefixOfJoin(ps, g, rest);
  }

  /** Joining up to five pieces with `/`. */
  lemma JoinPieces(a: string, b: string, c: string, d: string, e: string)
    ensures Join([a, b]) == a + "/" + b
    ensures Join([a, b, c]) == a + "/" + b + "/" + c
    ensures Join([a, b, c, d]) == a + "/" + b + "/" + c + "/" + d
    ensures Join([a, b, c, d, e]) == a + "/" + b + "/" + c + "/" + d + "/" + e
  {
    assert [d, e][1..] == [e];
    assert Join([d, e]) == d + "/" + e;
    assert [c, d, e][1..] == [d, e];
    assert Join([c, d, e]) == c + "/" + d + "/" + e;
    assert [c, d][1..] == [d];
    assert Join([c, d]) == c + "/" + d;
    assert [b, c][1..] == [c];
    assert Join([b, c]) == b + "/" + c;
    assert [b, c, d][1..] == [c, d];
    assert Join([b, c, d]) == b + "/" + c + "/" + d;
    assert [b, c, d, e][1..] == [c, d, e];
    assert Join([b, c, d, e]) == b + "/" + c + "/" + d + "/" + e;
    assert [a, b][1..] == [b];
    assert [a, b, c][1..] == [b, c];
    assert [a, b, c, d][1..] == [b, c, d];
    assert [a, b, c, d, e][1..] == [b, c, d, e];
  }


  /** `a/b/c/g/e`, with `g` the first piece holding a glob metacharacter, has the prefix `a/b/c`. */
  lemma PrefixAtFourth(a: string, b: string, c: string, g: string, e: string)
    requires '/' !in a && '/' !in b && '/' !in c && '/' !in g && '/' !in e
    requires !HasGlobChars(a) && !HasGlobChars(b) && !HasGlobChars(c) && HasGlobChars(g)
    ensures LiteralPrefixOf(a + "/" + b + "/" + c + "/" + g + "/" + e) == Some(a + "/" + b + "/" + c)
  {
    JoinPieces(a, b, c, g, e);
    assert [a, b, c] + [g] + [e] == [a, b, c, g, e];
    PrefixBefore([a, b, c], g, [e], a + "/" + b + "/" + c + "/" + g + "/" + e);
  }

  /** `a/b/g/d/e`, with `g` the first piece holding a glob metacharacter, has the prefix `a/b`. */
  lemma PrefixAtThird(a: string, b: string, g: string, d: string, e: string)
    requires '/' !in a && '/' !in b && '/' !in g && '/' !in d && '/' !in e
    requires !HasGlobChars(a) && !HasGlobChars(b) && HasGlobChars(g)
    ensures LiteralPrefixOf(a + "/" + b + "/" + g + "/" + d + "/" + e) == Some(a + "/" + b)
  {
    JoinPieces(a, b, g, d, e);
    assert [a, b] + [g] + [d, e] == [a, b, g, d, e];
    PrefixBefore([a, b], g, [d, e], a + "/" + b + "/" + g + "/" + d + "/" + e);
  }

  /** `a/b/c/g`, with `g` the first piece holding a glob metacharacter, has the prefix `a/b/c`. */
  lemma PrefixAtLast(a: string, b: string, c: string, g: string)
    requires '/' !in a && '/' !in b && '/' !in c && '/' !in g
    requires !HasGlobChars(a) && !HasGlobChars(b) && !HasGlobChars(c) && HasGlobChars(g)
    ensures LiteralPrefixOf(a + "/" + b + "/" + c + "/" + g) == Some(a + "/" + b + "/" + c)
  {
    JoinPieces(a, b, c, g, "");
    assert [a, b, c] + [g] + [] == [a, b, c, g];
    PrefixBefore([a, b, c], g, [], a + "/" + b + "/" + c + "/" + g);
  }

  /** `a/b/c/d`, with no glob metacharacter in any piece, has no prefix. */
  lemma NoPrefixOfFour(a: string, b: string, c: string, d: string)
    requires '/' !in a && '/' !in b && '/' !in c && '/' !in d
    requires !HasGlobChars(a) && !HasGlobChars(b) && !HasGlobChars(c) && !HasGlobChars(d)
    ensures LiteralPrefixOf(a + "/" + b + "/" + c + "/" + d) == None
  {
    JoinPieces(a, b, c, d, "");
    LiteralPrefixOfGlobFree([a, b, c, d]);
  }

  /** The pieces of the literal-prefix table of the glob tests: `path`, `to`,
      `some` and `file` hold no glob metacharacter, while `**`, `*.txt`,
      `s?me`, `som[ae]` and `file{,.txt}` do. With PrefixAtFourth,
      PrefixAtThird, PrefixAtLast and NoPrefixOfFour they give the table's
      rows: `path/to/some` for `path/to/some/**/*.txt` and for
      `path/to/some/file{,.txt}`, `path/to` for `path/to/s?me/**/*.txt` and
      for `path/to/som[ae]/**/*.txt`, and nothing for `path/to/some/file`. */
  lemma LiteralPrefixTablePieces()
    ensures !HasGlobChars("path") && !HasGlobChars("to") && !HasGlobChars("some") && !HasGlobChars("file")
    ensures HasGlobChars("**") && HasGlobChars("*.txt") && HasGlobChars("s?me")
    ensures HasGlobChars("som[ae]") && HasGlobChars("file{,.txt}")
  {
    assert IsGlobChar("**"[0]);
    assert IsGlobChar("*.txt"[0]);
    assert IsGlobChar("s?me"[1]);
    assert IsGlobChar("som[ae]"[3]);
    assert IsGlobChar("file{,.txt}"[4]);
  }
}
