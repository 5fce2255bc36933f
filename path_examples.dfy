/**
 * The cases of the copier's `normalize_path` table, each stated for arbitrary
 * proper names in place of the table's `dir`, `subdir`, `another` and `file.txt`,
 * and the edge cases on the literal inputs.
 */
module PathExamples {
  import opened Paths

  /** A name, or nothing: the last piece of a file path or of a directory path. */
  predicate NameOrEmpty(f: string) { f == "" || IsName(f) }

  /** Plain names and directory paths are left alone (`dir/`, `dir/file.txt`). */
  lemma NormalizedTwo(d: string, f: string)
    requires IsName(d) && NameOrEmpty(f)
    ensures Normalized(d + "/" + f) == d + "/" + f
  {
    if f == "" {
      NormalizedOfNames([d], true);
      assert Join([d]) + "/" == d + "/" + f;
    } else {
      NormalizedOfNames([d, f], false);
      assert Join([d, f]) + "" == d + "/" + f;
    }
  }

  /** `dir/subdir/file.txt` and `dir/subdir/` are left alone. */
  lemma NormalizedThree(d: string, s: string, f: string)
    requires IsName(d) && IsName(s) && NameOrEmpty(f)
    ensures Normalized(d + "/" + s + "/" + f) == d + "/" + s + "/" + f
  {
    var p := d + "/" + s + "/" + f;
    if f == "" {
      NormalizedOfNames([d, s], true);
      JoinTwo(d, s);
      assert p == Join([d, s]) + "/";
    } else {
      NormalizedOfNames([d, s, f], false);
      JoinThree(d, s, f);
      assert p == Join([d, s, f]) + "";
    }
  }

  lemma JoinTwo(x: string, y: string)
    ensures Join([x, y]) == x + "/" + y
  {
    assert [x, y][1..] == [y];
  }

  lemma JoinThree(x: string, y: string, z: string)
    ensures Join([x, y, z]) == x + "/" + y + "/" + z
  {
    assert [x, y, z][1..] == [y, z];
    JoinTwo(y, z);
    assert x + "/" + (y + "/" + z) == x + "/" + y + "/" + z;
  }

  /** `dir/./file.txt` becomes `dir/file.txt`, and `dir/./` becomes `dir/`. */
  lemma DotExample(d: string, f: string)
    requires IsName(d) && NameOrEmpty(f)
    ensures Normalized(d + "/./" + f) == d + "/" + f
  {
    NormalizeDropsDot(d, f);
    NormalizedTwo(d, f);
  }

  /** `dir/subdir/../file.txt` becomes `dir/file.txt`, and `dir/subdir/../` becomes `dir/`. */
  lemma ParentExample(d: string, s: string, f: string)
    requires IsName(d) && IsName(s) && NameOrEmpty(f)
    ensures Normalized(d + "/" + s + "/../" + f) == d + "/" + f
  {
    NormalizeResolvesParent(d, s, f);
    NormalizedTwo(d, f);
  }

  /** `dir//subdir//file.txt` becomes `dir/subdir/file.txt`, and `dir//subdir//` becomes `dir/subdir/`. */
  lemma SlashesExample(d: string, s: string, f: string)
    requires IsName(d) && IsName(s) && NameOrEmpty(f)
    ensures Normalized(d + "//" + s + "//" + f) == d + "/" + s + "/" + f
  {
    SlashesShape(d, s, f);
    NormalizeCollapsesSlashes(d, s + "//" + f);
    NormalizeCollapsesSlashes(d + "/" + s, f);
    NormalizedThree(d, s, f);
  }

  lemma SlashesShape(d: string, s: string, f: string)
    ensures d + "//" + s + "//" + f == d + "//" + (s + "//" + f)
    ensures d + "/" + (s + "//" + f) == (d + "/" + s) + "//" + f
  {
  }

  /** `/dir/./subdir/../another//file.txt` becomes `dir/another/file.txt`, and the
      same with a final `//` becomes `dir/another/`. */
  lemma ComplexExample(d: string, s: string, a: string, f: string)
    requires IsName(d) && IsName(s) && IsName(a) && NameOrEmpty(f)
    ensures Normalized("/" + d + "/./" + s + "/../" + a + "//" + f) == d + "/" + a + "/" + f
  {
    var b := d + "/./" + s + "/../" + a + "//" + f;
    ComplexShape(d, s, a, f);
    NormalizeStripsRoot(b);
    NormalizeDropsDot(d, s + "/../" + a + "//" + f);
    NormalizeResolvesParent(d, s, a + "//" + f);
    NormalizeCollapsesSlashes(d + "/" + a, f);
    NormalizedThree(d, a, f);
  }

  lemma ComplexShape(d: string, s: string, a: string, f: string)
    ensures "/" + d + "/./" + s + "/../" + a + "//" + f == "/" + (d + "/./" + s + "/../" + a + "//" + f)
    ensures d + "/./" + s + "/../" + a + "//" + f == d + "/./" + (s + "/../" + a + "//" + f)
    ensures d + "/" + (s + "/../" + a + "//" + f) == d + "/" + s + "/../" + (a + "//" + f)
    ensures d + "/" + (a + "//" + f) == (d + "/" + a) + "//" + f
  {
  }

  /** `/file.txt`, `/dir/` and `/dir/subdir/file.txt` lose their leading separator. */
  lemma LeadingSlashExample(ns: seq<string>, dir: bool)
    requires |ns| > 0
    requires forall i :: 0 <= i < |ns| ==> IsName(ns[i])
    ensures Normalized("/" + Join(ns) + (if dir then "/" else "")) == Join(ns) + (if dir then "/" else "")
  {
    var b := Join(ns) + (if dir then "/" else "");
    LeadingShape(Join(ns), if dir then "/" else "");
    JoinOfNamesBare(ns);
    NormalizeStripsRoot(b);
    NormalizedOfNames(ns, dir);
  }

  lemma LeadingShape(j: string, t: string)
    ensures "/" + j + t == "/" + (j + t)
  {
  }

  lemma EmptyExample() ensures Normalized("") == "" { NormalizedEmpty(); }

  lemma RootExample() ensures Normalized("/") == "/" { NormalizedRoot(); }

  lemma DotOnlyExample() ensures Normalized(".") == ""
  {
    SplitNoSlash(".");
    assert Comps(".") == [CurDir] + Segments([]);
  }

  lemma DotDirExample() ensures Normalized("./") == "/"
  {
    assert "./" == "." + "/" + "";
    SplitConcat(".", "");
    SplitNoSlash(".");
    assert Split("") == [""];
    assert Comps("./") == [CurDir] + Segments([""]);
  }

  lemma ParentOnlyExample() ensures Normalized("..") == ""
  {
    SplitNoSlash("..");
    assert Comps("..") == [ParentDir] + Segments([]);
  }

  lemma ParentDirExample() ensures Normalized("../") == "/"
  {
    assert "../" == ".." + "/" + "";
    SplitConcat("..", "");
    SplitNoSlash("..");
    assert Split("") == [""];
    assert Comps("../") == [ParentDir] + Segments([""]);
  }
}
