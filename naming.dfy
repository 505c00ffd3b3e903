/** Names and paths derived from the configured output class: `getOutPackageName`,
    `getOutClassName`, `getClassDir` and the output file of `output`. */
module Naming {
  import opened Wrappers
  import opened Text

  /** `getOutPackageName`: everything before the last dot. Without a dot
      `lastIndexOf` gives -1 and `substring(0, -1)` throws (`None`). */
  function PackageName(name: string): (r: Option<string>)
    ensures r.None? <==> '.' !in name
    ensures r.Some? ==> |r.value| < |name| && name[|r.value|] == '.' && r.value == name[..|r.value|]
    ensures r.Some? ==> '.' !in name[|r.value| + 1..]
  {
    var pos := LastIndexOf(name, '.');
    if pos < 0 then None else Some(name[..pos])
  }

  /** `getOutClassName`: everything after the last dot; the whole name if it has none. */
  function ClassName(name: string): (r: string)
    ensures '.' !in r
    ensures |r| <= |name| && r == name[|name| - |r|..]
    ensures '.' !in name ==> r == name
  {
    name[LastIndexOf(name, '.') + 1..]
  }

  /** With a dot, package and class name put back together with a dot are the
      configured name, and the class name holds no dot (the split is at the last one). */
  lemma SplitAtLastDot(name: string)
    requires '.' in name
    ensures PackageName(name).Some?
    ensures PackageName(name).value + "." + ClassName(name) == name
    ensures '.' !in ClassName(name)
  {
    var pos := LastIndexOf(name, '.');
    assert name == name[..pos] + [name[pos]] + name[pos + 1..];
  }

  /** Without a dot there is no package name, and the class name is the whole name. */
  lemma NoDotNoPackage(name: string)
    requires '.' !in name
    ensures PackageName(name) == None && ClassName(name) == name
  {
  }

  lemma SplitExample()
    ensures PackageName("com.example.Strings") == Some("com.example")
    ensures ClassName("com.example.Strings") == "Strings"
  {
    var name := "com.example.Strings";
    assert name[11] == '.';
    assert '.' !in name[12..] by { assert name[12..] == "Strings"; }
    assert LastIndexOf(name, '.') == 11;
    assert name[..11] == "com.example";
  }

  /** A file path as its components; `new File(dir, name)` adds one, except that an
      empty name leaves the path as it is. */
  type Path = seq<string>

  function Child(dir: Path, name: string): Path
  {
    if name == "" then dir else dir + [name]
  }

  /** The non-empty names of `ps`, in order: the components they add to a path. */
  function NonEmpty(ps: seq<string>): (r: seq<string>)
    ensures forall k :: 0 <= k < |r| ==> r[k] != ""
    decreases |ps|
  {
    if ps == [] then []
    else NonEmpty(ps[..|ps| - 1]) + (if ps[|ps| - 1] == "" then [] else [ps[|ps| - 1]])
  }

  lemma {:induction false} NonEmptyOfNonEmpty(ps: seq<string>)
    requires forall k :: 0 <= k < |ps| ==> ps[k] != ""
    ensures NonEmpty(ps) == ps
    decreases |ps|
  {
    if ps != [] {
      NonEmptyOfNonEmpty(ps[..|ps| - 1]);
      assert ps == ps[..|ps| - 1] + [ps[|ps| - 1]];
    }
  }

  /** `getClassDir`: one directory per element of `packageName.split("\\.")`. */
  method ClassDir(srcDir: Path, packageName: string) returns (result: Path)
    ensures result == srcDir + NonEmpty(SplitDots(packageName))
  {
    result := srcDir;
    var elms := SplitDots(packageName);
    for i := 0 to |elms|
      invariant result == srcDir + NonEmpty(elms[..i])
    {
      assert elms[..i + 1][..i] == elms[..i];
      result := Child(result, elms[i]);
    }
    assert elms[..|elms|] == elms;
  }

  /** The generated file: the class directory, then the class name with `.java`.
      `None` when the class name has no dot (`getOutPackageName` throws). */
  function OutputPath(srcDir: Path, outClassName: string): (r: Option<Path>)
    ensures r.Some? <==> '.' in outClassName
    ensures r.Some? ==> |r.value| > |srcDir| && r.value[..|srcDir|] == srcDir &&
                        r.value[|r.value| - 1] == ClassName(outClassName) + ".java"
  {
    match PackageName(outClassName)
    case None => None
    case Some(p) => Some(srcDir + NonEmpty(SplitDots(p)) + [ClassName(outClassName) + ".java"])
  }

  /** When no package segment is empty (no leading, trailing or doubled dot), the
      output file lies one directory per segment below the source directory, and the
      segments joined with dots are the package name. */
  lemma OutputPathSegments(srcDir: Path, outClassName: string)
    requires PackageName(outClassName).Some?
    requires forall k :: 0 <= k < |Pieces(PackageName(outClassName).value)| ==>
               Pieces(PackageName(outClassName).value)[k] != ""
    ensures var p := PackageName(outClassName).value;
            OutputPath(srcDir, outClassName) == Some(srcDir + Pieces(p) + [ClassName(outClassName) + ".java"]) &&
            JoinDots(Pieces(p)) == p
  {
    var p := PackageName(outClassName).value;
    JoinPieces(p);
    if '.' !in p {
      PiecesNoDot(p);
    } else {
      assert DropTrailingEmpty(Pieces(p)) == Pieces(p);
    }
    NonEmptyOfNonEmpty(Pieces(p));
  }

  lemma PackageExample()
    ensures Pieces("com.x.gen") == ["com", "x", "gen"]
  {
    var ps := ["com", "x", "gen"];
    assert JoinDots(ps) == "com.x.gen";
    SplitJoin(ps);
  }

  lemma NameExample()
    ensures PackageName("com.x.gen.R2") == Some("com.x.gen") && ClassName("com.x.gen.R2") == "R2"
  {
    var name := "com.x.gen.R2";
    assert name[9] == '.';
    assert '.' !in name[10..] by { assert name[10..] == "R2"; }
    assert LastIndexOf(name, '.') == 9;
    assert name[..9] == "com.x.gen";
  }

  lemma PackageDirsExample()
    ensures NonEmpty(SplitDots("com.x.gen")) == ["com", "x", "gen"]
  {
    PackageExample();
    assert "com.x.gen"[3] == '.';
    NonEmptyOfNonEmpty(["com", "x", "gen"]);
  }

  lemma ClassFileExample(srcDir: Path, name: string, pkg: string)
    requires PackageName(name) == Some(pkg) && ClassName(name) == "R2"
    ensures OutputPath(srcDir, name) == Some(srcDir + NonEmpty(SplitDots(pkg)) + ["R2.java"])
  {
    assert "R2" + ".java" == "R2.java";
  }

  lemma PathLiteral(x: Option<Path>, dirs: seq<string>)
    requires x == Some(["/out"] + dirs + ["R2.java"]) && dirs == ["com", "x", "gen"]
    ensures x == Some(["/out", "com", "x", "gen", "R2.java"])
  {
    assert ["/out"] + dirs + ["R2.java"] == ["/out", "com", "x", "gen", "R2.java"];
  }

  /** `/out` and `com.x.gen.R2` give `/out/com/x/gen/R2.java`. */
  lemma OutputPathExample()
    ensures OutputPath(["/out"], "com.x.gen.R2") == Some(["/out", "com", "x", "gen", "R2.java"])
  {
    NameExample();
    ClassFileExample(["/out"], "com.x.gen.R2", "com.x.gen");
    PackageDirsExample();
    PathLiteral(OutputPath(["/out"], "com.x.gen.R2"), NonEmpty(SplitDots("com.x.gen")));
  }
}
