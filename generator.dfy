/** The generator proper: `exec`, which folds the input files into one map and the
    newest modification time, renders one declaration and one assignment per key,
    and hands the five template parameters to `output`, which applies the
    staleness gate and expands the template. */
module Generator {
  import opened Wrappers
  import opened Text
  import opened Arguments
  import opened Extractor
  import opened Naming

  // ---------------------------------------------------------------------------
  // Input files.

  /** What the file system says about one input file: `lastModified()` and the
      callbacks its parse makes. */
  datatype InputFile = InputFile(lastModified: int, doc: Document)

  /** The input files that exist, by the path given on the command line. */
  type Disk = map<string, InputFile>

  predicate WellFormedDisk(disk: Disk)
  {
    forall f :: f in disk ==> WellFormed(disk[f].doc)
  }

  /** `File.lastModified()`, which is 0 for a file that does not exist. */
  function ModifiedTime(disk: Disk, f: string): int
  {
    if f in disk then disk[f].lastModified else 0
  }

  /** The parse of a file; a missing file makes the parser throw an `IOException`
      before any callback. */
  function Parsed(disk: Disk, f: string): (d: Document)
    requires WellFormedDisk(disk)
    ensures WellFormed(d)
  {
    if f in disk then disk[f].doc else Document([], IoError)
  }

  /** The running maximum of `mLastModified` over the files, from `t0`. */
  function Newest(disk: Disk, files: seq<string>, t0: int): int
    decreases |files|
  {
    if files == [] then t0
    else
      var t := Newest(disk, files[..|files| - 1], t0);
      var lm := ModifiedTime(disk, files[|files| - 1]);
      if lm > t then lm else t
  }

  /** The accumulated map after the files: each file's `loadStringResources`
      result replaces it, except when the file threw a `SAXException`. */
  function Merged(disk: Disk, files: seq<string>): map<Option<string>, string>
    requires WellFormedDisk(disk)
    decreases |files|
  {
    if files == [] then map[]
    else
      var acc := Merged(disk, files[..|files| - 1]);
      match Load(acc, Parsed(disk, files[|files| - 1]))
      case Ok(m) => m
      case Err(_) => acc
  }

  /** The newest time is the largest of `t0` and the files' times, and is one of them. */
  lemma {:induction false} NewestIsMax(disk: Disk, files: seq<string>, t0: int)
    ensures Newest(disk, files, t0) >= t0
    ensures forall k :: 0 <= k < |files| ==> Newest(disk, files, t0) >= ModifiedTime(disk, files[k])
    ensures Newest(disk, files, t0) == t0 ||
            exists k :: 0 <= k < |files| && Newest(disk, files, t0) == ModifiedTime(disk, files[k])
    decreases |files|
  {
    if files != [] {
      var n := |files| - 1;
      NewestIsMax(disk, files[..n], t0);
      forall k | 0 <= k < n ensures files[..n][k] == files[k] { }
      var t := Newest(disk, files[..n], t0);
      if t != t0 && ModifiedTime(disk, files[n]) <= t {
        var k :| 0 <= k < n && t == ModifiedTime(disk, files[..n][k]);
        assert files[..n][k] == files[k];
      }
    }
  }

  /** The order of the input files does not change the newest time: it depends only on
      which files are named. */
  lemma NewestOrderInsensitive(disk: Disk, files: seq<string>, others: seq<string>, t0: int)
    requires forall f :: f in files <==> f in others
    ensures Newest(disk, files, t0) == Newest(disk, others, t0)
  {
    NewestIsMax(disk, files, t0);
    NewestIsMax(disk, others, t0);
    var a := Newest(disk, files, t0);
    var b := Newest(disk, others, t0);
    if a != t0 {
      var k :| 0 <= k < |files| && a == ModifiedTime(disk, files[k]);
      assert files[k] in others;
      var j :| 0 <= j < |others| && others[j] == files[k];
    }
    if b != t0 {
      var k :| 0 <= k < |others| && b == ModifiedTime(disk, others[k]);
      assert others[k] in files;
      var j :| 0 <= j < |files| && files[j] == others[k];
    }
  }

  /** What a file adds to the merge: the entries it records, or nothing when its parse
      throws a `SAXException`. */
  function Contribution(disk: Disk, f: string): map<Option<string>, string>
    requires WellFormedDisk(disk)
  {
    var d := Parsed(disk, f);
    if d.ending == SaxError then map[] else FileEntries(d)
  }

  /** The files' contributions laid over one another, later over earlier. */
  function Overlay(disk: Disk, files: seq<string>): map<Option<string>, string>
    requires WellFormedDisk(disk)
    decreases |files|
  {
    if files == [] then map[] else Overlay(disk, files[..|files| - 1]) + Contribution(disk, files[|files| - 1])
  }

  /** The merge threads one map through all the files, yet it is the same as laying
      each file's own entries over the earlier ones: a later file overrides an earlier
      one key by key. */
  lemma {:induction false} MergedIsOverlay(disk: Disk, files: seq<string>)
    requires WellFormedDisk(disk)
    ensures Merged(disk, files) == Overlay(disk, files)
    decreases |files|
  {
    if files != [] {
      var n := |files| - 1;
      MergedIsOverlay(disk, files[..n]);
      var d := Parsed(disk, files[n]);
      if d.ending != SaxError {
        LoadOverrides(Merged(disk, files[..n]), d);
      } else {
        assert Overlay(disk, files[..n]) + map[] == Overlay(disk, files[..n]);
      }
    }
  }

  /** A file whose parse throws a `SAXException` or that does not exist changes nothing: the
      throwing one is dropped whole, the missing one records nothing. */
  lemma SkippedFile(disk: Disk, files: seq<string>, f: string)
    requires WellFormedDisk(disk)
    requires f !in disk || disk[f].doc.ending == SaxError
    ensures Merged(disk, files + [f]) == Merged(disk, files)
  {
    assert (files + [f])[..|files|] == files;
    if f !in disk {
      LoadOverrides(Merged(disk, files), Parsed(disk, f));
      assert FileEntries(Parsed(disk, f)) == map[];
      assert Merged(disk, files) + map[] == Merged(disk, files);
    }
  }

  /** Keys are never dropped: the map after some of the files has no key the map after
      all of them lacks. */
  lemma {:induction false} MergedKeysGrow(disk: Disk, files: seq<string>, i: nat)
    requires WellFormedDisk(disk) && i <= |files|
    ensures Merged(disk, files[..i]).Keys <= Merged(disk, files).Keys
    decreases |files| - i
  {
    if i < |files| {
      MergedKeysGrow(disk, files, i + 1);
      var d := Parsed(disk, files[i]);
      assert files[..i + 1][..i] == files[..i];
      if d.ending != SaxError {
        LoadOverrides(Merged(disk, files[..i]), d);
      }
    } else {
      assert files[..i] == files;
    }
  }

  // ---------------------------------------------------------------------------
  // Code fragments.

  const FieldNameToken: string := "<field_name>"
  const StringIdToken: string := "<string_id>"

  /** The fixed text around the tokens of `FIELD_TEMPLATE` and `FIELD_ASSIGNMENT_TEMPLATE`. */
  const DeclarationHead: string := "\n    public final String "
  const DeclarationEnd: string := ";"
  const AssignmentHead: string := "\n        this."
  const AssignmentMiddle: string := " = context.getString(R.string."
  const AssignmentEnd: string := ");"

  /** `FIELD_TEMPLATE` and `FIELD_ASSIGNMENT_TEMPLATE`, written out around their tokens. */
  const FieldTemplate: string := DeclarationHead + FieldNameToken + DeclarationEnd
  const FieldAssignmentTemplate: string :=
    AssignmentHead + FieldNameToken + AssignmentMiddle + StringIdToken + AssignmentEnd

  /** The field a key declares: public, final, a `String`, named by the upper-cased key. */
  function Declaration(key: string): string
  {
    DeclarationHead + ToUpper(key) + DeclarationEnd
  }

  /** The statement that sets the key's field from the resource looked up by the key
      in its original case. */
  function Assignment(key: string): string
  {
    AssignmentHead + ToUpper(key) + AssignmentMiddle + key + AssignmentEnd
  }

  /** One differing character rules out a match at `i`. */
  lemma NoMatchAt(s: string, tok: string, i: int, k: int)
    requires 0 <= k < |tok| && 0 <= i && i + k < |s| && s[i + k] != tok[k]
    ensures !MatchAt(s, tok, i)
  {
    if i + |tok| <= |s| {
      assert s[i..i + |tok|][k] == s[i + k];
    }
  }

  /** No match of `tok` starts inside `a` when `a` lacks `tok`'s first character. */
  lemma NoMatchInside(a: string, rest: string, tok: string)
    requires tok != [] && tok[0] !in a
    ensures forall i :: 0 <= i < |a| ==> !MatchAt(a + rest, tok, i)
  {
    forall i | 0 <= i < |a| ensures !MatchAt(a + rest, tok, i) {
      assert (a + rest)[i] == a[i];
      NoMatchAt(a + rest, tok, i, 0);
    }
  }

  /** A token whose first character is not in `a`, followed by a text without the
      token, is replaced exactly once. */
  lemma ReplaceOnce(a: string, b: string, tok: string, v: string)
    requires tok != [] && tok[0] !in a
    requires forall i :: 0 <= i <= |b| ==> !MatchAt(b, tok, i)
    ensures ReplaceAll(a + tok + b, tok, v) == a + v + b
  {
    NoMatchInside(a, tok + b, tok);
    assert a + tok + b == a + (tok + b);
    ReplaceFirst(a, b, tok, v);
    ReplaceAbsent(b, tok, v);
  }

  /** Filling the field template with the upper-cased key gives the declaration,
      whatever the key holds. */
  lemma DeclarationFromTemplate(key: string)
    ensures ReplaceAll(FieldTemplate, FieldNameToken, ToUpper(key)) == Declaration(key)
  {
    assert '<' !in DeclarationHead;
    ReplaceOnce(DeclarationHead, DeclarationEnd, FieldNameToken, ToUpper(key));
  }

  /** A `<` followed by a character other than `tok[1]` cannot start a match of `tok`. */
  lemma NoMatchAfterLess(b: string, tok: string, i: nat)
    requires |tok| >= 2 && tok[0] == '<' && i < |b|
    requires b[i] == '<' ==> i + 1 < |b| && b[i + 1] != tok[1]
    ensures !MatchAt(b, tok, i)
  {
    if b[i] != '<' {
      NoMatchAt(b, tok, i, 0);
    } else {
      NoMatchAt(b, tok, i, 1);
    }
  }

  /** The text after `<field_name>` in the assignment template holds no `<field_name>`. */
  lemma AssignmentTailHasNoField()
    ensures forall i :: 0 <= i <= |AssignmentMiddle + StringIdToken + AssignmentEnd| ==>
              !MatchAt(AssignmentMiddle + StringIdToken + AssignmentEnd, FieldNameToken, i)
  {
    var b := AssignmentMiddle + StringIdToken + AssignmentEnd;
    assert b == " = context.getString(R.string.<string_id>);";
    forall i | 0 <= i <= |b| ensures !MatchAt(b, FieldNameToken, i) {
      if i < |b| {
        NoMatchAfterLess(b, FieldNameToken, i);
      }
    }
  }

  /** The first pass over the assignment template replaces `<field_name>` only. */
  lemma AssignmentFirstPass(u: string)
    ensures ReplaceAll(FieldAssignmentTemplate, FieldNameToken, u) ==
            AssignmentHead + u + AssignmentMiddle + StringIdToken + AssignmentEnd
  {
    var b := AssignmentMiddle + StringIdToken + AssignmentEnd;
    assert FieldAssignmentTemplate == AssignmentHead + FieldNameToken + b;
    assert '<' !in AssignmentHead;
    AssignmentTailHasNoField();
    ReplaceOnce(AssignmentHead, b, FieldNameToken, u);
  }

  /** `a + u + c` holds no start of `<string_id>` when `a` and `c` have no `<`, `c` does
      not start with `s`, and `u` has no lower-case letter. */
  lemma NoStringIdBefore(a: string, u: string, c: string, rest: string)
    requires '<' !in a && '<' !in c && |c| > 0 && c[0] != 's'
    requires forall i :: 0 <= i < |u| ==> !IsLower(u[i])
    ensures forall i :: 0 <= i < |a + u + c| ==> !MatchAt(a + u + c + rest, StringIdToken, i)
  {
    var s := a + u + c + rest;
    forall i | 0 <= i < |a + u + c| ensures !MatchAt(s, StringIdToken, i) {
      if i < |a| {
        assert s[i] == a[i];
      } else if i < |a| + |u| {
        assert s[i + 1] == if i + 1 < |a| + |u| then u[i + 1 - |a|] else c[0];
      } else {
        assert s[i] == c[i - |a| - |u|];
      }
      NoMatchAfterLess(s, StringIdToken, i);
    }
  }

  /** The second pass: a text without lower-case letters cannot hold `<string_id>`,
      so its only occurrence is the one in the template. */
  lemma AssignmentSecondPass(u: string, key: string)
    requires forall i :: 0 <= i < |u| ==> !IsLower(u[i])
    ensures ReplaceAll(AssignmentHead + u + AssignmentMiddle + StringIdToken + AssignmentEnd, StringIdToken, key) ==
            AssignmentHead + u + AssignmentMiddle + key + AssignmentEnd
  {
    var pre := AssignmentHead + u + AssignmentMiddle;
    assert '<' !in AssignmentHead && '<' !in AssignmentMiddle && AssignmentMiddle[0] == ' ';
    NoStringIdBefore(AssignmentHead, u, AssignmentMiddle, StringIdToken + AssignmentEnd);
    assert pre + (StringIdToken + AssignmentEnd) == pre + StringIdToken + AssignmentEnd;
    ReplaceFirst(pre, AssignmentEnd, StringIdToken, key);
  }

  /** Filling the assignment template, first with the upper-cased key and then with the
      key, gives the assignment: the upper-cased key cannot contain `<string_id>`,
      which has lower-case letters. */
  lemma AssignmentFromTemplate(key: string)
    ensures ReplaceAll(ReplaceAll(FieldAssignmentTemplate, FieldNameToken, ToUpper(key)), StringIdToken, key) ==
            Assignment(key)
  {
    AssignmentFirstPass(ToUpper(key));
    AssignmentSecondPass(ToUpper(key), key);
  }

  /** Every key's declaration is the filled `FIELD_TEMPLATE`. */
  lemma DeclarationsFromTemplate()
    ensures forall k :: ReplaceAll(FieldTemplate, FieldNameToken, ToUpper(k)) == Declaration(k)
  {
    forall k ensures ReplaceAll(FieldTemplate, FieldNameToken, ToUpper(k)) == Declaration(k) {
      DeclarationFromTemplate(k);
    }
  }

  /** Every key's assignment is the filled `FIELD_ASSIGNMENT_TEMPLATE`. */
  lemma AssignmentsFromTemplate()
    ensures forall k :: ReplaceAll(ReplaceAll(FieldAssignmentTemplate, FieldNameToken, ToUpper(k)), StringIdToken, k) ==
                        Assignment(k)
  {
    forall k ensures ReplaceAll(ReplaceAll(FieldAssignmentTemplate, FieldNameToken, ToUpper(k)), StringIdToken, k) ==
                     Assignment(k) {
      AssignmentFromTemplate(k);
    }
  }

  /** Concatenation of fragments, in order (`StringBuilder.append`). */
  function Concat(ps: seq<string>): string
    decreases |ps|
  {
    if ps == [] then "" else Concat(ps[..|ps| - 1]) + ps[|ps| - 1]
  }

  /** The keys, once no `null` is among them. */
  function Names(keys: seq<Option<string>>): (r: seq<string>)
    requires None !in keys
    ensures |r| == |keys| && forall i :: 0 <= i < |keys| ==> keys[i] == Some(r[i])
    decreases |keys|
  {
    if keys == [] then []
    else
      var n := |keys| - 1;
      assert keys[n] in keys;
      Names(keys[..n]) + [keys[n].value]
  }

  function DeclarationFragments(ks: seq<string>): (r: seq<string>)
    ensures |r| == |ks|
    ensures forall i :: 0 <= i < |ks| ==> r[i] == ReplaceAll(FieldTemplate, FieldNameToken, ToUpper(ks[i]))
  {
    DeclarationsFromTemplate();
    seq(|ks|, i requires 0 <= i < |ks| => Declaration(ks[i]))
  }

  function AssignmentFragments(ks: seq<string>): (r: seq<string>)
    ensures |r| == |ks|
    ensures forall i :: 0 <= i < |ks| ==>
              r[i] == ReplaceAll(ReplaceAll(FieldAssignmentTemplate, FieldNameToken, ToUpper(ks[i])), StringIdToken, ks[i])
  {
    AssignmentsFromTemplate();
    seq(|ks|, i requires 0 <= i < |ks| => Assignment(ks[i]))
  }

  /** The fragments of a slice of the keys are that slice of the fragments. */
  lemma FragmentsOfSlice(ks: seq<string>, i: nat)
    requires i <= |ks|
    ensures DeclarationFragments(ks)[..i] == DeclarationFragments(ks[..i])
    ensures AssignmentFragments(ks)[..i] == AssignmentFragments(ks[..i])
    ensures DeclarationFragments(ks)[i..] == DeclarationFragments(ks[i..])
    ensures AssignmentFragments(ks)[i..] == AssignmentFragments(ks[i..])
  {
  }

  /** Rendering one more key appends its declaration and its assignment. */
  lemma RenderStep(keys: seq<Option<string>>, i: nat)
    requires i < |keys| && None !in keys[..i + 1]
    ensures None !in keys[..i] && keys[i].Some?
    ensures Concat(DeclarationFragments(Names(keys[..i + 1]))) ==
            Concat(DeclarationFragments(Names(keys[..i]))) + Declaration(keys[i].value)
    ensures Concat(AssignmentFragments(Names(keys[..i + 1]))) ==
            Concat(AssignmentFragments(Names(keys[..i]))) + Assignment(keys[i].value)
  {
    assert keys[..i + 1][..i] == keys[..i];
    assert keys[..i + 1][i] == keys[i];
    var ks := Names(keys[..i + 1]);
    assert ks[..i] == Names(keys[..i]);
    FragmentsOfSlice(ks, i);
  }

  lemma {:induction false} ConcatAppend(p: seq<string>, q: seq<string>)
    ensures Concat(p + q) == Concat(p) + Concat(q)
    decreases |q|
  {
    if q != [] {
      var n := |q| - 1;
      ConcatAppend(p, q[..n]);
      assert (p + q)[..|p + q| - 1] == p + q[..n];
      assert (p + q)[|p + q| - 1] == q[n];
    } else {
      assert p + q == p;
    }
  }

  /** Element `i` of a concatenation sits between the elements before and after it. */
  lemma ConcatAt(ps: seq<string>, i: nat)
    requires i < |ps|
    ensures Concat(ps) == Concat(ps[..i]) + ps[i] + Concat(ps[i + 1..])
  {
    var p := ps[..i + 1];
    assert ps == p + ps[i + 1..];
    ConcatAppend(p, ps[i + 1..]);
    assert p[..|p| - 1] == ps[..i];
  }

  /** Key `i`'s declaration and assignment sit between those of the keys before it and
      those of the keys after it: the fragments follow the iteration order. */
  lemma FragmentAt(ks: seq<string>, i: nat)
    requires i < |ks|
    ensures Concat(DeclarationFragments(ks)) ==
            Concat(DeclarationFragments(ks[..i])) + Declaration(ks[i]) + Concat(DeclarationFragments(ks[i + 1..]))
    ensures Concat(AssignmentFragments(ks)) ==
            Concat(AssignmentFragments(ks[..i])) + Assignment(ks[i]) + Concat(AssignmentFragments(ks[i + 1..]))
  {
    FragmentsOfSlice(ks, i);
    FragmentsOfSlice(ks, i + 1);
    ConcatAt(DeclarationFragments(ks), i);
    ConcatAt(AssignmentFragments(ks), i);
  }

  /** A sequence that enumerates a set is as long as the set is large. */
  lemma {:induction false} EnumerationLength<T>(s: seq<T>, keys: set<T>)
    requires Enumerates(s, keys)
    ensures |s| == |keys|
    decreases |s|
  {
    if s == [] {
      assert keys == {};
    } else {
      var n := |s| - 1;
      forall x | x in s[..n] ensures x in keys - {s[n]} {
        var j :| 0 <= j < n && s[..n][j] == x;
        assert s[j] == x;
      }
      forall x | x in keys - {s[n]} ensures x in s[..n] {
        var j :| 0 <= j < |s| && s[j] == x;
        assert j < n && s[..n][j] == x;
      }
      EnumerationLength(s[..n], keys - {s[n]});
    }
  }

  /** The generated class has one field per key of the merged map: as many declarations
      and assignments as keys, and each key among them. */
  lemma OneFieldPerKey(keyOrder: seq<Option<string>>, keys: set<Option<string>>)
    requires Enumerates(keyOrder, keys) && None !in keys
    ensures None !in keyOrder
    ensures |DeclarationFragments(Names(keyOrder))| == |keys|
    ensures |AssignmentFragments(Names(keyOrder))| == |keys|
    ensures forall k :: k in keys ==>
              (exists i :: 0 <= i < |keyOrder| && keyOrder[i] == k &&
                 DeclarationFragments(Names(keyOrder))[i] == Declaration(k.value) &&
                 AssignmentFragments(Names(keyOrder))[i] == Assignment(k.value))
  {
    EnumerationLength(keyOrder, keys);
    forall k | k in keys
      ensures (exists i :: 0 <= i < |keyOrder| && keyOrder[i] == k &&
                 DeclarationFragments(Names(keyOrder))[i] == Declaration(k.value) &&
                 AssignmentFragments(Names(keyOrder))[i] == Assignment(k.value))
    {
      var i :| 0 <= i < |keyOrder| && keyOrder[i] == k;
      assert Names(keyOrder)[i] == k.value;
    }
  }

  /** `toUpperCase` on a `null` key throws `NullPointerException`; a class name without
      a dot makes `getOutPackageName` throw `StringIndexOutOfBoundsException`. */
  datatype Crash = NullKey | NoPackage

  datatype Fragments = Fragments(declarations: string, assignments: string)

  /** The body of the loop over `entries.entrySet()` for one key: the two templates filled
      in, which are the key's declaration and assignment. */
  method RenderEntry(key: string) returns (declaration: string, assignment: string)
    ensures declaration == Declaration(key) && assignment == Assignment(key)
  {
    DeclarationFromTemplate(key);
    AssignmentFromTemplate(key);
    declaration := ReplaceAll(FieldTemplate, FieldNameToken, ToUpper(key));
    assignment := ReplaceAll(ReplaceAll(FieldAssignmentTemplate, FieldNameToken, ToUpper(key)), StringIdToken, key);
  }

  /** The loop over `entries.entrySet()`, in the map's iteration order `keys`: one
      declaration and one assignment per key, or a crash at the first `null` key. */
  method RenderFragments(keys: seq<Option<string>>) returns (r: Result<Fragments, Crash>)
    ensures r.Err? <==> None in keys
    ensures r.Err? ==> r.error == NullKey
    ensures r.Ok? ==> r.value == Fragments(Concat(DeclarationFragments(Names(keys))),
                                           Concat(AssignmentFragments(Names(keys))))
  {
    var declarations := "";
    var assignments := "";
    for i := 0 to |keys|
      invariant None !in keys[..i]
      invariant declarations == Concat(DeclarationFragments(Names(keys[..i])))
      invariant assignments == Concat(AssignmentFragments(Names(keys[..i])))
    {
      if keys[i].None? {
        return Err(NullKey);
      }
      var declaration, assignment := RenderEntry(keys[i].value);
      RenderStep(keys, i);
      declarations := declarations + declaration;
      assignments := assignments + assignment;
    }
    assert keys[..|keys|] == keys;
    r := Ok(Fragments(declarations, assignments));
  }

  // ---------------------------------------------------------------------------
  // Template expansion.

  const AppIdToken: string := "<application_id>"
  const PackageToken: string := "<package_name>"
  const NameToken: string := "<name>"
  const DeclarationsToken: string := "<field_declarations>"
  const AssignmentsToken: string := "<field_assignments>"

  const Placeholders: set<string> := {AppIdToken, PackageToken, NameToken, DeclarationsToken, AssignmentsToken}

  /** The `expands` map of `exec`. */
  function Params(config: Config, packageName: string, f: Fragments): (m: map<string, string>)
    ensures m.Keys == Placeholders
  {
    map[AppIdToken := config.applicationId, PackageToken := packageName,
        NameToken := ClassName(config.outClassName),
        DeclarationsToken := f.declarations, AssignmentsToken := f.assignments]
  }

  /** `s` lists every element of `keys` exactly once: a map's iteration order. */
  predicate Enumerates<T(==)>(s: seq<T>, keys: set<T>)
  {
    (forall i, j :: 0 <= i < j < |s| ==> s[i] != s[j]) &&
    (forall i :: 0 <= i < |s| ==> s[i] in keys) && (forall x :: x in keys ==> x in s)
  }

  /** The parameters as (placeholder, value) pairs in the map's iteration order. */
  function Pairs(params: map<string, string>, order: seq<string>): (r: seq<(string, string)>)
    requires forall i :: 0 <= i < |order| ==> order[i] in params
    ensures |r| == |order| && forall i :: 0 <= i < |r| ==> r[i].0 == order[i]
    ensures forall p :: p in r ==> p.0 in params && p.1 == params[p.0]
    ensures Enumerates(order, params.Keys) ==> forall k :: k in params ==> (k, params[k]) in r
  {
    seq(|order|, i requires 0 <= i < |order| => (order[i], params[order[i]]))
  }

  /** `template.replaceAll(key, value)` for each parameter in turn. */
  function Expand(template: string, pairs: seq<(string, string)>): string
    requires forall i :: 0 <= i < |pairs| ==> pairs[i].0 != []
    decreases |pairs|
  {
    if pairs == [] then template
    else
      var n := |pairs| - 1;
      ReplaceAll(Expand(template, pairs[..n]), pairs[n].0, pairs[n].1)
  }

  /** A template without any placeholder passes through unchanged, in whatever order
      the parameters come. */
  lemma {:induction false} ExpandWithoutPlaceholders(template: string, pairs: seq<(string, string)>)
    requires forall i :: 0 <= i < |pairs| ==> pairs[i].0 != []
    requires forall i, j :: 0 <= i < |pairs| && 0 <= j <= |template| ==> !MatchAt(template, pairs[i].0, j)
    ensures Expand(template, pairs) == template
    decreases |pairs|
  {
    if pairs != [] {
      var n := |pairs| - 1;
      ExpandWithoutPlaceholders(template, pairs[..n]);
      forall j | 0 <= j <= |template| ensures !MatchAt(template, pairs[n].0, j) { }
      ReplaceAbsent(template, pairs[n].0, pairs[n].1);
    }
  }

  /** The substitution result depends on the iteration order: a value that spells
      another placeholder is itself replaced only when that placeholder comes later. */
  lemma ExpandOrderMatters()
    ensures Expand(NameToken, [(NameToken, AppIdToken), (AppIdToken, "X")]) == "X"
    ensures Expand(NameToken, [(AppIdToken, "X"), (NameToken, AppIdToken)]) == AppIdToken
  {
    var p := [(NameToken, AppIdToken), (AppIdToken, "X")];
    var q := [(AppIdToken, "X"), (NameToken, AppIdToken)];
    assert p[..1][..0] == [] && q[..1][..0] == [];
    assert ReplaceAll(NameToken, NameToken, AppIdToken) == AppIdToken + ReplaceAll([], NameToken, AppIdToken);
    assert ReplaceAll(AppIdToken, AppIdToken, "X") == "X" + ReplaceAll([], AppIdToken, "X");
    assert Expand(NameToken, p[..1]) == AppIdToken;
    assert Expand(NameToken, q[..1]) == NameToken;
  }

  // ---------------------------------------------------------------------------
  // Output.

  /** What a run leaves behind: nothing (`UP-TO-DATE`), or the generated file. */
  datatype Outcome = UpToDate | Written(path: Path, text: string)

  /** The staleness gate of `output`: skip when the output exists and is at least as
      new as the newest input. */
  predicate Fresh(present: bool, fileTime: int, newest: int)
  {
    present && fileTime >= newest
  }

  /** `output(params)` as a value. `outputs` maps each existing output file to its
      `lastModified()`. */
  function OutputResult(config: Config, newest: int, params: map<string, string>, order: seq<string>,
                        template: string, outputs: map<Path, int>): Result<Outcome, Crash>
    requires forall i :: 0 <= i < |order| ==> order[i] in params && order[i] != []
  {
    match OutputPath([config.outSourceDir], config.outClassName)
    case None => Err(NoPackage)
    case Some(path) =>
      if Fresh(path in outputs, if path in outputs then outputs[path] else 0, newest) then Ok(UpToDate)
      else Ok(Written(path, Expand(template, Pairs(params, order))))
  }

  /** The gate in both directions: the run is skipped exactly when the output exists
      and is not older than the newest input; otherwise the file is written with the
      expanded template. */
  lemma OutputGate(config: Config, newest: int, params: map<string, string>, order: seq<string>,
                   template: string, outputs: map<Path, int>)
    requires forall i :: 0 <= i < |order| ==> order[i] in params && order[i] != []
    requires '.' in config.outClassName
    ensures var path := OutputPath([config.outSourceDir], config.outClassName).value;
            (OutputResult(config, newest, params, order, template, outputs) == Ok(UpToDate) <==>
               path in outputs && outputs[path] >= newest) &&
            (path !in outputs || outputs[path] < newest ==>
               OutputResult(config, newest, params, order, template, outputs) ==
               Ok(Written(path, Expand(template, Pairs(params, order)))))
  {
  }

  /** Running again after a write, with the written file stamped no earlier than the
      newest input, is a no-op. */
  lemma RerunIsUpToDate(config: Config, newest: int, params: map<string, string>, order: seq<string>,
                        template: string, outputs: map<Path, int>, now: int)
    requires forall i :: 0 <= i < |order| ==> order[i] in params && order[i] != []
    requires OutputResult(config, newest, params, order, template, outputs).Ok?
    requires OutputResult(config, newest, params, order, template, outputs).value.Written?
    requires now >= newest
    ensures var w := OutputResult(config, newest, params, order, template, outputs).value;
            OutputResult(config, newest, params, order, template, outputs[w.path := now]) == Ok(UpToDate)
  {
  }

  /** The generator object after its constructor: the configuration and `mLastModified`. */
  class ResLoaderGen {
    const config: Config
    var lastModified: int

    constructor (config: Config)
      ensures this.config == config && lastModified == 0
    {
      this.config := config;
      lastModified := 0;
    }

    /** The first loop of `exec`: per file, raise `mLastModified` to its time, then
        merge it, keeping the accumulator when the parse throws. */
    method LoadInputs(disk: Disk) returns (entries: map<Option<string>, string>)
      requires WellFormedDisk(disk)
      modifies this`lastModified
      ensures entries == Merged(disk, config.inFiles)
      ensures lastModified == Newest(disk, config.inFiles, old(lastModified))
    {
      entries := map[];
      var files := config.inFiles;
      for i := 0 to |files|
        invariant entries == Merged(disk, files[..i])
        invariant lastModified == Newest(disk, files[..i], old(lastModified))
      {
        assert files[..i + 1][..i] == files[..i];
        var file := files[i];
        var lm := ModifiedTime(disk, file);
        if lm > lastModified {
          lastModified := lm;
        }
        var loaded := LoadStringResources(entries, Parsed(disk, file));
        if loaded.Ok? {
          entries := loaded.value;
        }
      }
      assert files[..|files|] == files;
    }

    /** `output`: the gate, then the expansion loop over the parameters in the map's
        iteration order `order`. Creating the directories and writing the file are
        what `Written` stands for. */
    method Output(params: map<string, string>, order: seq<string>, template: string, outputs: map<Path, int>)
      returns (r: Result<Outcome, Crash>)
      requires forall i :: 0 <= i < |order| ==> order[i] in params && order[i] != []
      ensures r == OutputResult(config, lastModified, params, order, template, outputs)
    {
      var pkg := PackageName(config.outClassName);
      if pkg.None? {
        return Err(NoPackage);
      }
      var outDir := ClassDir([config.outSourceDir], pkg.value);
      var outFile := Child(outDir, ClassName(config.outClassName) + ".java");
      if outFile in outputs && outputs[outFile] >= lastModified {
        return Ok(UpToDate);
      }
      var text := template;
      for i := 0 to |order|
        invariant text == Expand(template, Pairs(params, order[..i]))
      {
        assert Pairs(params, order[..i + 1])[..i] == Pairs(params, order[..i]);
        text := ReplaceAll(text, order[i], params[order[i]]);
      }
      assert order[..|order|] == order;
      r := Ok(Written(outFile, text));
    }

    /** `exec`: merge the inputs, render the fragments in the map's iteration order
        `keyOrder`, split the class name, then `output` with the parameters in the
        order `paramOrder`. */
    method Exec(disk: Disk, keyOrder: seq<Option<string>>, paramOrder: seq<string>, template: string,
                outputs: map<Path, int>) returns (r: Result<Outcome, Crash>)
      requires WellFormedDisk(disk)
      requires Enumerates(keyOrder, Merged(disk, config.inFiles).Keys)
      requires Enumerates(paramOrder, Placeholders)
      modifies this`lastModified
      ensures lastModified == Newest(disk, config.inFiles, old(lastModified))
      ensures r == ExecResult(config, lastModified, keyOrder, paramOrder, template, outputs)
    {
      var entries := LoadInputs(disk);
      var fragments := RenderFragments(keyOrder);
      if fragments.Err? {
        return Err(NullKey);
      }
      var pkg := PackageName(config.outClassName);
      if pkg.None? {
        return Err(NoPackage);
      }
      var params := Params(config, pkg.value, fragments.value);
      r := Output(params, paramOrder, template, outputs);
    }
  }

  /** The outcome of `exec` once the merge has produced `newest` and the keys. */
  function ExecResult(config: Config, newest: int, keyOrder: seq<Option<string>>, paramOrder: seq<string>,
                      template: string, outputs: map<Path, int>): Result<Outcome, Crash>
    requires Enumerates(paramOrder, Placeholders)
  {
    if None in keyOrder then Err(NullKey)
    else
      var f := Fragments(Concat(DeclarationFragments(Names(keyOrder))), Concat(AssignmentFragments(Names(keyOrder))));
      match PackageName(config.outClassName)
      case None => Err(NoPackage)
      case Some(p) => OutputResult(config, newest, Params(config, p, f), paramOrder, template, outputs)
  }

  /** The crashes of `exec`, in the order they happen (a `null` key while rendering comes
      before the package name is asked for), and otherwise the gate and the expansion of
      the template with the rendered fragments. */
  lemma ExecOutcome(config: Config, newest: int, keyOrder: seq<Option<string>>, paramOrder: seq<string>,
                    template: string, outputs: map<Path, int>)
    requires Enumerates(paramOrder, Placeholders)
    ensures ExecResult(config, newest, keyOrder, paramOrder, template, outputs) == Err(NullKey) <==> None in keyOrder
    ensures ExecResult(config, newest, keyOrder, paramOrder, template, outputs) == Err(NoPackage) <==>
              None !in keyOrder && '.' !in config.outClassName
    ensures None !in keyOrder && '.' in config.outClassName ==>
              var path := OutputPath([config.outSourceDir], config.outClassName).value;
              var params := Params(config, PackageName(config.outClassName).value,
                                   Fragments(Concat(DeclarationFragments(Names(keyOrder))),
                                             Concat(AssignmentFragments(Names(keyOrder)))));
              (ExecResult(config, newest, keyOrder, paramOrder, template, outputs) == Ok(UpToDate) <==>
                 path in outputs && outputs[path] >= newest) &&
              (path !in outputs || outputs[path] < newest ==>
                 ExecResult(config, newest, keyOrder, paramOrder, template, outputs) ==
                 Ok(Written(path, Expand(template, Pairs(params, paramOrder)))))
  {
    if None !in keyOrder && '.' in config.outClassName {
      var f := Fragments(Concat(DeclarationFragments(Names(keyOrder))), Concat(AssignmentFragments(Names(keyOrder))));
      OutputGate(config, newest, Params(config, PackageName(config.outClassName).value, f), paramOrder,
                 template, outputs);
    }
  }

  /** A template without placeholders is written as it is, whatever was merged. */
  lemma ExecPlainTemplate(config: Config, newest: int, keyOrder: seq<Option<string>>, paramOrder: seq<string>,
                          template: string, outputs: map<Path, int>)
    requires Enumerates(paramOrder, Placeholders)
    requires forall t, j :: t in Placeholders && 0 <= j <= |template| ==> !MatchAt(template, t, j)
    requires ExecResult(config, newest, keyOrder, paramOrder, template, outputs).Ok?
    requires ExecResult(config, newest, keyOrder, paramOrder, template, outputs).value.Written?
    ensures ExecResult(config, newest, keyOrder, paramOrder, template, outputs).value.text == template
  {
    var f := Fragments(Concat(DeclarationFragments(Names(keyOrder))), Concat(AssignmentFragments(Names(keyOrder))));
    var params := Params(config, PackageName(config.outClassName).value, f);
    var pairs := Pairs(params, paramOrder);
    forall i, j | 0 <= i < |pairs| && 0 <= j <= |template| ensures !MatchAt(template, pairs[i].0, j) {
      assert pairs[i].0 == paramOrder[i] && paramOrder[i] in Placeholders;
    }
    ExpandWithoutPlaceholders(template, pairs);
  }
}
