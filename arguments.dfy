/** The command line of the generator: the `ARG` switches and the constructor's
    loop that sorts each token into a switch, a switch's value or an input file,
    followed by the required-option checks. */
module Arguments {
  import opened Wrappers

  /** The three options, `ARG.APP_ID`, `ARG.NAME` and `ARG.DIR`. */
  datatype Flag = AppId | Name | Dir

  /** The switches spelling each option. */
  function Switches(f: Flag): seq<string>
  {
    match f
    case AppId => ["-a", "--application-id"]
    case Name => ["-n", "--class-name"]
    case Dir => ["-s", "--src-dir"]
  }

  /** `ARG.values()`, in declaration order. */
  const AllFlags: seq<Flag> := [AppId, Name, Dir]

  /** The first flag of `fs` that `s` spells. */
  function FindFlag(s: string, fs: seq<Flag>): Option<Flag>
    decreases |fs|
  {
    if fs == [] then None
    else if s in Switches(fs[0]) then Some(fs[0])
    else FindFlag(s, fs[1..])
  }

  /** `ARG.fromString`: the option a token spells, or `None` (Java `null`). */
  function FromString(s: string): (r: Option<Flag>)
    ensures forall f :: r == Some(f) <==> s in Switches(f)
  {
    FindFlag(s, AllFlags)
  }

  /** What the constructor's loop has built so far: the pending option `a` and the fields. */
  datatype Scan = Scan(pending: Option<Flag>,
                       appId: Option<string>, className: Option<string>, srcDir: Option<string>,
                       inFiles: seq<string>)

  const Initial := Scan(None, None, None, None, [])

  /** The field an option assigns. */
  function Field(st: Scan, f: Flag): Option<string>
  {
    match f
    case AppId => st.appId
    case Name => st.className
    case Dir => st.srcDir
  }

  /** One turn of the loop: with no pending option the token is a switch or an
      input file; with one pending it is that option's value, whatever it looks like. */
  function Step(st: Scan, arg: string): Scan
  {
    match st.pending
    case None =>
      var a := FromString(arg);
      if a.None? then st.(inFiles := st.inFiles + [arg]) else st.(pending := a)
    case Some(f) =>
      match f
      case AppId => st.(appId := Some(arg), pending := None)
      case Name => st.(className := Some(arg), pending := None)
      case Dir => st.(srcDir := Some(arg), pending := None)
  }

  /** The loop run over all tokens. */
  function ScanAll(args: seq<string>): Scan
    decreases |args|
  {
    if args == [] then Initial else Step(ScanAll(args[..|args| - 1]), args[|args| - 1])
  }

  /** The `IllegalArgumentException`s of the constructor, in the order it checks them. */
  datatype ArgError = DanglingFlag | MissingAppId | MissingSrcDir | MissingClassName | NoInputFiles

  /** The configuration of a constructed generator. */
  datatype Config = Config(applicationId: string, outClassName: string, outSourceDir: string,
                           inFiles: seq<string>)

  /** The checks after the loop. */
  function Check(st: Scan): Result<Config, ArgError>
  {
    if st.pending.Some? then Err(DanglingFlag)
    else if st.appId.None? then Err(MissingAppId)
    else if st.srcDir.None? then Err(MissingSrcDir)
    else if st.className.None? then Err(MissingClassName)
    else if |st.inFiles| == 0 then Err(NoInputFiles)
    else Ok(Config(st.appId.value, st.className.value, st.srcDir.value, st.inFiles))
  }

  /** The constructor, as a value. */
  function Parse(args: seq<string>): Result<Config, ArgError>
  {
    Check(ScanAll(args))
  }

  /** The constructor `ResLoaderGen(String[] args)`: the loop over the tokens with
      its pending option, then the checks. */
  method ParseArgs(args: seq<string>) returns (r: Result<Config, ArgError>)
    ensures r == Parse(args)
  {
    var a: Option<Flag> := None;
    var appId: Option<string> := None;
    var className: Option<string> := None;
    var srcDir: Option<string> := None;
    var inFiles: seq<string> := [];
    for i := 0 to |args|
      invariant Scan(a, appId, className, srcDir, inFiles) == ScanAll(args[..i])
    {
      var arg := args[i];
      assert args[..i + 1][..i] == args[..i];
      if a == None {
        a := FromString(arg);
        if a == None {
          inFiles := inFiles + [arg];
        }
      } else {
        match a.value {
          case AppId => appId := Some(arg);
          case Dir => srcDir := Some(arg);
          case Name => className := Some(arg);
        }
        a := None;
      }
    }
    assert args[..|args|] == args;
    if a != None {
      return Err(DanglingFlag);
    }
    if appId == None {
      return Err(MissingAppId);
    }
    if srcDir == None {
      return Err(MissingSrcDir);
    }
    if className == None {
      return Err(MissingClassName);
    }
    if |inFiles| == 0 {
      return Err(NoInputFiles);
    }
    r := Ok(Config(appId.value, className.value, srcDir.value, inFiles));
  }

  // ---------------------------------------------------------------------------
  // An independent account of the token positions, and its agreement with the loop.

  /** Token `i` is the value of the switch before it: the token before is a switch
      that is not itself a value. */
  predicate IsValueAt(args: seq<string>, i: nat)
    requires i < |args|
    decreases i
  {
    i > 0 && !IsValueAt(args, i - 1) && FromString(args[i - 1]).Some?
  }

  /** Whether token `i` is a value depends only on the tokens up to `i`. */
  lemma {:induction false} IsValueAtPrefix(args: seq<string>, n: nat, i: nat)
    requires i < n <= |args|
    ensures IsValueAt(args[..n], i) == IsValueAt(args, i)
    decreases i
  {
    if i > 0 {
      IsValueAtPrefix(args, n, i - 1);
    }
  }

  /** The tokens that are neither switches nor values, in order. */
  function Positionals(args: seq<string>): seq<string>
    decreases |args|
  {
    if args == [] then []
    else
      var n := |args| - 1;
      Positionals(args[..n]) + (if !IsValueAt(args, n) && FromString(args[n]).None? then [args[n]] else [])
  }

  /** The value given to option `f` by its last occurrence as a switch. */
  function LastValue(args: seq<string>, f: Flag): Option<string>
    decreases |args|
  {
    if args == [] then None
    else
      var n := |args| - 1;
      if IsValueAt(args, n) && FromString(args[n - 1]) == Some(f) then Some(args[n])
      else LastValue(args[..n], f)
  }

  /** The option left pending after all tokens: the last token, when it is a switch
      that is not a value. */
  function Dangling(args: seq<string>): Option<Flag>
  {
    if args == [] || IsValueAt(args, |args| - 1) then None else FromString(args[|args| - 1])
  }

  /** The last token is a value exactly when the tokens before it leave a switch
      dangling, and that switch is the token before it. */
  lemma ValueIffPending(args: seq<string>)
    requires |args| > 0
    ensures IsValueAt(args, |args| - 1) <==> Dangling(args[..|args| - 1]).Some?
    ensures IsValueAt(args, |args| - 1) ==> FromString(args[|args| - 2]) == Dangling(args[..|args| - 1])
  {
    var n := |args| - 1;
    if n > 0 {
      IsValueAtPrefix(args, n, n - 1);
      assert args[..n][n - 1] == args[n - 1];
    }
  }

  /** The loop agrees with the positional account: the pending option, the input files
      and the value of every option. */
  lemma {:induction false} ScanAllMeaning(args: seq<string>)
    ensures ScanAll(args).pending == Dangling(args)
    ensures ScanAll(args).inFiles == Positionals(args)
    ensures forall f :: Field(ScanAll(args), f) == LastValue(args, f)
    decreases |args|
  {
    if args != [] {
      var n := |args| - 1;
      ScanAllMeaning(args[..n]);
      ValueIffPending(args);
      assert ScanAll(args) == Step(ScanAll(args[..n]), args[n]);
    }
  }

  /** A token after a pending switch is taken as that switch's value, even when it
      spells a switch itself; no input file is added and nothing is left pending. */
  lemma ValueAfterSwitch(p: seq<string>, f: Flag, t: string)
    requires ScanAll(p).pending == Some(f)
    ensures Field(ScanAll(p + [t]), f) == Some(t)
    ensures ScanAll(p + [t]).pending == None
    ensures ScanAll(p + [t]).inFiles == ScanAll(p).inFiles
    ensures forall g :: g != f ==> Field(ScanAll(p + [t]), g) == Field(ScanAll(p), g)
  {
    assert (p + [t])[..|p|] == p;
  }

  /** With nothing pending, a token that spells no switch becomes an input file. */
  lemma OtherTokenIsFile(p: seq<string>, t: string)
    requires ScanAll(p).pending == None
    requires FromString(t) == None
    ensures ScanAll(p + [t]).inFiles == ScanAll(p).inFiles + [t]
    ensures ScanAll(p + [t]).pending == None
  {
    assert (p + [t])[..|p|] == p;
  }

  /** A token that does not spell a switch of `f` leaves `f` alone and does not make
      it pending, unless `f` was pending already. */
  lemma StepKeeps(st: Scan, t: string, f: Flag)
    requires st.pending != Some(f)
    requires t !in Switches(f)
    ensures Field(Step(st, t), f) == Field(st, f)
    ensures Step(st, t).pending != Some(f)
  {
  }

  /** Tokens that spell no switch of `f`, read when `f` is not pending, leave `f` as it is. */
  lemma {:induction false} KeepsField(r: seq<string>, q: seq<string>, f: Flag)
    requires ScanAll(r).pending != Some(f)
    requires forall t :: t in q ==> t !in Switches(f)
    ensures Field(ScanAll(r + q), f) == Field(ScanAll(r), f)
    ensures ScanAll(r + q).pending != Some(f)
    decreases |q|
  {
    if q == [] {
      assert r + q == r;
    } else {
      var r' := r + [q[0]];
      assert r'[..|r|] == r;
      StepKeeps(ScanAll(r), q[0], f);
      KeepsField(r', q[1..], f);
      assert r' + q[1..] == r + q;
    }
  }

  /** After a switch and its value nothing is pending, and the option holds the value. */
  lemma ValueAfterSwitchState(p: seq<string>, s: string, v: string, f: Flag)
    requires ScanAll(p).pending == None
    requires s in Switches(f)
    ensures ScanAll(p + [s, v]).pending == None
    ensures Field(ScanAll(p + [s, v]), f) == Some(v)
  {
    assert (p + [s, v])[..|p| + 1] == p + [s];
    assert (p + [s])[..|p|] == p;
  }

  /** A repeated option: a switch of `f` followed by `v` sets `f` to `v`, and no
      later token changes it unless it spells a switch of `f`. */
  lemma LaterValueWins(p: seq<string>, s: string, v: string, q: seq<string>, f: Flag)
    requires ScanAll(p).pending == None
    requires s in Switches(f)
    requires forall t :: t in q ==> t !in Switches(f)
    ensures Field(ScanAll(p + [s, v] + q), f) == Some(v)
    ensures ScanAll(p + [s, v] + q).pending != Some(f)
  {
    ValueAfterSwitchState(p, s, v, f);
    KeepsField(p + [s, v], q, f);
  }

  /** The constructor succeeds exactly when no switch dangles, all three options are
      given and there is an input file; the configuration then holds the last value
      of each option and the input files in order. */
  lemma ParseOutcome(args: seq<string>)
    ensures Parse(args).Ok? <==>
      Dangling(args) == None && LastValue(args, AppId).Some? && LastValue(args, Dir).Some? &&
      LastValue(args, Name).Some? && |Positionals(args)| > 0
    ensures Parse(args).Ok? ==>
              Parse(args).value ==
              Config(LastValue(args, AppId).value, LastValue(args, Name).value,
                     LastValue(args, Dir).value, Positionals(args))
    ensures Dangling(args).Some? ==> Parse(args) == Err(DanglingFlag)
    ensures Dangling(args) == None && LastValue(args, AppId) == None ==> Parse(args) == Err(MissingAppId)
    ensures Dangling(args) == None && LastValue(args, AppId).Some? && LastValue(args, Dir) == None ==>
              Parse(args) == Err(MissingSrcDir)
    ensures (Dangling(args) == None && LastValue(args, AppId).Some? && LastValue(args, Dir).Some? &&
             LastValue(args, Name) == None) ==> Parse(args) == Err(MissingClassName)
    ensures (Dangling(args) == None && LastValue(args, AppId).Some? && LastValue(args, Dir).Some? &&
             LastValue(args, Name).Some? && Positionals(args) == []) ==> Parse(args) == Err(NoInputFiles)
  {
    ScanAllMeaning(args);
    assert Field(ScanAll(args), AppId) == LastValue(args, AppId);
    assert Field(ScanAll(args), Dir) == LastValue(args, Dir);
    assert Field(ScanAll(args), Name) == LastValue(args, Name);
  }

  /** One more token, with the loop states before and after it given. */
  lemma ScanStep(p: seq<string>, t: string, before: Scan, after: Scan)
    requires ScanAll(p) == before && Step(before, t) == after
    ensures ScanAll(p + [t]) == after
  {
    assert (p + [t])[..|p|] == p;
  }

  /** A configuration with each required option and one input file. */
  lemma ParseExample()
    ensures Parse(["-a", "com.x", "--class-name", "com.x.gen.R2", "-s", "/out", "strings.xml"]) ==
            Ok(Config("com.x", "com.x.gen.R2", "/out", ["strings.xml"]))
  {
    assert FromString("-a") == Some(AppId);
    assert FromString("--class-name") == Some(Name);
    assert FromString("-s") == Some(Dir);
    assert FromString("strings.xml") == None by {
      assert "strings.xml" !in Switches(AppId) && "strings.xml" !in Switches(Name);
      assert "strings.xml" !in Switches(Dir);
    }
    var s1 := Initial.(pending := Some(AppId));
    var s2 := Initial.(appId := Some("com.x"));
    var s3 := s2.(pending := Some(Name));
    var s4 := s2.(className := Some("com.x.gen.R2"));
    var s5 := s4.(pending := Some(Dir));
    var s6 := s4.(srcDir := Some("/out"));
    var s7 := s6.(inFiles := ["strings.xml"]);
    var p0: seq<string> := [];
    ScanStep(p0, "-a", Initial, s1);
    var p1 := p0 + ["-a"];
    ScanStep(p1, "com.x", s1, s2);
    var p2 := p1 + ["com.x"];
    ScanStep(p2, "--class-name", s2, s3);
    var p3 := p2 + ["--class-name"];
    ScanStep(p3, "com.x.gen.R2", s3, s4);
    var p4 := p3 + ["com.x.gen.R2"];
    ScanStep(p4, "-s", s4, s5);
    var p5 := p4 + ["-s"];
    ScanStep(p5, "/out", s5, s6);
    var p6 := p5 + ["/out"];
    assert [] + ["strings.xml"] == ["strings.xml"];
    ScanStep(p6, "strings.xml", s6, s7);
    var p7 := p6 + ["strings.xml"];
    assert p7 == ["-a", "com.x", "--class-name", "com.x.gen.R2", "-s", "/out", "strings.xml"];
  }

  /** A switch at the end with no value is refused. */
  lemma DanglingExample()
    ensures Parse(["strings.xml", "-s"]) == Err(DanglingFlag)
  {
    var args := ["strings.xml", "-s"];
    assert FromString("-s") == Some(Dir);
    assert args[..1] == ["strings.xml"];
    assert args[..1][..0] == [];
  }
}
