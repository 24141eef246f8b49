/** The lint wrapper's command line: read the user's arguments, and build the ones handed on. */
module WrapperArgs {

  // ---------------------------------------------------------------------------------------------
  // Single arguments
  // ---------------------------------------------------------------------------------------------

  /** What an argument before the separator does. */
  datatype Effect = TakesManifest | NamesManifest | TakesPackage | NamesPackage | Fixes | SkipsDeps | TakesLibrary
                  | NamesLibrary | NoEffect

  function Separator(): string { "--" }
  function ManifestFlag(): string { "--manifest-path" }
  function WorkspaceFlag(): string { "--workspace" }
  function NoDepsFlag(): string { "--no-deps" }
  function AllTargetsFlag(): string { "--all-targets" }

  function EffectOf(arg: string): Effect
  {
    if arg == ManifestFlag() then TakesManifest
    else if "--manifest-path=" <= arg then NamesManifest
    else if arg == "-p" || arg == "--package" then TakesPackage
    else if "--package=" <= arg then NamesPackage
    else if arg == "--fix" then Fixes
    else if arg == WorkspaceFlag() then NamesPackage
    else if arg == NoDepsFlag() then SkipsDeps
    else if arg == "--lib" || arg == "--lib-path" then TakesLibrary
    else if "--lib=" <= arg || "--lib-path=" <= arg then NamesLibrary
    else NoEffect
  }

  /** An argument behind the separator that selects targets. */
  predicate SelectsTargets(arg: string)
  {
    || arg == AllTargetsFlag() || arg == "--lib" || arg == "--bins" || arg == "--tests" || arg == "--examples"
    || arg == "--benches" || arg == "--doc" || arg == "--bin" || arg == "--test" || arg == "--example" || arg == "--bench"
    || "--bin=" <= arg || "--test=" <= arg || "--example=" <= arg || "--bench=" <= arg
  }

  lemma OwnArguments()
    ensures EffectOf(ManifestFlag()) == TakesManifest && EffectOf(WorkspaceFlag()) == NamesPackage
    ensures EffectOf(NoDepsFlag()) == SkipsDeps && SelectsTargets(AllTargetsFlag())
    ensures ManifestFlag() != Separator() && WorkspaceFlag() != Separator() && NoDepsFlag() != Separator()
  {
    assert |"--manifest-path="| > |ManifestFlag()|;
    assert WorkspaceFlag()[2] == 'w' && NoDepsFlag()[2] == 'n' && ManifestFlag()[2] == 'm';
    assert "--manifest-path="[2] == 'm' && "--package="[2] == 'p' && "--fix"[2] == 'f' && "--package"[2] == 'p';
    assert "--lib"[2] == 'l' && "--lib-path"[2] == 'l';
  }

  // ---------------------------------------------------------------------------------------------
  // Reading
  // ---------------------------------------------------------------------------------------------

  /** What the next argument is the value of. */
  datatype Awaited = Nothing | Manifest | Package | Library

  datatype Flags = Flags(manifest: bool, package: bool, noDeps: bool, library: bool, fix: bool, awaited: Awaited)

  const NO_FLAGS := Flags(false, false, false, false, false, Nothing)

  function Apply(flags: Flags, effect: Effect): Flags
  {
    match effect
    case TakesManifest => flags.(awaited := Manifest)
    case NamesManifest => flags.(manifest := true)
    case TakesPackage => flags.(awaited := Package)
    case NamesPackage => flags.(package := true)
    case Fixes => flags.(fix := true)
    case SkipsDeps => flags.(noDeps := true)
    case TakesLibrary => flags.(awaited := Library)
    case NamesLibrary => flags.(library := true)
    case NoEffect => flags
  }

  /** The awaited value has come. */
  function Take(flags: Flags): Flags
  {
    Flags(flags.manifest || flags.awaited == Manifest, flags.package || flags.awaited == Package, flags.noDeps,
          flags.library || flags.awaited == Library, flags.fix, Nothing)
  }

  function Read(flags: Flags, arg: string): Flags
  {
    if flags.awaited == Nothing then Apply(flags, EffectOf(arg)) else Take(flags)
  }

  function FlagsFrom(flags: Flags, args: seq<string>): Flags
  {
    if args == [] then flags else Read(FlagsFrom(flags, args[..|args| - 1]), args[|args| - 1])
  }

  predicate AnyTarget(args: seq<string>)
  {
    exists i :: 0 <= i < |args| && SelectsTargets(args[i])
  }

  /** Where the first separator stands, value or not; the number of arguments when there is none. */
  function SeparatorAt(argv: seq<string>): (k: nat)
    ensures k <= |argv| && Separator() !in argv[..k] && (k < |argv| ==> argv[k] == Separator())
  {
    if argv == [] || argv[0] == Separator() then 0 else 1 + SeparatorAt(argv[1..])
  }

  datatype Parsed = Parsed(lint: seq<string>, cargo: seq<string>, flags: Flags, target: bool)

  /** The user's arguments, split at the first separator. */
  function Parse(argv: seq<string>): Parsed
  {
    var k := SeparatorAt(argv);
    var cargo := if k < |argv| then argv[k + 1..] else [];
    Parsed(argv[..k], cargo, FlagsFrom(NO_FLAGS, argv[..k]), AnyTarget(cargo))
  }

  lemma {:induction false} SeparatorIs(argv: seq<string>, k: nat)
    requires k <= |argv| && Separator() !in argv[..k] && (k < |argv| ==> argv[k] == Separator())
    ensures SeparatorAt(argv) == k
  {
    hide Separator;
    if k > 0 {
      assert argv[..k][0] == argv[0] && argv[..k][1..] == argv[1..][..k - 1];
      SeparatorIs(argv[1..], k - 1);
    }
  }

  lemma SeparatorSpelled()
    ensures Separator() == "--" && ManifestFlag() == "--manifest-path" && WorkspaceFlag() == "--workspace"
    ensures NoDepsFlag() == "--no-deps" && AllTargetsFlag() == "--all-targets"
  {
  }

  lemma NothingRead()
    ensures FlagsFrom(NO_FLAGS, []) == NO_FLAGS && !AnyTarget([])
  {
  }

  lemma FlagsNext(flags: Flags, args: seq<string>, arg: string)
    ensures FlagsFrom(flags, args + [arg]) == Read(FlagsFrom(flags, args), arg)
  {
    assert (args + [arg])[..|args|] == args;
  }

  // ---------------------------------------------------------------------------------------------
  // What is read, said of the arguments themselves
  // ---------------------------------------------------------------------------------------------

  /** What each argument does. */
  lemma EffectMeans(arg: string)
    ensures EffectOf(arg) == TakesManifest <==> arg == "--manifest-path"
    ensures EffectOf(arg) == NamesManifest <==> "--manifest-path=" <= arg
    ensures EffectOf(arg) == TakesPackage <==> arg == "-p" || arg == "--package"
    ensures EffectOf(arg) == NamesPackage <==> "--package=" <= arg || arg == "--workspace"
    ensures EffectOf(arg) == Fixes <==> arg == "--fix"
    ensures EffectOf(arg) == SkipsDeps <==> arg == "--no-deps"
    ensures EffectOf(arg) == TakesLibrary <==> arg == "--lib" || arg == "--lib-path"
    ensures EffectOf(arg) == NamesLibrary <==> "--lib=" <= arg || "--lib-path=" <= arg
  {
    assert |"--manifest-path="| == 16 && |"--manifest-path"| == 15 && |"--package="| == 10 && |"--package"| == 9;
    assert |"--lib="| == 6 && |"--lib"| == 5 && |"--lib-path="| == 11 && |"--lib-path"| == 10 && |"-p"| == 2;
    assert "--manifest-path="[2] == 'm' && "--package="[2] == 'p' && "--fix"[2] == 'f' && "--workspace"[2] == 'w';
    assert "--no-deps"[2] == 'n' && "--lib"[2] == 'l' && "--lib="[2] == 'l' && "--lib-path="[2] == 'l';
    assert "--lib="[5] == '=' && "--lib-path="[5] == '-' && "--lib-path"[5] == '-' && "--lib-path"[2] == 'l';
  }

  /** The argument wants the next one as its value. */
  predicate TakesValue(arg: string)
  {
    arg == "--manifest-path" || arg == "-p" || arg == "--package" || arg == "--lib" || arg == "--lib-path"
  }

  /** The argument at this place is a value, whatever it looks like. */
  ghost predicate ValueAt(args: seq<string>, i: int)
    requires 0 <= i <= |args|
  {
    0 < i && TakesValue(args[i - 1]) && !ValueAt(args, i - 1)
  }

  datatype Choice = ManifestChosen | PackageChosen | LibraryChosen | NoDepsChosen | FixChosen

  /** The value of this argument makes the choice. */
  predicate ChoosesByValue(arg: string, choice: Choice)
  {
    match choice
    case ManifestChosen => arg == "--manifest-path"
    case PackageChosen => arg == "-p" || arg == "--package"
    case LibraryChosen => arg == "--lib" || arg == "--lib-path"
    case NoDepsChosen => false
    case FixChosen => false
  }

  /** The argument itself makes the choice. */
  predicate Chooses(arg: string, choice: Choice)
  {
    match choice
    case ManifestChosen => "--manifest-path=" <= arg
    case PackageChosen => "--package=" <= arg || arg == "--workspace"
    case LibraryChosen => "--lib=" <= arg || "--lib-path=" <= arg
    case NoDepsChosen => arg == "--no-deps"
    case FixChosen => arg == "--fix"
  }

  ghost predicate ChosenAt(args: seq<string>, i: int, choice: Choice)
    requires 0 <= i < |args|
  {
    if ValueAt(args, i) then ChoosesByValue(args[i - 1], choice) else Chooses(args[i], choice)
  }

  ghost predicate Chosen(args: seq<string>, n: int, choice: Choice)
    requires 0 <= n <= |args|
  {
    exists i :: 0 <= i < n && ChosenAt(args, i, choice)
  }

  function FlagFor(flags: Flags, choice: Choice): bool
  {
    match choice
    case ManifestChosen => flags.manifest
    case PackageChosen => flags.package
    case LibraryChosen => flags.library
    case NoDepsChosen => flags.noDeps
    case FixChosen => flags.fix
  }

  /** What a reading awaits after an argument that takes a value. */
  predicate Awaits(awaited: Awaited, arg: string)
  {
    && (awaited == Manifest <==> ChoosesByValue(arg, ManifestChosen))
    && (awaited == Package <==> ChoosesByValue(arg, PackageChosen))
    && (awaited == Library <==> ChoosesByValue(arg, LibraryChosen))
  }

  lemma ReadMeans(flags: Flags, arg: string, choice: Choice)
    ensures flags.awaited == Nothing ==>
              && (FlagFor(Read(flags, arg), choice) <==> FlagFor(flags, choice) || Chooses(arg, choice))
              && (Read(flags, arg).awaited != Nothing <==> TakesValue(arg))
              && Awaits(Read(flags, arg).awaited, arg)
    ensures flags.awaited != Nothing ==>
              && (FlagFor(Read(flags, arg), choice) <==>
                    FlagFor(flags, choice)
                    || (flags.awaited == Manifest && choice == ManifestChosen)
                    || (flags.awaited == Package && choice == PackageChosen)
                    || (flags.awaited == Library && choice == LibraryChosen))
              && Read(flags, arg).awaited == Nothing
  {
    hide EffectOf;
    EffectMeans(arg);
  }

  lemma ChosenNext(args: seq<string>, n: nat, choice: Choice)
    requires n < |args|
    ensures Chosen(args, n + 1, choice) <==> Chosen(args, n, choice) || ChosenAt(args, n, choice)
  {
    hide ChosenAt;
    if i :| 0 <= i < n && ChosenAt(args, i, choice) {
      assert ChosenAt(args, i, choice);
    }
  }

  /** The flags are the choices the arguments make. */
  lemma {:induction false} FlagsMean(args: seq<string>, n: nat, choice: Choice)
    requires n <= |args|
    ensures var flags := FlagsFrom(NO_FLAGS, args[..n]);
            && (FlagFor(flags, choice) <==> Chosen(args, n, choice))
            && (flags.awaited != Nothing <==> ValueAt(args, n))
            && (flags.awaited != Nothing ==> Awaits(flags.awaited, args[n - 1]))
  {
    hide Read, TakesValue, Chooses, ChoosesByValue, Chosen;
    if n == 0 {
      NothingRead();
      NothingChosen(args, choice);
      assert args[..0] == [];
    } else {
      FlagsMean(args, n - 1, choice);
      assert args[..n] == args[..n - 1] + [args[n - 1]];
      FlagsNext(NO_FLAGS, args[..n - 1], args[n - 1]);
      ReadMeans(FlagsFrom(NO_FLAGS, args[..n - 1]), args[n - 1], choice);
      ChosenNext(args, n - 1, choice);
      if n > 1 {
        OneOfThree(args[n - 2]);
      }
    }
  }

  lemma OneOfThree(arg: string)
    ensures !ChoosesByValue(arg, NoDepsChosen) && !ChoosesByValue(arg, FixChosen)
    ensures ChoosesByValue(arg, ManifestChosen) ==>
              !ChoosesByValue(arg, PackageChosen) && !ChoosesByValue(arg, LibraryChosen)
    ensures ChoosesByValue(arg, PackageChosen) ==> !ChoosesByValue(arg, LibraryChosen)
  {
    assert "--manifest-path"[2] == 'm' && "--package"[2] == 'p' && "--lib"[2] == 'l' && "--lib-path"[2] == 'l';
    assert |"-p"| == 2;
  }

  lemma NothingChosen(args: seq<string>, choice: Choice)
    ensures !Chosen(args, 0, choice) && !ValueAt(args, 0)
  {
  }

  /** The arguments behind the separator that select targets. */
  lemma SelectsMeans(arg: string)
    ensures SelectsTargets(arg) <==>
              || arg in ["--all-targets", "--lib", "--bins", "--tests", "--examples", "--benches", "--doc"]
              || arg in ["--bin", "--test", "--example", "--bench"]
              || "--bin=" <= arg || "--test=" <= arg || "--example=" <= arg || "--bench=" <= arg
  {
  }

  /** The flags of a reading are the choices made before the separator and the targets selected behind it. */
  ghost predicate ChoicesRead(parsed: Parsed)
  {
    && (forall choice {:trigger FlagFor(parsed.flags, choice)} ::
          FlagFor(parsed.flags, choice) <==> Chosen(parsed.lint, |parsed.lint|, choice))
    && (parsed.target <==> exists i :: 0 <= i < |parsed.cargo| && SelectsTargets(parsed.cargo[i]))
  }

  lemma ParsedChoices(argv: seq<string>)
    ensures ChoicesRead(Parse(argv))
  {
    hide FlagsFrom, Chosen, SelectsTargets, SeparatorAt, Separator;
    var lint := Parse(argv).lint;
    assert lint[..|lint|] == lint;
    forall choice ensures FlagFor(Parse(argv).flags, choice) <==> Chosen(lint, |lint|, choice) {
      FlagsMean(lint, |lint|, choice);
    }
  }

  /** The wrapper's reading loop: it splits at the first `--` and sets the flags by what the arguments choose. */
  method ParseArgs(argv: seq<string>) returns (parsed: Parsed)
    ensures parsed == Parse(argv)
    ensures "--" !in parsed.lint && (argv == parsed.lint + ["--"] + parsed.cargo || (argv == parsed.lint && parsed.cargo == []))
    ensures ChoicesRead(parsed)
  {
    hide ChoicesRead, Separator, Read, SelectsTargets, SeparatorAt, FlagsFrom, AnyTarget;
    NothingRead();
    var lint: seq<string>, cargo: seq<string>, flags, target, after := [], [], NO_FLAGS, false, false;
    ghost var k := 0;
    for i := 0 to |argv|
      invariant 0 <= k <= i && Separator() !in argv[..k]
      invariant lint == argv[..k] && flags == FlagsFrom(NO_FLAGS, lint)
      invariant after ==> k < i && argv[k] == Separator() && cargo == argv[k + 1..i]
      invariant !after ==> k == i && cargo == []
      invariant target <==> AnyTarget(cargo)
    {
      var arg := argv[i];
      if after {
        AnyTargetNext(cargo, arg);
        cargo := cargo + [arg];
        if SelectsTargets(arg) {
          target := true;
        }
      } else if arg == Separator() {
        after := true;
      } else {
        assert argv[..i + 1] == argv[..i] + [arg];
        FlagsNext(NO_FLAGS, lint, arg);
        lint := lint + [arg];
        flags := Read(flags, arg);
        k := i + 1;
      }
    }
    SeparatorIs(argv, k);
    assert after ==> argv[k + 1..|argv|] == argv[k + 1..];
    ParsedChoices(argv);
    SeparatorSpelled();
    assert after ==> argv == lint + [Separator()] + cargo;
    return Parsed(lint, cargo, flags, target);
  }

  lemma AnyTargetNext(args: seq<string>, arg: string)
    ensures AnyTarget(args + [arg]) <==> AnyTarget(args) || SelectsTargets(arg)
  {
    hide SelectsTargets;
    var all := args + [arg];
    assert forall i :: 0 <= i < |args| ==> all[i] == args[i];
    assert all[|args|] == arg;
    if i :| 0 <= i < |args| && SelectsTargets(args[i]) {
      assert SelectsTargets(all[i]);
    }
  }

  // ---------------------------------------------------------------------------------------------
  // Building
  // ---------------------------------------------------------------------------------------------

  /** What goes in front of the user's lint arguments. */
  function Added(flags: Flags, path: string): seq<string>
  {
    AddedManifest(flags, path) + AddedWorkspace(flags) + AddedNoDeps(flags)
  }

  function AddedManifest(flags: Flags, path: string): seq<string>
  {
    if flags.manifest then [] else [ManifestFlag(), path]
  }

  function AddedWorkspace(flags: Flags): seq<string>
  {
    if flags.package || flags.manifest then [] else [WorkspaceFlag()]
  }

  function AddedNoDeps(flags: Flags): seq<string>
  {
    if flags.noDeps then [] else [NoDepsFlag()]
  }

  /** The cargo arguments, with all targets unless the user selects some or fixes. */
  function CargoArgs(parsed: Parsed): seq<string>
  {
    parsed.cargo + if parsed.flags.fix || parsed.target then [] else [AllTargetsFlag()]
  }

  function Behind(cargo: seq<string>): seq<string>
  {
    if cargo == [] then [] else [Separator()] + cargo
  }

  /**
   The arguments handed on: the user's lint arguments stay together behind what is added, and the cargo
   arguments stay in order behind one separator.
   */
  function Build(parsed: Parsed, path: string): seq<string>
  {
    (Added(parsed.flags, path) + parsed.lint) + Behind(CargoArgs(parsed))
  }

  /** The lint arguments stand together behind `front`, and `cargo`, behind a separator, begins with the cargo ones. */
  ghost predicate HandsOn(parsed: Parsed, front: seq<string>, cargo: seq<string>, args: seq<string>)
  {
    args == (front + parsed.lint) + Behind(cargo) && parsed.cargo <= cargo <= parsed.cargo + [AllTargetsFlag()]
  }

  /** What is handed on, argument by argument. */
  lemma BuildSpelled(parsed: Parsed, path: string)
    ensures Build(parsed, path)
         == (if parsed.flags.manifest then [] else ["--manifest-path", path])
            + (if parsed.flags.package || parsed.flags.manifest then [] else ["--workspace"])
            + (if parsed.flags.noDeps then [] else ["--no-deps"])
            + parsed.lint
            + (if parsed.flags.fix || parsed.target
               then if parsed.cargo == [] then [] else ["--"] + parsed.cargo
               else ["--"] + (parsed.cargo + ["--all-targets"]))
  {
    hide Separator, ManifestFlag, WorkspaceFlag, NoDepsFlag, AllTargetsFlag;
    SeparatorSpelled();
    assert parsed.cargo + [] == parsed.cargo;
  }

  method BuildFinalArgs(parsed: Parsed, path: string) returns (args: seq<string>)
    ensures args == Build(parsed, path)
    ensures exists front, cargo :: HandsOn(parsed, front, cargo, args)
  {
    hide Separator, ManifestFlag, WorkspaceFlag, NoDepsFlag, AllTargetsFlag;
    var flags, cargo := parsed.flags, parsed.cargo;
    args := [];
    if !flags.manifest {
      args := args + [ManifestFlag(), path];
    }
    ghost var first := args;
    assert first == AddedManifest(flags, path);
    if !flags.package && !flags.manifest {
      args := args + [WorkspaceFlag()];
    }
    ghost var second := args;
    assert second == first + AddedWorkspace(flags);
    if !flags.noDeps {
      args := args + [NoDepsFlag()];
    }
    ghost var third := args;
    assert third == second + AddedNoDeps(flags);
    if !flags.fix && !parsed.target {
      cargo := cargo + [AllTargetsFlag()];
    }
    assert cargo == CargoArgs(parsed);
    args := args + parsed.lint;
    if cargo != [] {
      args := args + ([Separator()] + cargo);
    }
    assert args == (third + parsed.lint) + Behind(cargo);
    assert HandsOn(parsed, third, cargo, args);
  }

  // ---------------------------------------------------------------------------------------------
  // Reading what was built
  // ---------------------------------------------------------------------------------------------

  function Final(argv: seq<string>, path: string): seq<string>
  {
    Build(Parse(argv), path)
  }

  /** The flags of both, awaiting what the second awaits. */
  function Both(a: Flags, b: Flags): Flags
  {
    Flags(a.manifest || b.manifest, a.package || b.package, a.noDeps || b.noDeps, a.library || b.library,
          a.fix || b.fix, b.awaited)
  }

  lemma {:induction false} FlagsConcat(flags: Flags, a: seq<string>, b: seq<string>)
    ensures FlagsFrom(flags, a + b) == FlagsFrom(FlagsFrom(flags, a), b)
    decreases |b|
  {
    hide Read;
    if b == [] {
      assert a + b == a;
    } else {
      assert (a + b)[..|a + b| - 1] == a + b[..|b| - 1];
      FlagsConcat(flags, a, b[..|b| - 1]);
    }
  }

  lemma ApplyAddsUp(a: Flags, b: Flags, effect: Effect)
    requires a.awaited == Nothing
    ensures Apply(Both(a, b), effect) == Both(a, Apply(b, effect))
  {
    match effect {
      case TakesManifest =>
      case NamesManifest =>
      case TakesPackage =>
      case NamesPackage =>
      case Fixes =>
      case SkipsDeps =>
      case TakesLibrary =>
      case NamesLibrary =>
      case NoEffect =>
    }
  }

  lemma TakeAddsUp(a: Flags, b: Flags)
    ensures Take(Both(a, b)) == Both(a, Take(b))
  {
  }

  lemma ReadAddsUp(a: Flags, b: Flags, arg: string)
    requires a.awaited == Nothing
    ensures Read(Both(a, b), arg) == Both(a, Read(b, arg))
  {
    hide EffectOf, Apply, Take;
    ApplyAddsUp(a, b, EffectOf(arg));
    TakeAddsUp(a, b);
  }

  /** Flags already set do not change how arguments are read. */
  lemma {:induction false} FlagsAddUp(flags: Flags, args: seq<string>)
    requires flags.awaited == Nothing
    ensures FlagsFrom(flags, args) == Both(flags, FlagsFrom(NO_FLAGS, args))
  {
    hide Read;
    if args != [] {
      FlagsAddUp(flags, args[..|args| - 1]);
      ReadAddsUp(flags, FlagsFrom(NO_FLAGS, args[..|args| - 1]), args[|args| - 1]);
    }
  }

  /** The added arguments set what was missing, and await nothing. */
  lemma AddedRead(flags: Flags, path: string)
    ensures FlagsFrom(NO_FLAGS, Added(flags, path))
         == Flags(!flags.manifest, !flags.package && !flags.manifest, !flags.noDeps, false, false, Nothing)
  {
    hide EffectOf, ManifestFlag, WorkspaceFlag, NoDepsFlag, SelectsTargets, Separator;
    OwnArguments();
    var a, b, c := AddedManifest(flags, path), AddedWorkspace(flags), AddedNoDeps(flags);
    FlagsConcat(NO_FLAGS, a + b, c);
    FlagsConcat(NO_FLAGS, a, b);
    PairRead(NO_FLAGS, ManifestFlag(), path);
    OneRead(FlagsFrom(NO_FLAGS, a), WorkspaceFlag());
    OneRead(FlagsFrom(NO_FLAGS, a + b), NoDepsFlag());
  }

  lemma OneRead(flags: Flags, arg: string)
    ensures FlagsFrom(flags, [arg]) == Read(flags, arg) && FlagsFrom(flags, []) == flags
  {
    hide Read;
    assert [arg][..0] == [];
  }

  lemma PairRead(flags: Flags, a: string, b: string)
    ensures FlagsFrom(flags, [a, b]) == Read(Read(flags, a), b)
  {
    hide Read;
    OneRead(flags, a);
    assert [a, b][..1] == [a];
  }

  lemma AddedHasNoSeparator(flags: Flags, path: string)
    requires path != Separator() || flags.manifest
    ensures Separator() !in Added(flags, path)
  {
    hide EffectOf, ManifestFlag, WorkspaceFlag, NoDepsFlag, SelectsTargets, Separator;
    OwnArguments();
  }

  /** What was built is read as the added and the user's lint arguments, and the cargo arguments. */
  lemma BuiltReads(front: seq<string>, cargo: seq<string>)
    requires Separator() !in front
    ensures Parse(front + Behind(cargo)) == Parsed(front, cargo, FlagsFrom(NO_FLAGS, front), AnyTarget(cargo))
  {
    hide Separator, FlagsFrom, AnyTarget, SeparatorAt;
    var argv := front + Behind(cargo);
    assert argv[..|front|] == front;
    SeparatorIs(argv, |front|);
    assert cargo != [] ==> argv[|front| + 1..] == cargo;
  }

  lemma LintHasNoSeparator(argv: seq<string>)
    ensures Separator() !in Parse(argv).lint
  {
  }

  lemma TargetsSelected(parsed: Parsed)
    requires parsed.target <==> AnyTarget(parsed.cargo)
    ensures AnyTarget(CargoArgs(parsed)) <==> parsed.target || !parsed.flags.fix
  {
    hide SelectsTargets, AllTargetsFlag, AnyTarget;
    OwnArguments();
    AnyTargetNext(parsed.cargo, AllTargetsFlag());
    assert parsed.cargo + [] == parsed.cargo;
  }

  /**
   What is handed on names a manifest and skips dependencies, and selects targets unless it fixes. A user's
   manifest path, package, fix and targets are not overruled: the flags read from it are the user's, with
   only what was missing added.
   */
  lemma FinalIsComplete(argv: seq<string>, path: string)
    requires path != Separator() || Parse(argv).flags.manifest
    ensures var user, final := Parse(argv), Parse(Final(argv, path));
            && final.flags.manifest && final.flags.noDeps && (final.flags.fix || final.target)
            && final.flags.fix == user.flags.fix && final.flags.library == user.flags.library
            && final.flags.package == (user.flags.package || !user.flags.manifest)
            && final.lint == Added(user.flags, path) + user.lint && final.cargo == CargoArgs(user)
  {
    hide Separator, ManifestFlag, WorkspaceFlag, NoDepsFlag, AllTargetsFlag, FlagsFrom, AnyTarget, SeparatorAt;
    var parsed := Parse(argv);
    var added := Added(parsed.flags, path);
    LintHasNoSeparator(argv);
    AddedHasNoSeparator(parsed.flags, path);
    BuiltReads(added + parsed.lint, CargoArgs(parsed));
    AddedRead(parsed.flags, path);
    FlagsConcat(NO_FLAGS, added, parsed.lint);
    FlagsAddUp(FlagsFrom(NO_FLAGS, added), parsed.lint);
    TargetsSelected(parsed);
  }

  /** Handing on what was handed on changes nothing, when the separator is not taken for the manifest path. */
  lemma FinalIsStable(argv: seq<string>, path: string)
    requires path != Separator() || Parse(argv).flags.manifest
    ensures Final(Final(argv, path), path) == Final(argv, path)
  {
    hide Separator, ManifestFlag, WorkspaceFlag, NoDepsFlag, AllTargetsFlag, Parse;
    FinalIsComplete(argv, path);
    var user, final := Parse(argv), Parse(Final(argv, path));
    assert Added(final.flags, path) == [];
    assert [] + final.lint == final.lint && CargoArgs(final) == final.cargo + [] == final.cargo;
  }

  lemma ManifestInFront(parsed: Parsed, path: string)
    requires !parsed.flags.manifest
    ensures [ManifestFlag(), path] <= Build(parsed, path)
    ensures |Build(parsed, path)| >= 2 + |AddedNoDeps(parsed.flags)| + |parsed.lint| + |Behind(CargoArgs(parsed))|
  {
    hide Separator, ManifestFlag, WorkspaceFlag, NoDepsFlag, AllTargetsFlag, CargoArgs, Behind;
  }

  /** A separator right behind the manifest flag leaves the flag without its value. */
  lemma DanglingManifest(argv: seq<string>)
    requires [ManifestFlag(), Separator()] <= argv
    ensures var parsed := Parse(argv);
            && parsed.lint == [ManifestFlag()] && parsed.cargo == argv[2..]
            && parsed.flags == NO_FLAGS.(awaited := Manifest)
  {
    hide Separator, ManifestFlag, WorkspaceFlag, NoDepsFlag, EffectOf, SelectsTargets, SeparatorAt, FlagsFrom;
    OwnArguments();
    assert argv[0] == ManifestFlag() && argv[1] == Separator() && argv[..1] == [ManifestFlag()];
    SeparatorIs(argv, 1);
    OneRead(NO_FLAGS, ManifestFlag());
  }

  /** A manifest path that is the separator is handed on once more every time. */
  lemma SeparatorPathGrows(argv: seq<string>)
    requires !Parse(argv).flags.manifest
    ensures |Final(Final(argv, Separator()), Separator())| > |Final(argv, Separator())|
  {
    hide Parse, Build, Separator, ManifestFlag, AllTargetsFlag;
    var once := Final(argv, Separator());
    ManifestInFront(Parse(argv), Separator());
    DanglingManifest(once);
    ManifestInFront(Parse(once), Separator());
    assert |once| == 2 + |Parse(once).cargo|;
  }

  /** Reading and building is idempotent exactly when the separator is not taken for the manifest path. */
  lemma StableExactly(argv: seq<string>, path: string)
    ensures Final(Final(argv, path), path) == Final(argv, path)
       <==> path != Separator() || Parse(argv).flags.manifest
  {
    hide Final, Parse, Separator;
    if path != Separator() || Parse(argv).flags.manifest {
      FinalIsStable(argv, path);
    } else {
      SeparatorPathGrows(argv);
    }
  }

  /**
   The wrapper's use of the two: what it hands on is complete, keeps the user's lint arguments together and the
   cargo arguments in order, and is what the wrapper would hand on if it were given it; all this exactly when the
   separator is not taken for the manifest path.
   */
  method WrapArgs(argv: seq<string>, path: string) returns (args: seq<string>)
    ensures args == Final(argv, path)
    ensures Final(args, path) == args <==> path != Separator() || Parse(argv).flags.manifest
    ensures exists front, cargo :: HandsOn(Parse(argv), front, cargo, args)
    ensures path != Separator() || Parse(argv).flags.manifest ==>
              && Parse(args).flags.manifest && Parse(args).flags.noDeps
              && (Parse(args).flags.fix || Parse(args).target) && Parse(args).flags.fix == Parse(argv).flags.fix
              && Parse(argv).cargo <= Parse(args).cargo
              && exists front :: Parse(args).lint == front + Parse(argv).lint
  {
    hide Parse, Separator, HandsOn, ManifestFlag, WorkspaceFlag, NoDepsFlag, AllTargetsFlag;
    var parsed := ParseArgs(argv);
    args := BuildFinalArgs(parsed, path);
    StableExactly(argv, path);
    if path != Separator() || Parse(argv).flags.manifest {
      FinalIsComplete(argv, path);
    }
  }
}
