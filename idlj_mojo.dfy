/** The generate goal (org.codehaus.mojo.idlj.IDLJMojo): it checks that the
    Sun compiler class is present, creates the output directory, scans the
    source directory for stale IDL files, compiles each one and copies it
    into the timestamp directory, and finally registers the output
    directory as a compile source root of the project. */
module IdljMojo {
  import opened Common
  import opened SourceConfig
  import opened ArgumentSlots
  import opened JvmState
  import opened Build

  const SUN_COMPILER := "com.sun.tools.corba.se.idl.toJavaPortable.Compile"
  const COMPILER_UNAVAILABLE := "Sun IDL compiler not available"

  /** The goal's parameters; `hasProject` says whether ${project} is non-null. */
  datatype Config = Config(
    javaIdlDirectory: Option<string>,
    sourceDirectory: Option<string>,
    outputDirectory: string,
    timestampDirectory: string,
    packagePrefixes: Option<seq<PackagePrefix>>,
    hasProject: bool)

  /** checkForIDLCompiler(): Class.forName on the Sun class, with no
      fallback; only ClassNotFoundException is turned into a message. */
  function CheckForIdlCompiler(loadable: set<string>, faulty: set<string>): (r: Result<()>)
    ensures r.Success? <==> SUN_COMPILER in loadable && SUN_COMPILER !in faulty
    ensures r == Failure(MojoExecution(COMPILER_UNAVAILABLE)) <==> SUN_COMPILER !in loadable && SUN_COMPILER !in faulty
  {
    match LoadIn(loadable, faulty, SUN_COMPILER)
    case Loaded => Success(())
    case NotFound => Failure(MojoExecution(COMPILER_UNAVAILABLE))
    case Faulty => Failure(UncaughtException)
  }

  /** computeStaleGrammars(): new File(sourceDirectory) throws on null; the
      scanner is asked directly, with no test that the directory exists. */
  function StaleGrammars(sourceDirectory: Option<string>, scan: ScanResult): (r: Result<seq<string>>) {
    match sourceDirectory
    case None => Failure(NullPointer)
    case Some(dir) =>
      match scan
      case ScanFailed => Failure(MojoExecution(ScanErrorMessage(dir)))
      case Scanned(stale) => Success(stale)
  }

  /** The vector for one file once every parameter has been dereferenced. */
  function ArgumentVector(javaIdlDirectory: string, sourceDirectory: string, outputDirectory: string,
                          packagePrefixes: seq<PackagePrefix>, idlFile: string): (r: seq<string>)
  {
    ["-i", javaIdlDirectory, "-i", sourceDirectory, "-td", outputDirectory] + PrefixTriples(packagePrefixes) + [idlFile]
  }

  /** Whether building a vector dereferences a null: the two directories are
      converted with toString() and the prefix list is iterated unguarded. */
  predicate DereferencesNull(config: Config) {
    config.javaIdlDirectory.None? || config.sourceDirectory.None? || config.packagePrefixes.None?
  }

  /** The vector for one file, or the NullPointerException. */
  function Arguments(config: Config, idlFile: string): (r: Result<seq<string>>)
    ensures r.Failure? <==> DereferencesNull(config)
    ensures r.Failure? ==> r.error == NullPointer
  {
    if DereferencesNull(config) then Failure(NullPointer)
    else Success(ArgumentVector(config.javaIdlDirectory.value, config.sourceDirectory.value, config.outputDirectory,
                                config.packagePrefixes.value, idlFile))
  }

  /** Where each item lands: "-i javaIdlDirectory -i sourceDirectory -td
      outputDirectory", then one triple per prefix, and the file last. */
  lemma ArgumentVectorLayout(javaIdlDirectory: string, sourceDirectory: string, outputDirectory: string,
                             packagePrefixes: seq<PackagePrefix>, idlFile: string)
    ensures var r := ArgumentVector(javaIdlDirectory, sourceDirectory, outputDirectory, packagePrefixes, idlFile);
      && |r| == 7 + 3 * |packagePrefixes|
      && r[..6] == ["-i", javaIdlDirectory, "-i", sourceDirectory, "-td", outputDirectory]
      && (forall k :: 0 <= k < |packagePrefixes| ==>
            && r[6 + 3 * k] == "-pkgPrefix"
            && r[7 + 3 * k] == packagePrefixes[k].typeName
            && r[8 + 3 * k] == packagePrefixes[k].prefix)
      && r[|r| - 1] == idlFile
  {
    var r := ArgumentVector(javaIdlDirectory, sourceDirectory, outputDirectory, packagePrefixes, idlFile);
    var triples := PrefixTriples(packagePrefixes);
    PrefixTriplesLayout(packagePrefixes);
    assert r[6..6 + |triples|] == triples;
    PrefixTriplesWithin(r, 6, packagePrefixes);
  }

  /** Builds the vector for one file by successive appends, as execute does. */
  method BuildArguments(config: Config, idlFile: string) returns (r: Result<seq<string>>)
    ensures r == Arguments(config, idlFile)
  {
    if config.javaIdlDirectory.None? || config.sourceDirectory.None? {
      return Failure(NullPointer);
    }
    var arguments := ["-i", config.javaIdlDirectory.value];
    arguments := arguments + ["-i", config.sourceDirectory.value];
    arguments := arguments + ["-td", config.outputDirectory];
    if config.packagePrefixes.None? {
      return Failure(NullPointer);
    }
    arguments := AppendPrefixTriples(arguments, config.packagePrefixes.value);
    arguments := arguments + [idlFile];
    assert arguments == ArgumentVector(config.javaIdlDirectory.value, config.sourceDirectory.value,
                                       config.outputDirectory, config.packagePrefixes.value, idlFile);
    r := Success(arguments);
  }

  /** The vectors of a list of files, once nothing null is dereferenced. */
  function Vectors(config: Config, files: seq<string>): (vectors: seq<seq<string>>)
    requires !DereferencesNull(config)
    ensures |vectors| == |files|
    ensures forall i :: 0 <= i < |files| ==> Success(vectors[i]) == Arguments(config, files[i])
  {
    seq(|files|, i requires 0 <= i < |files| =>
      ArgumentVector(config.javaIdlDirectory.value, config.sourceDirectory.value, config.outputDirectory,
                     config.packagePrefixes.value, files[i]))
  }

  /** The registration that follows a loop that handled every file. */
  function Registration(config: Config): (effects: seq<Effect>)
    ensures effects == [] <==> !config.hasProject
  {
    if config.hasProject then [RegisteredSourceRoot(config.outputDirectory)] else []
  }

  /** execute(), as a value: what the run does and how it ends. */
  function Run(config: Config, loadable: set<string>, faulty: set<string>, existing: set<string>, scan: ScanResult,
               compiles: seq<string> -> bool, copies: string -> bool): (r: Outcome)
  {
    match CheckForIdlCompiler(loadable, faulty)
    case Failure(e) => Outcome([], Failure(e))
    case Success(_) =>
      var created := MkdirEffects(existing, config.outputDirectory);
      match StaleGrammars(config.sourceDirectory, scan)
      case Failure(e) => Outcome(created, Failure(e))
      case Success(stale) =>
        if stale == [] then Outcome(created, Success(()))
        else
          var rest := StaleOutcome(config, stale, compiles, copies);
          Outcome(created + rest.effects, rest.result)
  }

  /** The part of execute() after a non-empty scan: the loop, then the
      registration if the loop handled every file. */
  function StaleOutcome(config: Config, files: seq<string>, compiles: seq<string> -> bool,
                        copies: string -> bool): (r: Outcome)
  {
    if DereferencesNull(config) then Outcome([], Failure(NullPointer))
    else
      var p := ProcessFiles(files, Vectors(config, files), config.timestampDirectory, compiles, copies);
      if p.failed then Outcome(p.effects, Failure(MojoExecution(EXECUTION_FAILED)))
      else Outcome(p.effects + Registration(config), Success(()))
  }

  /** The loop of execute() over a non-empty stale set. */
  method ProcessStale(world: World, config: Config, files: seq<string>,
                      compiles: seq<string> -> bool, copies: string -> bool)
    returns (result: Result<()>)
    requires files != []
    modifies world`trace
    ensures DereferencesNull(config) ==> world.trace == old(world.trace) && result == Failure(NullPointer)
    ensures !DereferencesNull(config) ==>
      var p := ProcessFiles(files, Vectors(config, files), config.timestampDirectory, compiles, copies);
      && world.trace == old(world.trace) + p.effects
      && result == if p.failed then Failure(MojoExecution(EXECUTION_FAILED)) else Success(())
  {
    ghost var start := world.trace;
    var k := 0;
    while k < |files|
      invariant 0 <= k <= |files|
      invariant DereferencesNull(config) ==> k == 0 && world.trace == start
      invariant !DereferencesNull(config) ==>
        var p := ProcessFiles(files[..k], Vectors(config, files)[..k], config.timestampDirectory, compiles, copies);
        !p.failed && world.trace == start + p.effects
    {
      var arguments := BuildArguments(config, files[k]);
      if arguments.Failure? {
        return Failure(arguments.error);
      }
      ghost var vectors := Vectors(config, files);
      ProcessFilesStep(files, vectors, config.timestampDirectory, compiles, copies, k);
      assert vectors[k] == arguments.value;
      var compiled := world.Compile(arguments.value, compiles);
      var copied := false;
      if compiled {
        copied := world.CopyToDirectory(files[k], config.timestampDirectory, copies);
      }
      if !compiled || !copied {
        ProcessFilesStaysFailed(files, vectors, config.timestampDirectory, compiles, copies, k + 1);
        return Failure(MojoExecution(EXECUTION_FAILED));
      }
      k := k + 1;
    }
    assert files[..k] == files && Vectors(config, files)[..k] == Vectors(config, files);
    result := Success(());
  }

  /** The loop, then project.addCompileSourceRoot when the project is non-null. */
  method ProcessAndRegister(world: World, config: Config, files: seq<string>,
                            compiles: seq<string> -> bool, copies: string -> bool)
    returns (result: Result<()>)
    requires files != []
    modifies world`trace
    ensures world.trace == old(world.trace) + StaleOutcome(config, files, compiles, copies).effects
    ensures result == StaleOutcome(config, files, compiles, copies).result
  {
    result := ProcessStale(world, config, files, compiles, copies);
    if result.Success? && config.hasProject {
      world.AddCompileSourceRoot(config.outputDirectory);
    }
  }

  /** execute() */
  method Execute(world: World, jvm: Jvm, config: Config, scan: ScanResult,
                 compiles: seq<string> -> bool, copies: string -> bool)
    returns (result: Result<()>)
    modifies world
    ensures var o := Run(config, jvm.loadable, jvm.faulty, old(world.existing), scan, compiles, copies);
      world.trace == old(world.trace) + o.effects && result == o.result
    ensures world.existing ==
      if CheckForIdlCompiler(jvm.loadable, jvm.faulty).Success?
      then old(world.existing) + {config.outputDirectory} else old(world.existing)
  {
    var checked := CheckForIdlCompiler(jvm.loadable, jvm.faulty);
    if checked.Failure? {
      return checked;
    }
    world.EnsureDirectory(config.outputDirectory);
    var stale := StaleGrammars(config.sourceDirectory, scan);
    if stale.Failure? {
      return Failure(stale.error);
    }
    if stale.value == [] {
      return Success(());
    }
    result := ProcessAndRegister(world, config, stale.value, compiles, copies);
  }

  /** A missing compiler class fails the run before the output directory is
      created or the source directory scanned. */
  lemma CompilerCheckedFirst(config: Config, loadable: set<string>, faulty: set<string>, existing: set<string>,
                             scan: ScanResult, compiles: seq<string> -> bool, copies: string -> bool)
    ensures var o := Run(config, loadable, faulty, existing, scan, compiles, copies);
      SUN_COMPILER !in loadable && SUN_COMPILER !in faulty ==>
        o.effects == [] && o.result == Failure(MojoExecution(COMPILER_UNAVAILABLE))
    ensures var o := Run(config, loadable, faulty, existing, scan, compiles, copies);
      CheckForIdlCompiler(loadable, faulty).Failure? ==> o.effects == [] && o.result.Failure?
  {
  }

  /** With a null prefix list the run fails as soon as there is a stale file
      to compile, before anything is compiled. */
  lemma NullPrefixesFail(config: Config, loadable: set<string>, faulty: set<string>, existing: set<string>,
                         scan: ScanResult, compiles: seq<string> -> bool, copies: string -> bool)
    requires config.packagePrefixes.None?
    requires CheckForIdlCompiler(loadable, faulty).Success?
    requires StaleGrammars(config.sourceDirectory, scan).Success?
    ensures var o := Run(config, loadable, faulty, existing, scan, compiles, copies);
      && (StaleGrammars(config.sourceDirectory, scan).value != [] ==> o.result == Failure(NullPointer))
      && (StaleGrammars(config.sourceDirectory, scan).value == [] ==> o.result == Success(()))
      && o.effects == MkdirEffects(existing, config.outputDirectory)
  {
  }

  /** The output directory is registered as a source root exactly when the
      compiler is present, there were stale files, every one of them was
      compiled and timestamped, and the project is non-null; the
      registration is then the run's last effect. */
  lemma RegisteredOnlyAfterCompleteRun(config: Config, loadable: set<string>, faulty: set<string>,
                                       existing: set<string>, scan: ScanResult,
                                       compiles: seq<string> -> bool, copies: string -> bool)
    ensures var o := Run(config, loadable, faulty, existing, scan, compiles, copies);
      var stale := StaleGrammars(config.sourceDirectory, scan);
      var complete := && CheckForIdlCompiler(loadable, faulty).Success?
                      && stale.Success? && stale.value != [] && !DereferencesNull(config)
                      && FirstFailure(stale.value, Vectors(config, stale.value), compiles, copies) == |stale.value|;
      && (complete && config.hasProject <==> |o.effects| > 0 && o.effects[|o.effects| - 1].RegisteredSourceRoot?)
      && (complete && config.hasProject ==> o.effects[|o.effects| - 1] == RegisteredSourceRoot(config.outputDirectory))
      && (o.result.Success? && o.effects != [] && o.effects[|o.effects| - 1].RegisteredSourceRoot? ==> complete)
  {
    var o := Run(config, loadable, faulty, existing, scan, compiles, copies);
    var stale := StaleGrammars(config.sourceDirectory, scan);
    var created := MkdirEffects(existing, config.outputDirectory);
    if CheckForIdlCompiler(loadable, faulty).Success? && stale.Success? && stale.value != [] && !DereferencesNull(config) {
      var files := stale.value;
      var vectors := Vectors(config, files);
      ProcessFilesLayout(files, vectors, config.timestampDirectory, compiles, copies);
      var p := ProcessFiles(files, vectors, config.timestampDirectory, compiles, copies);
      if p.failed {
        assert o.effects == created + p.effects;
        assert o.effects[|o.effects| - 1] == p.effects[|p.effects| - 1];
      } else if !config.hasProject {
        assert o.effects == created + p.effects + [];
        assert o.effects[|o.effects| - 1] == p.effects[|p.effects| - 1] == p.effects[2 * (|files| - 1) + 1];
      }
    } else if o.effects != [] {
      assert o.effects == created;
    }
  }

  /** Anywhere in a run, a timestamp copy directly follows a compile that
      returned normally. */
  lemma RunTimestampsFollowCompiles(config: Config, loadable: set<string>, faulty: set<string>,
                                    existing: set<string>, scan: ScanResult,
                                    compiles: seq<string> -> bool, copies: string -> bool)
    ensures var e := Run(config, loadable, faulty, existing, scan, compiles, copies).effects;
      forall k :: 0 <= k < |e| && e[k].Timestamped? ==> 0 < k && e[k - 1].Compiled? && compiles(e[k - 1].arguments)
  {
    var o := Run(config, loadable, faulty, existing, scan, compiles, copies);
    var stale := StaleGrammars(config.sourceDirectory, scan);
    if CheckForIdlCompiler(loadable, faulty).Success? && stale.Success? && stale.value != [] && !DereferencesNull(config) {
      var files := stale.value;
      var vectors := Vectors(config, files);
      var created := MkdirEffects(existing, config.outputDirectory);
      var p := ProcessFiles(files, vectors, config.timestampDirectory, compiles, copies);
      TimestampFollowsCompile(files, vectors, config.timestampDirectory, compiles, copies);
      var tail := if p.failed then [] else Registration(config);
      assert o.effects == created + p.effects + tail;
      forall k | 0 <= k < |o.effects| && o.effects[k].Timestamped?
        ensures 0 < k && o.effects[k - 1].Compiled? && compiles(o.effects[k - 1].arguments)
      {
        assert |created| <= k < |created| + |p.effects|;
        var q := k - |created|;
        assert p.effects[q] == o.effects[k] && p.effects[q].Timestamped?;
        assert p.effects[q - 1] == o.effects[k - 1];
      }
    }
  }

  /** How the loop ends: it succeeds exactly when every stale file compiles
      and copies; otherwise it fails with "IDLJ execution failed" right after
      the failing compile, having compiled the files up to the first failure
      and timestamped those before it. */
  lemma StaleOutcomeStopsAtFirstFailure(config: Config, files: seq<string>,
                                        compiles: seq<string> -> bool, copies: string -> bool)
    requires files != [] && !DereferencesNull(config)
    ensures var o := StaleOutcome(config, files, compiles, copies);
      var vectors := Vectors(config, files);
      var j := FirstFailure(files, vectors, compiles, copies);
      && (o.result.Success? <==> j == |files|)
      && TimestampCount(o.effects) == j
      && CompileCount(o.effects) == j + (if o.result.Success? then 0 else 1)
      && (o.result.Failure? ==>
            && o.result == Failure(MojoExecution(EXECUTION_FAILED))
            && o.effects != []
            && o.effects[|o.effects| - 1] == Compiled(vectors[j]))
  {
    var vectors := Vectors(config, files);
    ProcessFilesAbort(files, vectors, config.timestampDirectory, compiles, copies);
    ProcessFilesCounts(files, vectors, config.timestampDirectory, compiles, copies);
    var p := ProcessFiles(files, vectors, config.timestampDirectory, compiles, copies);
    if !p.failed {
      var tail := Registration(config);
      CountsOfConcat(p.effects, tail);
      assert CompileCount(tail) == 0 && TimestampCount(tail) == 0 by {
        if tail != [] {
          assert tail[..0] == [];
        }
      }
    }
  }

  /** The same, for a whole run whose compiler check and scan succeed: the
      directory creation before the loop adds no compile and no timestamp. */
  lemma RunStopsAtFirstFailure(config: Config, loadable: set<string>, faulty: set<string>, existing: set<string>,
                               scan: ScanResult, compiles: seq<string> -> bool, copies: string -> bool)
    requires CheckForIdlCompiler(loadable, faulty).Success?
    requires StaleGrammars(config.sourceDirectory, scan).Success?
    requires StaleGrammars(config.sourceDirectory, scan).value != []
    requires !DereferencesNull(config)
    ensures var o := Run(config, loadable, faulty, existing, scan, compiles, copies);
      var files := StaleGrammars(config.sourceDirectory, scan).value;
      var vectors := Vectors(config, files);
      var j := FirstFailure(files, vectors, compiles, copies);
      && (o.result.Success? <==> j == |files|)
      && TimestampCount(o.effects) == j
      && CompileCount(o.effects) == j + (if o.result.Success? then 0 else 1)
      && (o.result.Failure? ==>
            && o.result == Failure(MojoExecution(EXECUTION_FAILED))
            && o.effects[|o.effects| - 1] == Compiled(vectors[j]))
  {
    var files := StaleGrammars(config.sourceDirectory, scan).value;
    var created := MkdirEffects(existing, config.outputDirectory);
    var rest := StaleOutcome(config, files, compiles, copies);
    StaleOutcomeStopsAtFirstFailure(config, files, compiles, copies);
    CountsOfConcat(created, rest.effects);
    assert CompileCount(created) == 0 && TimestampCount(created) == 0 by {
      if created != [] {
        assert created[..0] == [];
      }
    }
    var o := Run(config, loadable, faulty, existing, scan, compiles, copies);
    assert o == Outcome(created + rest.effects, rest.result);
  }
}
