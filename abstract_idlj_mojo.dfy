/** The base mojo (org.codehaus.mojo.idlj.AbstractIDLJMojo): it resolves the
    Sun compiler class and its main method, creates the output directory,
    scans the source directory for stale IDL files, and compiles each one
    and copies it into the timestamp directory, stopping at the first
    failure. */
module AbstractIdljMojo {
  import opened Common
  import opened SourceConfig
  import opened ArgumentSlots
  import opened JvmState
  import opened Build

  const SUN_COMPILER := "com.sun.tools.corba.se.idl.toJavaPortable.Compile"
  const COMPILER_UNAVAILABLE := " Sun IDL compiler not available"
  /** The same words with a trailing space, raised when main is missing. */
  const NO_MAIN_METHOD := " Sun IDL compiler not available "

  /** The mojo's parameters, and the two directories a subclass supplies
      (getSourceDirectory may return null). */
  datatype Config = Config(
    javaIdlDirectory: Option<string>,
    packagePrefixes: Option<seq<PackagePrefix>>,
    timestampDirectory: string,
    sourceDirectory: Option<string>,
    outputDirectory: string)

  /** getIDLCompiler() followed by the lookup of main: the plugin's loader
      first, then a loader over tools.jar.  An exception other than
      ClassNotFoundException on the first load is not caught. */
  function ResolveCompiler(loadable: set<string>, toolsJarClasses: set<string>, faulty: set<string>,
                           hasMain: bool): (r: Result<()>)
  {
    match LoadIn(loadable, faulty, SUN_COMPILER)
    case Faulty => Failure(UncaughtException)
    case NotFound =>
      if LoadIn(loadable + toolsJarClasses, faulty, SUN_COMPILER) != Loaded then
        Failure(MojoExecution(COMPILER_UNAVAILABLE))
      else if hasMain then Success(())
      else Failure(MojoExecution(NO_MAIN_METHOD))
    case Loaded =>
      if hasMain then Success(()) else Failure(MojoExecution(NO_MAIN_METHOD))
  }

  /** Resolution succeeds exactly when the Sun class is visible to the
      plugin's loader or through tools.jar and has a main method; the two
      messages tell a missing class from a missing main. */
  lemma ResolveCompilerCases(loadable: set<string>, toolsJarClasses: set<string>, faulty: set<string>, hasMain: bool)
    ensures var r := ResolveCompiler(loadable, toolsJarClasses, faulty, hasMain);
      && (r.Success? <==> SUN_COMPILER !in faulty && SUN_COMPILER in loadable + toolsJarClasses && hasMain)
      && (r == Failure(MojoExecution(COMPILER_UNAVAILABLE)) <==>
            SUN_COMPILER !in faulty && SUN_COMPILER !in loadable + toolsJarClasses)
      && (r == Failure(MojoExecution(NO_MAIN_METHOD)) <==>
            SUN_COMPILER !in faulty && SUN_COMPILER in loadable + toolsJarClasses && !hasMain)
      && (r == Failure(UncaughtException) <==> SUN_COMPILER in faulty)
  {
  }

  /** computeStaleGrammars(): new File(getSourceDirectory()) throws on null;
      a source root that is missing or not a directory has no stale files. */
  function StaleGrammars(sourceDirectory: Option<string>, sourceIsDirectory: bool, scan: ScanResult): (r: Result<seq<string>>)
  {
    match sourceDirectory
    case None => Failure(NullPointer)
    case Some(dir) =>
      if !sourceIsDirectory then Success([])
      else
        match scan
        case ScanFailed => Failure(MojoExecution(ScanErrorMessage(dir)))
        case Scanned(stale) => Success(stale)
  }

  /** The vector for one file once javaIdlDirectory has been dereferenced. */
  function ArgumentVector(sourceDirectory: Option<string>, javaIdlDirectory: string, outputDirectory: string,
                          packagePrefixes: Option<seq<PackagePrefix>>, idlFile: string): (r: seq<string>)
  {
    (match sourceDirectory case None => [] case Some(dir) => ["-i", dir])
    + ["-i", javaIdlDirectory, "-td", outputDirectory]
    + PrefixTriples(OrEmpty(packagePrefixes)) + [idlFile]
  }

  /** The vector for one file, or the NullPointerException raised on a null
      javaIdlDirectory. */
  function Arguments(config: Config, idlFile: string): (r: Result<seq<string>>) {
    match config.javaIdlDirectory
    case None => Failure(NullPointer)
    case Some(javaIdl) =>
      Success(ArgumentVector(config.sourceDirectory, javaIdl, config.outputDirectory, config.packagePrefixes, idlFile))
  }

  /** Where each item lands: "-i sourceDirectory" only for a non-null source
      directory, then "-i javaIdlDirectory -td outputDirectory", then one
      "-pkgPrefix type prefix" triple per prefix, and the file last. */
  lemma ArgumentVectorLayout(sourceDirectory: Option<string>, javaIdlDirectory: string, outputDirectory: string,
                             packagePrefixes: Option<seq<PackagePrefix>>, idlFile: string)
    ensures var r := ArgumentVector(sourceDirectory, javaIdlDirectory, outputDirectory, packagePrefixes, idlFile);
      var o := if sourceDirectory.Some? then 2 else 0;
      var prefixes := OrEmpty(packagePrefixes);
      && |r| == o + 5 + 3 * |prefixes|
      && (sourceDirectory.Some? ==> r[0] == "-i" && r[1] == sourceDirectory.value)
      && r[o..o + 4] == ["-i", javaIdlDirectory, "-td", outputDirectory]
      && (forall k :: 0 <= k < |prefixes| ==>
            && r[o + 4 + 3 * k] == "-pkgPrefix"
            && r[o + 5 + 3 * k] == prefixes[k].typeName
            && r[o + 6 + 3 * k] == prefixes[k].prefix)
      && r[|r| - 1] == idlFile
  {
    var r := ArgumentVector(sourceDirectory, javaIdlDirectory, outputDirectory, packagePrefixes, idlFile);
    var prefixes := OrEmpty(packagePrefixes);
    var head := (match sourceDirectory case None => [] case Some(dir) => ["-i", dir])
                + ["-i", javaIdlDirectory, "-td", outputDirectory];
    var triples := PrefixTriples(prefixes);
    PrefixTriplesLayout(prefixes);
    assert r == head + triples + [idlFile];
    assert r[|head|..|head| + |triples|] == triples;
    PrefixTriplesWithin(r, |head|, prefixes);
  }

  /** Builds the vector for one file by successive appends, as execute does. */
  method BuildArguments(config: Config, idlFile: string) returns (r: Result<seq<string>>)
    ensures r == Arguments(config, idlFile)
  {
    var arguments: seq<string> := [];
    if config.sourceDirectory.Some? {
      arguments := arguments + ["-i", config.sourceDirectory.value];
    }
    assert arguments == match config.sourceDirectory case None => [] case Some(dir) => ["-i", dir];
    if config.javaIdlDirectory.None? {
      return Failure(NullPointer);
    }
    ghost var source := arguments;
    arguments := arguments + ["-i", config.javaIdlDirectory.value];
    arguments := arguments + ["-td", config.outputDirectory];
    ghost var head := arguments;
    assert head == source + ["-i", config.javaIdlDirectory.value, "-td", config.outputDirectory];
    if config.packagePrefixes.Some? {
      arguments := AppendPrefixTriples(arguments, config.packagePrefixes.value);
    }
    assert arguments == head + PrefixTriples(OrEmpty(config.packagePrefixes));
    arguments := arguments + [idlFile];
    assert arguments == ArgumentVector(config.sourceDirectory, config.javaIdlDirectory.value, config.outputDirectory,
                                       config.packagePrefixes, idlFile);
    r := Success(arguments);
  }

  /** The vectors of a list of files, once javaIdlDirectory is known to be set. */
  function Vectors(config: Config, files: seq<string>): (vectors: seq<seq<string>>)
    requires config.javaIdlDirectory.Some?
    ensures |vectors| == |files|
    ensures forall i :: 0 <= i < |files| ==> Success(vectors[i]) == Arguments(config, files[i])
  {
    seq(|files|, i requires 0 <= i < |files| =>
      ArgumentVector(config.sourceDirectory, config.javaIdlDirectory.value, config.outputDirectory,
                     config.packagePrefixes, files[i]))
  }

  /** execute(), as a value: what the run does and how it ends. */
  function Run(config: Config, loadable: set<string>, toolsJarClasses: set<string>, faulty: set<string>,
               hasMain: bool, existing: set<string>, sourceIsDirectory: bool, scan: ScanResult,
               compiles: seq<string> -> bool, copies: string -> bool): (r: Outcome)
  {
    match ResolveCompiler(loadable, toolsJarClasses, faulty, hasMain)
    case Failure(e) => Outcome([], Failure(e))
    case Success(_) =>
      var created := MkdirEffects(existing, config.outputDirectory);
      match StaleGrammars(config.sourceDirectory, sourceIsDirectory, scan)
      case Failure(e) => Outcome(created, Failure(e))
      case Success(stale) =>
        if stale == [] then Outcome(created, Success(()))
        else if config.javaIdlDirectory.None? then Outcome(created, Failure(NullPointer))
        else
          var p := ProcessFiles(stale, Vectors(config, stale), config.timestampDirectory, compiles, copies);
          Outcome(created + p.effects, if p.failed then Failure(MojoExecution(EXECUTION_FAILED)) else Success(()))
  }

  /** The loop of execute() over a non-empty stale set: build the vector,
      compile, copy into the timestamp directory; the vector's null
      dereference escapes as it is, any failure inside the try is wrapped. */
  method ProcessStale(world: World, config: Config, files: seq<string>,
                      compiles: seq<string> -> bool, copies: string -> bool)
    returns (result: Result<()>)
    requires files != []
    modifies world`trace
    ensures config.javaIdlDirectory.None? ==> world.trace == old(world.trace) && result == Failure(NullPointer)
    ensures config.javaIdlDirectory.Some? ==>
      var p := ProcessFiles(files, Vectors(config, files), config.timestampDirectory, compiles, copies);
      && world.trace == old(world.trace) + p.effects
      && result == if p.failed then Failure(MojoExecution(EXECUTION_FAILED)) else Success(())
  {
    ghost var start := world.trace;
    var k := 0;
    while k < |files|
      invariant 0 <= k <= |files|
      invariant config.javaIdlDirectory.None? ==> k == 0 && world.trace == start
      invariant config.javaIdlDirectory.Some? ==>
        var p := ProcessFiles(files[..k], Vectors(config, files)[..k], config.timestampDirectory, compiles, copies);
        !p.failed && world.trace == start + p.effects
    {
      var arguments := BuildArguments(config, files[k]);
      if arguments.Failure? {
        return Failure(arguments.error);
      }
      ghost var vectors := Vectors(config, files);
      ProcessFilesStep(files, vectors, config.timestampDirectory, compiles, copies, k);
      assert vectors[k] == arguments.value;
      var compiled := world.Compile(arguments.value, compiles);
      var copied := false;
      if compiled {
        copied := world.CopyToDirectory(files[k], config.timestampDirectory, copies);
      }
      if !compiled || !copied {
        ProcessFilesStaysFailed(files, vectors, config.timestampDirectory, compiles, copies, k + 1);
        return Failure(MojoExecution(EXECUTION_FAILED));
      }
      k := k + 1;
    }
    assert files[..k] == files && Vectors(config, files)[..k] == Vectors(config, files);
    result := Success(());
  }

  /** execute() */
  method Execute(world: World, jvm: Jvm, config: Config, hasMain: bool, sourceIsDirectory: bool, scan: ScanResult,
                 compiles: seq<string> -> bool, copies: string -> bool)
    returns (result: Result<()>)
    modifies world
    ensures var o := Run(config, jvm.loadable, jvm.toolsJarClasses, jvm.faulty, hasMain, old(world.existing),
                         sourceIsDirectory, scan, compiles, copies);
      world.trace == old(world.trace) + o.effects && result == o.result
    ensures world.existing ==
      if ResolveCompiler(jvm.loadable, jvm.toolsJarClasses, jvm.faulty, hasMain).Success?
      then old(world.existing) + {config.outputDirectory} else old(world.existing)
  {
    var resolved := ResolveCompiler(jvm.loadable, jvm.toolsJarClasses, jvm.faulty, hasMain);
    if resolved.Failure? {
      return resolved;
    }
    world.EnsureDirectory(config.outputDirectory);
    var stale := StaleGrammars(config.sourceDirectory, sourceIsDirectory, scan);
    if stale.Failure? {
      return Failure(stale.error);
    }
    if stale.value == [] {
      return Success(());
    }
    result := ProcessStale(world, config, stale.value, compiles, copies);
  }

  /** Nothing happens before the compiler is resolved: a failed resolution
      leaves the build untouched. */
  lemma CompilerResolvedFirst(config: Config, loadable: set<string>, toolsJarClasses: set<string>, faulty: set<string>,
                              hasMain: bool, existing: set<string>, sourceIsDirectory: bool, scan: ScanResult,
                              compiles: seq<string> -> bool, copies: string -> bool)
    requires ResolveCompiler(loadable, toolsJarClasses, faulty, hasMain).Failure?
    ensures var o := Run(config, loadable, toolsJarClasses, faulty, hasMain, existing, sourceIsDirectory, scan,
                         compiles, copies);
      o.effects == [] && o.result == ResolveCompiler(loadable, toolsJarClasses, faulty, hasMain)
  {
  }

  /** With no stale files (including a source root that is missing or not a
      directory) the run succeeds having at most created the output
      directory: nothing is compiled and nothing is timestamped. */
  lemma NothingStaleNothingDone(config: Config, loadable: set<string>, toolsJarClasses: set<string>, faulty: set<string>,
                                hasMain: bool, existing: set<string>, sourceIsDirectory: bool, scan: ScanResult,
                                compiles: seq<string> -> bool, copies: string -> bool)
    requires ResolveCompiler(loadable, toolsJarClasses, faulty, hasMain).Success?
    requires config.sourceDirectory.Some?
    requires !sourceIsDirectory || scan == Scanned([])
    ensures var o := Run(config, loadable, toolsJarClasses, faulty, hasMain, existing, sourceIsDirectory, scan,
                         compiles, copies);
      o.result == Success(()) && o.effects == MkdirEffects(existing, config.outputDirectory)
      && forall k :: 0 <= k < |o.effects| ==> o.effects[k] == CreatedDirectory(config.outputDirectory)
  {
  }

  /** getSourceDirectory() returning null fails in the scan, before any file
      is looked at, so the loop's own null test never sees a null. */
  lemma NullSourceDirectoryFailsScan(config: Config, loadable: set<string>, toolsJarClasses: set<string>,
                                     faulty: set<string>, hasMain: bool, existing: set<string>,
                                     sourceIsDirectory: bool, scan: ScanResult,
                                     compiles: seq<string> -> bool, copies: string -> bool)
    requires ResolveCompiler(loadable, toolsJarClasses, faulty, hasMain).Success?
    requires config.sourceDirectory.None?
    ensures var o := Run(config, loadable, toolsJarClasses, faulty, hasMain, existing, sourceIsDirectory, scan,
                         compiles, copies);
      o.result == Failure(NullPointer) && o.effects == MkdirEffects(existing, config.outputDirectory)
  {
  }

  /** Anywhere in a run, a timestamp copy directly follows a compile that
      returned normally. */
  lemma RunTimestampsFollowCompiles(config: Config, loadable: set<string>, toolsJarClasses: set<string>,
                                    faulty: set<string>, hasMain: bool, existing: set<string>,
                                    sourceIsDirectory: bool, scan: ScanResult,
                                    compiles: seq<string> -> bool, copies: string -> bool)
    ensures var e := Run(config, loadable, toolsJarClasses, faulty, hasMain, existing, sourceIsDirectory, scan,
                         compiles, copies).effects;
      forall k :: 0 <= k < |e| && e[k].Timestamped? ==> 0 < k && e[k - 1].Compiled? && compiles(e[k - 1].arguments)
  {
    var o := Run(config, loadable, toolsJarClasses, faulty, hasMain, existing, sourceIsDirectory, scan, compiles, copies);
    var stale := StaleGrammars(config.sourceDirectory, sourceIsDirectory, scan);
    if ResolveCompiler(loadable, toolsJarClasses, faulty, hasMain).Success? && stale.Success? && stale.value != []
       && config.javaIdlDirectory.Some? {
      var files := stale.value;
      var vectors := Vectors(config, files);
      var created := MkdirEffects(existing, config.outputDirectory);
      var p := ProcessFiles(files, vectors, config.timestampDirectory, compiles, copies);
      TimestampFollowsCompile(files, vectors, config.timestampDirectory, compiles, copies);
      assert o.effects == created + p.effects;
      forall k | 0 <= k < |o.effects| && o.effects[k].Timestamped?
        ensures 0 < k && o.effects[k - 1].Compiled? && compiles(o.effects[k - 1].arguments)
      {
        assert k >= |created|;
        var q := k - |created|;
        assert p.effects[q] == o.effects[k] && p.effects[q].Timestamped?;
        assert p.effects[q - 1] == o.effects[k - 1];
      }
    }
  }

  /** How the loop ends: it succeeds exactly when every stale file compiles
      and copies; otherwise it fails with "IDLJ execution failed" and the
      run's last effect is the failing file's compile, having compiled the
      files up to the first failure and timestamped those before it. */
  lemma RunStopsAtFirstFailure(config: Config, loadable: set<string>, toolsJarClasses: set<string>, faulty: set<string>,
                               hasMain: bool, existing: set<string>, sourceIsDirectory: bool, scan: ScanResult,
                               compiles: seq<string> -> bool, copies: string -> bool)
    requires ResolveCompiler(loadable, toolsJarClasses, faulty, hasMain).Success?
    requires StaleGrammars(config.sourceDirectory, sourceIsDirectory, scan).Success?
    requires StaleGrammars(config.sourceDirectory, sourceIsDirectory, scan).value != []
    requires config.javaIdlDirectory.Some?
    ensures var o := Run(config, loadable, toolsJarClasses, faulty, hasMain, existing, sourceIsDirectory, scan,
                         compiles, copies);
      var files := StaleGrammars(config.sourceDirectory, sourceIsDirectory, scan).value;
      var vectors := Vectors(config, files);
      var j := FirstFailure(files, vectors, compiles, copies);
      && (o.result.Success? <==> j == |files|)
      && TimestampCount(o.effects) == j
      && CompileCount(o.effects) == j + (if o.result.Success? then 0 else 1)
      && (o.result.Failure? ==>
            && o.result == Failure(MojoExecution(EXECUTION_FAILED))
            && o.effects[|o.effects| - 1] == Compiled(vectors[j]))
  {
    var files := StaleGrammars(config.sourceDirectory, sourceIsDirectory, scan).value;
    var vectors := Vectors(config, files);
    var created := MkdirEffects(existing, config.outputDirectory);
    ProcessFilesAbort(files, vectors, config.timestampDirectory, compiles, copies);
    ProcessFilesCounts(files, vectors, config.timestampDirectory, compiles, copies);
    var p := ProcessFiles(files, vectors, config.timestampDirectory, compiles, copies);
    CountsOfConcat(created, p.effects);
    assert created == [] || created == [CreatedDirectory(config.outputDirectory)];
    assert CompileCount(created) == 0 && TimestampCount(created) == 0 by {
      if created != [] {
        assert created[..0] == [];
      }
    }
  }
}
