/** The translator for the JDK's idlj compiler
    (org.codehaus.mojo.idlj.IdljTranslator): how one IDL file and its Source
    configuration become idlj's argument vector, how the compiler class is
    found, and how an invocation's outcome becomes success or failure. */
module IdljTranslator {
  import opened Common
  import opened JavaStrings
  import opened SourceConfig
  import opened ArgumentSlots
  import opened JvmState

  const PACKAGE_PREFIX_UNSUPPORTED := "idlj compiler does not support packagePrefix"
  const COMPILER_UNAVAILABLE := " IDL compiler not available"
  const NO_MAIN_METHOD := "Error: Compiler had no main method"
  const COMPILATION_FAILED := "IDL compilation failed"
  /** The text in the compiler's error stream that counts as a failure. */
  const INVALID_ARGUMENT := "Invalid argument"

  const IBM_COMPILER := "com.ibm.idl.toJavaPortable.Compile"
  const SUN_COMPILER := "com.sun.tools.corba.se.idl.toJavaPortable.Compile"

  /** The translator's two switches (set on it before it is invoked). */
  datatype Flags = Flags(debug: bool, failOnError: bool)

  /** The class that implements idlj on a JVM from the given vendor. */
  function IdlCompilerClass(vendor: string): (name: string)
    ensures name == IBM_COMPILER <==> Contains(vendor, "IBM")
    ensures name == SUN_COMPILER <==> !Contains(vendor, "IBM")
  {
    if Contains(vendor, "IBM") then IBM_COMPILER else SUN_COMPILER
  }

  /** The four-way stub/skeleton policy.  emitSkeletons is dereferenced
      without a null check when emitStubs is true. */
  function PolicyFlag(emitStubs: Option<bool>, emitSkeletons: Option<bool>): (r: Result<string>)
    ensures r == Success("-fall") <==> emitStubs == Some(true) && emitSkeletons == Some(true)
    ensures r == Success("-fclient") <==> emitStubs == Some(true) && emitSkeletons == Some(false)
    ensures r == Success("-fserver") <==> emitStubs != Some(true) && emitSkeletons == Some(true)
    ensures r == Success("-fserverTIE") <==> emitStubs != Some(true) && emitSkeletons != Some(true)
    ensures r == Failure(NullPointer) <==> emitStubs == Some(true) && emitSkeletons.None?
  {
    if emitStubs == Some(true) then
      match emitSkeletons
      case None => Failure(NullPointer)
      case Some(skeletons) => if skeletons then Success("-fall") else Success("-fclient")
    else if emitSkeletons == Some(true) then Success("-fserver")
    else Success("-fserverTIE")
  }

  /** version.matches("^[0-1]\\.[0-3]"): matches() must consume the whole
      string, so only the three-character versions 0.0 to 1.3 qualify. */
  predicate IsAncientSpecificationVersion(version: string) {
    && |version| == 3
    && '0' <= version[0] <= '1'
    && version[1] == '.'
    && '0' <= version[2] <= '3'
  }

  /** "-oldImplBase" when compatibility is on, unless the JDK predates 1.4. */
  function CompatArgs(compatible: Option<bool>, specificationVersion: string): (r: seq<string>)
    ensures r == ["-oldImplBase"] <==> compatible == Some(true) && !IsAncientSpecificationVersion(specificationVersion)
    ensures r == [] <==> !(compatible == Some(true) && !IsAncientSpecificationVersion(specificationVersion))
  {
    if compatible == Some(true) && !IsAncientSpecificationVersion(specificationVersion) then ["-oldImplBase"]
    else []
  }

  /** The argument vector idlj receives for one file (before any debug flag),
      or the error raised while composing it. */
  function ArgumentVector(sourceDirectory: string, includeDirs: Option<seq<string>>, targetDirectory: string,
                          idlFile: string, source: Source, specificationVersion: string): (r: Result<seq<string>>)
  {
    if source.packagePrefix.Some? then Failure(MojoExecution(PACKAGE_PREFIX_UNSUPPORTED))
    else
      match DefineArgs(OrEmpty(source.defines))
      case Failure(e) => Failure(e)
      case Success(defineArgs) =>
        match PolicyFlag(source.emitStubs, source.emitSkeletons)
        case Failure(e) => Failure(e)
        case Success(flag) =>
          Success(["-i", sourceDirectory] + FlagPairs("-i", OrEmpty(includeDirs))
                  + ["-td", targetDirectory] + PrefixTriples(OrEmpty(source.packagePrefixes))
                  + defineArgs + [flag] + CompatArgs(source.compatible, specificationVersion)
                  + OrEmpty(source.additionalArguments) + [idlFile])
  }

  /** Appends the stub/skeleton flag, or fails on the unguarded null. */
  method AppendPolicyFlag(args: seq<string>, emitStubs: Option<bool>, emitSkeletons: Option<bool>)
    returns (r: Result<seq<string>>)
    ensures PolicyFlag(emitStubs, emitSkeletons).Failure? ==> r == Failure(NullPointer)
    ensures PolicyFlag(emitStubs, emitSkeletons).Success? ==>
      r == Success(args + [PolicyFlag(emitStubs, emitSkeletons).value])
  {
    if emitStubs.Some? && emitStubs.value {
      if emitSkeletons.None? {
        return Failure(NullPointer);
      }
      if emitSkeletons.value {
        r := Success(args + ["-fall"]);
      } else {
        r := Success(args + ["-fclient"]);
      }
    } else {
      if emitSkeletons.Some? && emitSkeletons.value {
        r := Success(args + ["-fserver"]);
      } else {
        r := Success(args + ["-fserverTIE"]);
      }
    }
  }

  /** Appends "-oldImplBase" when compatibility applies. */
  method AppendCompatibility(args: seq<string>, compatible: Option<bool>, specificationVersion: string)
    returns (r: seq<string>)
    ensures r == args + CompatArgs(compatible, specificationVersion)
  {
    r := args;
    if compatible.Some? && compatible.value {
      if !IsAncientSpecificationVersion(specificationVersion) {
        r := r + ["-oldImplBase"];
      }
    }
  }

  /** Appends the additional arguments verbatim, in order. */
  method AppendVerbatim(args: seq<string>, extra: seq<string>) returns (r: seq<string>)
    ensures r == args + extra
  {
    r := args;
    var k := 0;
    while k < |extra|
      invariant 0 <= k <= |extra|
      invariant r == args + extra[..k]
    {
      r := r + [extra[k]];
      k := k + 1;
    }
    assert extra[..k] == extra;
  }

  /** Composes the argument vector by successive appends, as the source does. */
  method BuildArguments(sourceDirectory: string, includeDirs: Option<seq<string>>, targetDirectory: string,
                        idlFile: string, source: Source, specificationVersion: string)
    returns (r: Result<seq<string>>)
    ensures r == ArgumentVector(sourceDirectory, includeDirs, targetDirectory, idlFile, source, specificationVersion)
  {
    var args := ["-i", sourceDirectory];
    if includeDirs.Some? {
      args := AppendFlagPairs(args, "-i", includeDirs.value);
    }
    assert args == ["-i", sourceDirectory] + FlagPairs("-i", OrEmpty(includeDirs));
    args := args + ["-td", targetDirectory];

    if source.packagePrefix.Some? {
      return Failure(MojoExecution(PACKAGE_PREFIX_UNSUPPORTED));
    }
    if source.packagePrefixes.Some? {
      args := AppendPrefixTriples(args, source.packagePrefixes.value);
    }
    assert args == ["-i", sourceDirectory] + FlagPairs("-i", OrEmpty(includeDirs)) + ["-td", targetDirectory]
                   + PrefixTriples(OrEmpty(source.packagePrefixes));
    ghost var beforeDefines := args;
    if source.defines.Some? {
      var withDefines := AppendDefines(args, source.defines.value);
      if withDefines.Failure? {
        return Failure(withDefines.error);
      }
      args := withDefines.value;
    }
    assert DefineArgs(OrEmpty(source.defines)).Success?;
    assert args == beforeDefines + DefineArgs(OrEmpty(source.defines)).value;

    var withFlag := AppendPolicyFlag(args, source.emitStubs, source.emitSkeletons);
    if withFlag.Failure? {
      return Failure(withFlag.error);
    }
    args := AppendCompatibility(withFlag.value, source.compatible, specificationVersion);
    if source.additionalArguments.Some? {
      args := AppendVerbatim(args, source.additionalArguments.value);
    }
    assert args == withFlag.value + CompatArgs(source.compatible, specificationVersion)
                   + OrEmpty(source.additionalArguments);
    args := args + [idlFile];
    r := Success(args);
  }

  /** Which conditions make composition fail, and with which error: the
      singular package prefix is checked first, then the defines, then the
      unguarded skeleton flag. */
  lemma ArgumentVectorErrors(sourceDirectory: string, includeDirs: Option<seq<string>>, targetDirectory: string,
                             idlFile: string, source: Source, specificationVersion: string)
    ensures var r := ArgumentVector(sourceDirectory, includeDirs, targetDirectory, idlFile, source, specificationVersion);
      && (source.packagePrefix.Some? ==> r == Failure(MojoExecution(PACKAGE_PREFIX_UNSUPPORTED)))
      && (source.packagePrefix.None? && (exists k :: 0 <= k < |OrEmpty(source.defines)| && OrEmpty(source.defines)[k].value.Some?)
          ==> r == Failure(MojoExecution(DEFINE_VALUE_UNSUPPORTED)))
      && (r.Failure? <==>
            || source.packagePrefix.Some?
            || (exists k :: 0 <= k < |OrEmpty(source.defines)| && OrEmpty(source.defines)[k].value.Some?)
            || (source.emitStubs == Some(true) && source.emitSkeletons.None?))
  {
  }

  /** A successfully composed vector, cut into its consecutive regions. */
  lemma ArgumentVectorRegions(sourceDirectory: string, includeDirs: Option<seq<string>>, targetDirectory: string,
                              idlFile: string, source: Source, specificationVersion: string)
    requires ArgumentVector(sourceDirectory, includeDirs, targetDirectory, idlFile, source, specificationVersion).Success?
    ensures PolicyFlag(source.emitStubs, source.emitSkeletons).Success?
    ensures var r := ArgumentVector(sourceDirectory, includeDirs, targetDirectory, idlFile, source, specificationVersion).value;
      var includes := FlagPairs("-i", OrEmpty(includeDirs));
      var triples := PrefixTriples(OrEmpty(source.packagePrefixes));
      var pairs := FlagPairs("-d", Symbols(OrEmpty(source.defines)));
      r == ["-i", sourceDirectory] + includes + ["-td", targetDirectory] + triples + pairs
           + [PolicyFlag(source.emitStubs, source.emitSkeletons).value]
           + CompatArgs(source.compatible, specificationVersion) + OrEmpty(source.additionalArguments) + [idlFile]
  {
  }

  /** The vector opens with "-i sourceDirectory", then "-i dir" for each
      include directory in order, then "-td targetDirectory". */
  lemma ArgumentVectorIncludes(sourceDirectory: string, includeDirs: Option<seq<string>>, targetDirectory: string,
                               idlFile: string, source: Source, specificationVersion: string)
    requires ArgumentVector(sourceDirectory, includeDirs, targetDirectory, idlFile, source, specificationVersion).Success?
    ensures var r := ArgumentVector(sourceDirectory, includeDirs, targetDirectory, idlFile, source, specificationVersion).value;
      var dirs := OrEmpty(includeDirs);
      && |r| > 4 + 2 * |dirs|
      && r[0] == "-i" && r[1] == sourceDirectory
      && (forall k :: 0 <= k < |dirs| ==> r[2 + 2 * k] == "-i" && r[3 + 2 * k] == dirs[k])
      && r[2 + 2 * |dirs|] == "-td" && r[3 + 2 * |dirs|] == targetDirectory
  {
    ArgumentVectorRegions(sourceDirectory, includeDirs, targetDirectory, idlFile, source, specificationVersion);
    var r := ArgumentVector(sourceDirectory, includeDirs, targetDirectory, idlFile, source, specificationVersion).value;
    var dirs := OrEmpty(includeDirs);
    var includes := FlagPairs("-i", dirs);
    FlagPairsLayout("-i", dirs);
    var head := ["-i", sourceDirectory] + includes + ["-td", targetDirectory];
    assert r[..|head|] == head;
    assert r[2..2 + 2 * |dirs|] == includes;
    FlagPairsWithin(r, 2, "-i", dirs);
    assert r[2 + 2 * |dirs|] == head[2 + 2 * |dirs|];
    assert r[3 + 2 * |dirs|] == head[3 + 2 * |dirs|];
  }

  /** After "-td targetDirectory" come the "-pkgPrefix type prefix" triples, in list order. */
  lemma ArgumentVectorPrefixes(sourceDirectory: string, includeDirs: Option<seq<string>>, targetDirectory: string,
                               idlFile: string, source: Source, specificationVersion: string)
    requires ArgumentVector(sourceDirectory, includeDirs, targetDirectory, idlFile, source, specificationVersion).Success?
    ensures var r := ArgumentVector(sourceDirectory, includeDirs, targetDirectory, idlFile, source, specificationVersion).value;
      var h := 4 + 2 * |OrEmpty(includeDirs)|;
      var prefixes := OrEmpty(source.packagePrefixes);
      && |r| > h + 3 * |prefixes|
      && (forall k :: 0 <= k < |prefixes| ==>
            && r[h + 3 * k] == "-pkgPrefix"
            && r[h + 3 * k + 1] == prefixes[k].typeName
            && r[h + 3 * k + 2] == prefixes[k].prefix)
  {
    ArgumentVectorRegions(sourceDirectory, includeDirs, targetDirectory, idlFile, source, specificationVersion);
    var r := ArgumentVector(sourceDirectory, includeDirs, targetDirectory, idlFile, source, specificationVersion).value;
    var h := 4 + 2 * |OrEmpty(includeDirs)|;
    var prefixes := OrEmpty(source.packagePrefixes);
    FlagPairsLayout("-i", OrEmpty(includeDirs));
    PrefixTriplesLayout(prefixes);
    var head := ["-i", sourceDirectory] + FlagPairs("-i", OrEmpty(includeDirs)) + ["-td", targetDirectory];
    var triples := PrefixTriples(prefixes);
    assert r[..h + |triples|] == head + triples;
    assert r[h..h + |triples|] == triples;
    PrefixTriplesWithin(r, h, prefixes);
  }

  /** After the triples come the "-d symbol" pairs, in list order. */
  lemma ArgumentVectorDefines(sourceDirectory: string, includeDirs: Option<seq<string>>, targetDirectory: string,
                              idlFile: string, source: Source, specificationVersion: string)
    requires ArgumentVector(sourceDirectory, includeDirs, targetDirectory, idlFile, source, specificationVersion).Success?
    ensures var r := ArgumentVector(sourceDirectory, includeDirs, targetDirectory, idlFile, source, specificationVersion).value;
      var h := 4 + 2 * |OrEmpty(includeDirs)| + 3 * |OrEmpty(source.packagePrefixes)|;
      var symbols := Symbols(OrEmpty(source.defines));
      && |r| > h + 2 * |symbols|
      && (forall k :: 0 <= k < |symbols| ==> r[h + 2 * k] == "-d" && r[h + 2 * k + 1] == symbols[k])
  {
    ArgumentVectorRegions(sourceDirectory, includeDirs, targetDirectory, idlFile, source, specificationVersion);
    var r := ArgumentVector(sourceDirectory, includeDirs, targetDirectory, idlFile, source, specificationVersion).value;
    var symbols := Symbols(OrEmpty(source.defines));
    FlagPairsLayout("-i", OrEmpty(includeDirs));
    PrefixTriplesLayout(OrEmpty(source.packagePrefixes));
    FlagPairsLayout("-d", symbols);
    var front := ["-i", sourceDirectory] + FlagPairs("-i", OrEmpty(includeDirs)) + ["-td", targetDirectory]
                 + PrefixTriples(OrEmpty(source.packagePrefixes));
    var pairs := FlagPairs("-d", symbols);
    var h := |front|;
    assert r[..h + |pairs|] == front + pairs;
    assert r[h..h + |pairs|] == pairs;
    FlagPairsWithin(r, h, "-d", symbols);
  }

  /** Then come the single policy flag, "-oldImplBase" if it applies, the
      additional arguments verbatim, and last of all the IDL file. */
  lemma ArgumentVectorTail(sourceDirectory: string, includeDirs: Option<seq<string>>, targetDirectory: string,
                           idlFile: string, source: Source, specificationVersion: string)
    requires ArgumentVector(sourceDirectory, includeDirs, targetDirectory, idlFile, source, specificationVersion).Success?
    ensures var r := ArgumentVector(sourceDirectory, includeDirs, targetDirectory, idlFile, source, specificationVersion).value;
      var f := 4 + 2 * |OrEmpty(includeDirs)| + 3 * |OrEmpty(source.packagePrefixes)| + 2 * |OrEmpty(source.defines)|;
      var compat := CompatArgs(source.compatible, specificationVersion);
      var extra := OrEmpty(source.additionalArguments);
      && |r| == f + 1 + |compat| + |extra| + 1
      && Success(r[f]) == PolicyFlag(source.emitStubs, source.emitSkeletons)
      && r[f] in {"-fall", "-fclient", "-fserver", "-fserverTIE"}
      && r[f + 1..f + 1 + |compat|] == compat
      && r[f + 1 + |compat|..|r| - 1] == extra
      && r[|r| - 1] == idlFile
  {
    ArgumentVectorRegions(sourceDirectory, includeDirs, targetDirectory, idlFile, source, specificationVersion);
    FlagPairsLayout("-i", OrEmpty(includeDirs));
    PrefixTriplesLayout(OrEmpty(source.packagePrefixes));
    FlagPairsLayout("-d", Symbols(OrEmpty(source.defines)));
  }

  /** A default Source with no lists yields -fall, then -oldImplBase on any JDK
      from 1.4 on. */
  lemma DefaultSourceVector(sourceDirectory: string, targetDirectory: string, idlFile: string, specificationVersion: string)
    ensures ArgumentVector(sourceDirectory, None, targetDirectory, idlFile, DefaultSource(), specificationVersion)
         == Success(["-i", sourceDirectory, "-td", targetDirectory, "-fall"]
                    + (if IsAncientSpecificationVersion(specificationVersion) then [] else ["-oldImplBase"])
                    + [idlFile])
  {
    var d := DefaultSource();
    assert OrEmpty(d.defines) == [];
    assert Symbols([]) == [];
    assert DefineArgs([]) == Success([]);
    assert PolicyFlag(d.emitStubs, d.emitSkeletons) == Success("-fall");
    assert FlagPairs("-i", []) == [];
    assert PrefixTriples([]) == [];
    assert OrEmpty(d.additionalArguments) == [];
    assert CompatArgs(d.compatible, specificationVersion)
        == (if IsAncientSpecificationVersion(specificationVersion) then [] else ["-oldImplBase"]);
    var compat := CompatArgs(d.compatible, specificationVersion);
    assert ArgumentVector(sourceDirectory, None, targetDirectory, idlFile, d, specificationVersion)
        == Success(["-i", sourceDirectory] + [] + ["-td", targetDirectory] + [] + [] + ["-fall"] + compat + [] + [idlFile]);
    assert ["-i", sourceDirectory] + [] + ["-td", targetDirectory] + [] + [] + ["-fall"] + compat + [] + [idlFile]
        == ["-i", sourceDirectory, "-td", targetDirectory, "-fall"] + compat + [idlFile];
  }

  // ---------------------------------------------------------------------
  // Finding the compiler class

  /** The outcome of getCompilerClass: Class.forName on the vendor's class
      name; on ClassNotFoundException a URLClassLoader over tools.jar is
      tried, after preloading FileLocator on HotSpot.  Any exception in the
      fallback becomes " IDL compiler not available". */
  function LookupCompilerClass(vendor: string, vmName: string, loadable: set<string>,
                               toolsJarClasses: set<string>, faulty: set<string>): (r: Result<string>)
  {
    var name := IdlCompilerClass(vendor);
    match LoadIn(loadable, faulty, name)
    case Loaded => Success(name)
    case Faulty => Failure(UncaughtException)
    case NotFound =>
      var viaJar := loadable + toolsJarClasses;
      if Contains(vmName, "HotSpot") && LoadIn(viaJar, faulty, FILE_LOCATOR) != Loaded then
        Failure(MojoExecution(COMPILER_UNAVAILABLE))
      else if LoadIn(viaJar, faulty, name) == Loaded then Success(name)
      else Failure(MojoExecution(COMPILER_UNAVAILABLE))
  }

  /** The whole lookup protocol: a class the plugin's loader has is returned
      without a fallback; an exception other than ClassNotFoundException on
      the first load escapes uncaught; a missing class is retried once through
      tools.jar and found exactly when tools.jar has it and the HotSpot
      FileLocator preload (if any) passes; every other failure is
      " IDL compiler not available"; and a found class is the vendor's class. */
  lemma LookupCompilerClassProtocol(vendor: string, vmName: string, loadable: set<string>,
                                    toolsJarClasses: set<string>, faulty: set<string>)
    ensures var r := LookupCompilerClass(vendor, vmName, loadable, toolsJarClasses, faulty);
      var name := IdlCompilerClass(vendor);
      var hotSpotStepFails := Contains(vmName, "HotSpot")
                              && LoadIn(loadable + toolsJarClasses, faulty, FILE_LOCATOR) != Loaded;
      && (r.Success? ==> r.value == name && name !in faulty && name in loadable + toolsJarClasses)
      && (name in loadable && name !in faulty ==> r == Success(name))
      && (name in faulty ==> r == Failure(UncaughtException))
      && (name !in loadable && name !in faulty ==>
            (r == Success(name) <==> name in toolsJarClasses && !hotSpotStepFails))
      && (name !in loadable && name !in faulty && hotSpotStepFails ==>
            r == Failure(MojoExecution(COMPILER_UNAVAILABLE)))
      && (name !in faulty && r.Failure? ==> r.error == MojoExecution(COMPILER_UNAVAILABLE))
  {
  }

  /** getCompilerClass: the class-path property is rewritten whenever the
      first load reports the class missing, whether or not the retry works. */
  method GetCompilerClass(jvm: Jvm) returns (r: Result<string>)
    modifies jvm`classPath
    ensures r == LookupCompilerClass(jvm.vendor, jvm.vmName, jvm.loadable, jvm.toolsJarClasses, jvm.faulty)
    ensures jvm.classPath ==
      if jvm.Load(IdlCompilerClass(jvm.vendor)) == NotFound
      then ExtendedClassPath(old(jvm.classPath), jvm.pathSeparator, jvm.javaHome)
      else old(jvm.classPath)
  {
    var name := IdlCompilerClass(jvm.vendor);
    var first := jvm.Load(name);
    if first == Loaded {
      return Success(name);
    } else if first == Faulty {
      return Failure(UncaughtException);
    }
    jvm.AppendToolsJarToClassPath();
    if Contains(jvm.vmName, "HotSpot") && jvm.LoadWithToolsJar(FILE_LOCATOR) != Loaded {
      return Failure(MojoExecution(COMPILER_UNAVAILABLE));
    }
    if jvm.LoadWithToolsJar(name) == Loaded {
      r := Success(name);
    } else {
      r := Failure(MojoExecution(COMPILER_UNAVAILABLE));
    }
  }

  // ---------------------------------------------------------------------
  // Invoking the compiler

  /** What main(String[]) returned: null, an Integer, or some other object. */
  datatype ReturnValue = NullValue | IntegerValue(i: int) | OtherObject

  /** The compiler's main either returns, with what it wrote to its output and
      error streams, or throws. */
  datatype MainOutcome = Returned(value: ReturnValue, out: string, err: string) | Threw

  /** The invocation's outcome and the argument vector main received, if it ran. */
  datatype Invocation = Invocation(outcome: Result<()>, passed: Option<seq<string>>)

  /** The exit code: 0 unless main returned a non-null Integer. */
  function ExitCode(value: ReturnValue): (code: int)
    ensures code != 0 ==> value == IntegerValue(code)
    ensures value.IntegerValue? ==> code == value.i
  {
    match value
    case IntegerValue(i) => i
    case _ => 0
  }

  /** With debug on, "-verbose" goes in front of the arguments. */
  function WithDebug(debug: bool, args: seq<string>): (r: seq<string>) {
    if debug then ["-verbose"] + args else args
  }

  /** Inserting "-verbose" at index 0 shifts every argument by one and
      changes none of them. */
  lemma DebugShiftsArguments(debug: bool, args: seq<string>)
    ensures |WithDebug(debug, args)| == |args| + (if debug then 1 else 0)
    ensures debug ==> WithDebug(debug, args)[0] == "-verbose" && WithDebug(debug, args)[1..] == args
    ensures !debug ==> WithDebug(debug, args) == args
  {
  }

  /** The compiler run, from the argument vector to the verdict. */
  function Invoke(flags: Flags, args: seq<string>, hasMain: bool, run: seq<string> -> MainOutcome): (r: Invocation) {
    if !hasMain then Invocation(Failure(MojoExecution(NO_MAIN_METHOD)), None)
    else
      var argv := WithDebug(flags.debug, args);
      match run(argv)
      case Threw => Invocation(Failure(MojoExecution(COMPILATION_FAILED)), Some(argv))
      case Returned(value, out, err) =>
        if flags.failOnError && (ExitCode(value) != 0 || Contains(err, INVALID_ARGUMENT))
        then Invocation(Failure(MojoExecution(COMPILATION_FAILED)), Some(argv))
        else Invocation(Success(()), Some(argv))
  }

  /** The fail-on-error verdict: a run that returned fails exactly when
      failOnError is set and either the exit code is non-zero or the error
      stream holds "Invalid argument" somewhere. */
  lemma InvokeVerdict(flags: Flags, args: seq<string>, hasMain: bool, run: seq<string> -> MainOutcome)
    requires hasMain
    requires run(WithDebug(flags.debug, args)).Returned?
    ensures var o := run(WithDebug(flags.debug, args));
      Invoke(flags, args, hasMain, run).outcome.Failure? <==>
        flags.failOnError &&
        (ExitCode(o.value) != 0 || exists i: nat :: OccursAt(o.err, INVALID_ARGUMENT, i))
  {
    ContainsIffOccurs(run(WithDebug(flags.debug, args)).err, INVALID_ARGUMENT);
  }

  /** main runs exactly when it exists, and it receives the composed vector
      (with "-verbose" in front under debug); a throw always fails. */
  lemma InvokePassesVector(flags: Flags, args: seq<string>, hasMain: bool, run: seq<string> -> MainOutcome)
    ensures Invoke(flags, args, hasMain, run).passed.Some? <==> hasMain
    ensures hasMain ==> Invoke(flags, args, hasMain, run).passed.value == WithDebug(flags.debug, args)
    ensures !hasMain ==> Invoke(flags, args, hasMain, run).outcome == Failure(MojoExecution(NO_MAIN_METHOD))
    ensures hasMain && run(WithDebug(flags.debug, args)).Threw? ==>
      Invoke(flags, args, hasMain, run).outcome == Failure(MojoExecution(COMPILATION_FAILED))
  {
  }

  /** invokeCompiler(Class, List): under debug, "-verbose" is inserted at
      index 0 and the command line is composed for the log. */
  method InvokeResolved(flags: Flags, className: string, args: seq<string>, hasMain: bool,
                        run: seq<string> -> MainOutcome)
    returns (result: Invocation, logged: Option<string>)
    ensures result == Invoke(flags, args, hasMain, run)
    ensures logged == if flags.debug then Some(CommandLine(className, ["-verbose"] + args)) else None
  {
    var arguments := args;
    logged := None;
    if flags.debug {
      arguments := ["-verbose"] + arguments;
      var command := ComposeCommand(className, arguments);
      logged := Some(command);
    }
    if !hasMain {
      return Invocation(Failure(MojoExecution(NO_MAIN_METHOD)), None), logged;
    }
    var exitCode := 0;
    var outcome := run(arguments);
    if outcome.Threw? {
      return Invocation(Failure(MojoExecution(COMPILATION_FAILED)), Some(arguments)), logged;
    }
    if outcome.value.IntegerValue? {
      exitCode := outcome.value.i;
    }
    if flags.failOnError && (exitCode != 0 || Contains(outcome.err, INVALID_ARGUMENT)) {
      result := Invocation(Failure(MojoExecution(COMPILATION_FAILED)), Some(arguments));
    } else {
      result := Invocation(Success(()), Some(arguments));
    }
  }

  /** invokeCompiler(String, List, String, String, Source): compose the vector,
      then find the compiler class, then run it.  A composition error is
      raised before the class is looked up, and a failed lookup before the
      compiler runs. */
  method InvokeCompiler(jvm: Jvm, flags: Flags, sourceDirectory: string, includeDirs: Option<seq<string>>,
                        targetDirectory: string, idlFile: string, source: Source,
                        hasMain: bool, run: seq<string> -> MainOutcome)
    returns (result: Invocation)
    modifies jvm`classPath
    ensures var vector := ArgumentVector(sourceDirectory, includeDirs, targetDirectory, idlFile, source,
                                         jvm.specificationVersion);
      var lookup := LookupCompilerClass(jvm.vendor, jvm.vmName, jvm.loadable, jvm.toolsJarClasses, jvm.faulty);
      match vector
      case Failure(e) => result == Invocation(Failure(e), None) && jvm.classPath == old(jvm.classPath)
      case Success(args) =>
        && jvm.classPath == (if jvm.Load(IdlCompilerClass(jvm.vendor)) == NotFound
                             then ExtendedClassPath(old(jvm.classPath), jvm.pathSeparator, jvm.javaHome)
                             else old(jvm.classPath))
        && result == (if lookup.Failure? then Invocation(Failure(lookup.error), None)
                      else Invoke(flags, args, hasMain, run))
  {
    var vector := BuildArguments(sourceDirectory, includeDirs, targetDirectory, idlFile, source,
                                 jvm.specificationVersion);
    if vector.Failure? {
      return Invocation(Failure(vector.error), None);
    }
    var compilerClass := GetCompilerClass(jvm);
    if compilerClass.Failure? {
      return Invocation(Failure(compilerClass.error), None);
    }
    var logged;
    result, logged := InvokeResolved(flags, compilerClass.value, vector.value, hasMain, run);
  }
}
