/** The translator for the JDK's built-in idlj
    (org.codehaus.mojo.idlj.BuiltInTranslator): it picks the compiler class
    from the VM vendor and loads it through the plugin's class-loader facade,
    retrying once with tools.jar added when the class is missing. */
module BuiltInTranslator {
  import opened Common
  import opened JavaStrings
  import opened JvmState
  import IdljTranslator

  const AIX_COMPILER := "com.ibm.idl.toJavaPortable.Compile"
  const ORACLE_COMPILER := "com.sun.tools.corba.se.idl.toJavaPortable.Compile"
  const COMPILER_UNAVAILABLE := " IDL compiler not available"

  /** isAix(): the VM vendor mentions IBM. */
  predicate IsAix(vendor: string) {
    Contains(vendor, "IBM")
  }

  /** getIDLCompilerClassName() */
  function CompilerClassName(vendor: string): (name: string)
    ensures name == AIX_COMPILER <==> IsAix(vendor)
    ensures name == ORACLE_COMPILER <==> !IsAix(vendor)
  {
    if IsAix(vendor) then AIX_COMPILER else ORACLE_COMPILER
  }

  /** Both translators name the same class for every vendor. */
  lemma CompilerClassNameAgrees(vendor: string)
    ensures CompilerClassName(vendor) == IdljTranslator.IdlCompilerClass(vendor)
  {
  }

  /** A vendor string that merely mentions IBM selects the AIX compiler; a
      vendor without a capital I anywhere selects the Oracle one. */
  lemma VendorExamples()
    ensures CompilerClassName("pretend it is IBM") == AIX_COMPILER
    ensures CompilerClassName("Oracle Corporation") == ORACLE_COMPILER
  {
    var ibm := "pretend it is IBM";
    assert OccursAt(ibm, "IBM", 14);
    ContainsIffOccurs(ibm, "IBM");
    var oracle := "Oracle Corporation";
    assert forall i :: 0 <= i < |oracle| ==> oracle[i] != 'I';
    MissingFirstCharNotContained(oracle, "IBM");
  }

  /** Whether the tools.jar step itself fails: on HotSpot it preloads
      FileLocator through the widened loader, and a failed load propagates. */
  predicate ToolsJarStepFails(vmName: string, widened: set<string>, faulty: set<string>) {
    Contains(vmName, "HotSpot") && LoadIn(widened, faulty, FILE_LOCATOR) != Loaded
  }

  /** The outcome of getCompilerClass() on a loader that can see `loadable`. */
  function Lookup(vendor: string, vmName: string, loadable: set<string>,
                  toolsJarClasses: set<string>, faulty: set<string>): (r: Result<string>)
  {
    var name := CompilerClassName(vendor);
    match LoadIn(loadable, faulty, name)
    case Loaded => Success(name)
    case Faulty => Failure(MojoExecution(COMPILER_UNAVAILABLE))
    case NotFound =>
      var widened := loadable + toolsJarClasses;
      if ToolsJarStepFails(vmName, widened, faulty) then Failure(MojoExecution(COMPILER_UNAVAILABLE))
      else if LoadIn(widened, faulty, name) == Loaded then Success(name)
      else Failure(MojoExecution(COMPILER_UNAVAILABLE))
  }

  /** The load protocol: a class the loader already has is returned without
      a fallback; any other exception on the first load fails at once; a
      missing class is retried exactly once with tools.jar; every failure
      carries the same message; and a returned class is the vendor's class,
      visible either before or through tools.jar. */
  lemma LookupProtocol(vendor: string, vmName: string, loadable: set<string>,
                       toolsJarClasses: set<string>, faulty: set<string>)
    ensures var r := Lookup(vendor, vmName, loadable, toolsJarClasses, faulty);
      var name := CompilerClassName(vendor);
      && (name in loadable && name !in faulty ==> r == Success(name))
      && (name in faulty ==> r == Failure(MojoExecution(COMPILER_UNAVAILABLE)))
      && (name !in loadable && name !in faulty ==>
            (r.Success? <==> name in toolsJarClasses && !ToolsJarStepFails(vmName, loadable + toolsJarClasses, faulty)))
      && (r.Success? ==> r.value == name && name !in faulty && name in loadable + toolsJarClasses)
      && (r.Failure? ==> r.error == MojoExecution(COMPILER_UNAVAILABLE))
  {
  }

  /** addToolsJarToPath(): prepends the jar's URL to the loader facade,
      appends the jar to java.class.path, then preloads FileLocator on HotSpot. */
  method AddToolsJarToPath(jvm: Jvm) returns (r: Result<()>)
    modifies jvm`loaderUrls, jvm`loadable, jvm`classPath
    ensures jvm.loaderUrls == [ToolsJarUrl(jvm.javaHome)] + old(jvm.loaderUrls)
    ensures jvm.loadable == old(jvm.loadable) + jvm.toolsJarClasses
    ensures jvm.classPath == ExtendedClassPath(old(jvm.classPath), jvm.pathSeparator, jvm.javaHome)
    ensures r.Failure? <==> ToolsJarStepFails(jvm.vmName, jvm.loadable, jvm.faulty)
  {
    jvm.PrependUrl(ToolsJarUrl(jvm.javaHome), jvm.toolsJarClasses);
    jvm.AppendToolsJarToClassPath();
    if Contains(jvm.vmName, "HotSpot") && jvm.Load(FILE_LOCATOR) != Loaded {
      // The facade's exception leaves addToolsJarToPath uncaught; only
      // getCompilerClass turns it into COMPILER_UNAVAILABLE.
      return Failure(UncaughtException);
    }
    r := Success(());
  }

  /** getCompilerClass(): the state is untouched unless the first load
      reports the class missing, and then the fallback has run in full. */
  method GetCompilerClass(jvm: Jvm) returns (r: Result<string>)
    modifies jvm`loaderUrls, jvm`loadable, jvm`classPath
    ensures r == Lookup(jvm.vendor, jvm.vmName, old(jvm.loadable), jvm.toolsJarClasses, jvm.faulty)
    ensures old(jvm.Load(CompilerClassName(jvm.vendor))) != NotFound ==>
      && jvm.loaderUrls == old(jvm.loaderUrls)
      && jvm.loadable == old(jvm.loadable)
      && jvm.classPath == old(jvm.classPath)
    ensures old(jvm.Load(CompilerClassName(jvm.vendor))) == NotFound ==>
      && jvm.loaderUrls == [ToolsJarUrl(jvm.javaHome)] + old(jvm.loaderUrls)
      && jvm.loadable == old(jvm.loadable) + jvm.toolsJarClasses
      && jvm.classPath == ExtendedClassPath(old(jvm.classPath), jvm.pathSeparator, jvm.javaHome)
  {
    var name := CompilerClassName(jvm.vendor);
    var first := jvm.Load(name);
    if first == Loaded {
      return Success(name);
    } else if first == Faulty {
      return Failure(MojoExecution(COMPILER_UNAVAILABLE));
    }
    var added := AddToolsJarToPath(jvm);
    if added.Failure? {
      return Failure(MojoExecution(COMPILER_UNAVAILABLE));
    }
    if jvm.Load(name) == Loaded {
      r := Success(name);
    } else {
      r := Failure(MojoExecution(COMPILER_UNAVAILABLE));
    }
  }

  /** invokeCompiler(List): resolve the class, then hand the arguments to the
      shared invocation unchanged. */
  method InvokeCompiler(jvm: Jvm, flags: IdljTranslator.Flags, args: seq<string>, hasMain: bool,
                        run: seq<string> -> IdljTranslator.MainOutcome)
    returns (result: IdljTranslator.Invocation)
    modifies jvm`loaderUrls, jvm`loadable, jvm`classPath
    ensures var lookup := Lookup(jvm.vendor, jvm.vmName, old(jvm.loadable), jvm.toolsJarClasses, jvm.faulty);
      result == if lookup.Failure? then IdljTranslator.Invocation(Failure(lookup.error), None)
                else IdljTranslator.Invoke(flags, args, hasMain, run)
    ensures old(jvm.Load(CompilerClassName(jvm.vendor))) != NotFound ==>
      && jvm.loaderUrls == old(jvm.loaderUrls)
      && jvm.loadable == old(jvm.loadable)
      && jvm.classPath == old(jvm.classPath)
    ensures old(jvm.Load(CompilerClassName(jvm.vendor))) == NotFound ==>
      && jvm.loaderUrls == [ToolsJarUrl(jvm.javaHome)] + old(jvm.loaderUrls)
      && jvm.loadable == old(jvm.loadable) + jvm.toolsJarClasses
      && jvm.classPath == ExtendedClassPath(old(jvm.classPath), jvm.pathSeparator, jvm.javaHome)
  {
    var compilerClass := GetCompilerClass(jvm);
    if compilerClass.Failure? {
      return IdljTranslator.Invocation(Failure(compilerClass.error), None);
    }
    var logged;
    result, logged := IdljTranslator.InvokeResolved(flags, compilerClass.value, args, hasMain, run);
  }
}
