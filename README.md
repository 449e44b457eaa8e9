# idlj-maven-plugin: argument vectors, compiler lookup and the per-file driver

This Dafny project models the core of the idlj-maven-plugin. The plugin is a Maven
plugin that runs the CORBA `idlj` IDL compiler over the stale `.idl` files of a
project. The model covers four parts:

- **Argument-vector composition.** The model covers the three places that turn a
  configuration into the flat argument list handed to `idlj`:
  - `IdljTranslator.invokeCompiler(String, List, String, String, Source)`;
  - the per-file loop of `AbstractIDLJMojo.execute`;
  - the per-file loop of `IDLJMojo.execute`.

  It keeps their exact order, the repeated `-i dir`, `-pkgPrefix type prefix` and
  `-d symbol` slots, the options they reject, the four-way stub/skeleton flag and the
  file path placed last.
- **The invocation verdict.** `-verbose` is prefixed in debug mode. The exit code is
  derived from `main`'s return value. With fail-on-error set, a run fails when the exit
  code is non-zero or the error stream contains `Invalid argument`.
- **Backend selection.** `TranslatorType.selectTranslator` finds the first exact
  selector match, and `"auto"` is resolved from `java.version`. The built-in
  translator chooses the compiler class from the JVM vendor. It then runs its
  load / add-`tools.jar` / retry protocol, which rewrites `java.class.path` and
  prepends the jar to the class loader.
- **The per-run drivers.** Both mojos first check for the compiler. They create the
  output directory and compute the stale set. Each stale file is compiled and then
  copied into the timestamp directory, and the first failure aborts the run.
  `IDLJMojo` finally registers the output directory as a compile source root.

## How the model is built

- Java `null` becomes `Option`. A tri-state `Boolean` is `Option<bool>`, and an
  unconfigured list is `None`.
- Exceptions become `Failure(e)` of a `Result`. `e` is one of three kinds:
  `MojoExecution(message)` for a `MojoExecutionException` with its message,
  `NullPointer` for a dereferenced null, and `UncaughtException` for an exception the
  code does not catch.
- The JVM is the class `JvmState.Jvm`. Its read-only system properties are `const`
  fields. `java.class.path`, the class loader's URL list and the set of classes the
  loader can resolve are `var` fields, which the fallback methods update.
- Class loading is the function `JvmState.LoadIn`. It reports `Loaded`, `NotFound`
  (ClassNotFoundException) or `Faulty` (any other exception or `Error`) from the loadable set and
  a set of classes whose loading throws.
- The compiler's `main` is given as two parameters. `hasMain` says whether the class
  has a `main`. `run` maps an argument vector to what `main` returned or wrote to
  stderr, or to the fact that it threw.
- The file system seen by a mojo is the class `Build.World`. It holds the set of
  existing directories and the trace of effects: directories created, compiles,
  timestamp copies and source roots registered.
  - Whether a compile or a copy returns normally is given by the oracles `compiles`
    and `copies`.
  - The stale set is a `ScanResult`: either the files in iteration order or a failed
    scan.
- Each loop in the source is a `method` with its invariants. It is proved equal to a
  specification function, and the properties are proved as lemmas about that function.

## Model

| member | source | states |
|---|---|---|
| Common.OrEmpty | src/main/java/org/codehaus/mojo/idlj/IdljTranslator.java:75-82 | a null list contributes nothing and a non-null one contributes exactly its elements |
| SourceConfig.DefaultSource | src/main/java/org/codehaus/mojo/idlj/Source.java:31-83 | an unconfigured Source has compatible, emitStubs and emitSkeletons true and packagePrefix, includes, excludes, packagePrefixes, defines and additionalArguments unset |
| IdljTranslator.DefaultSourceVector | src/main/java/org/codehaus/mojo/idlj/Source.java:31-45 | a default Source with no include list yields exactly `-i src -td target -fall`, then `-oldImplBase` unless the specification version is exactly one of 0.0-0.3 or 1.0-1.3, then the file |
| ArgumentSlots.FlagPairsLayout | src/main/java/org/codehaus/mojo/idlj/IdljTranslator.java:75-82 | the repeated flag slots have length 2n, with the flag at 2k and the k-th value at 2k+1 |
| ArgumentSlots.PrefixTriplesLayout | src/main/java/org/codehaus/mojo/idlj/IdljTranslator.java:91-98 | the package-prefix slots have length 3n, with `-pkgPrefix`, the type and the prefix of the k-th entry at 3k, 3k+1 and 3k+2 |
| ArgumentSlots.FlagPairsWithin | src/main/java/org/codehaus/mojo/idlj/IdljTranslator.java:75-82 | the flag-pair layout holds at any offset of an enclosing vector |
| ArgumentSlots.PrefixTriplesWithin | src/main/java/org/codehaus/mojo/idlj/IdljTranslator.java:91-98 | the triple layout holds at any offset of an enclosing vector |
| ArgumentSlots.FlagPairs | src/main/java/org/codehaus/mojo/idlj/IdljTranslator.java:75-82 | definition of the `-i dir` (and `-d symbol`) pairs the loops emit; characterised by FlagPairsLayout, FlagPairsWithin and AppendFlagPairs |
| ArgumentSlots.PrefixTriples | src/main/java/org/codehaus/mojo/idlj/IdljTranslator.java:91-98 | definition of the `-pkgPrefix type prefix` triples; characterised by PrefixTriplesLayout, PrefixTriplesWithin and AppendPrefixTriples |
| ArgumentSlots.Symbols | src/main/java/org/codehaus/mojo/idlj/IdljTranslator.java:101-107 | the symbols of the defines, one per define, in order |
| ArgumentSlots.DefineArgs | src/main/java/org/codehaus/mojo/idlj/IdljTranslator.java:100-109 | the defines fail exactly when some define has a value, with "idlj compiler unable to define symbol values"; otherwise they contribute `-d symbol` per define, in order |
| ArgumentSlots.AppendFlagPairs | src/main/java/org/codehaus/mojo/idlj/IdljTranslator.java:75-82 | the include loop appends the flag-pair slots of the list to the vector built so far |
| ArgumentSlots.AppendPrefixTriples | src/main/java/org/codehaus/mojo/idlj/IdljTranslator.java:91-98 | the prefix loop appends the triples of the list to the vector built so far |
| ArgumentSlots.AppendDefines | src/main/java/org/codehaus/mojo/idlj/IdljTranslator.java:100-109 | the define loop fails with the define error when any define has a value, and otherwise appends the `-d` pairs |
| IdljTranslator.IdlCompilerClass | src/main/java/org/codehaus/mojo/idlj/IdljTranslator.java:184-191 | the IBM class exactly when the vendor contains "IBM", the Sun class exactly when it does not |
| IdljTranslator.IsAncientSpecificationVersion | src/main/java/org/codehaus/mojo/idlj/IdljTranslator.java:130 | definition of the whole-string match of `^[0-1]\.[0-3]`: exactly the three-character versions 0.0-0.3 and 1.0-1.3; characterised by CompatArgs |
| IdljTranslator.PolicyFlag | src/main/java/org/codehaus/mojo/idlj/IdljTranslator.java:111-123 | the full table: `-fall`, `-fclient`, `-fserver` and `-fserverTIE` each exactly under its condition on the tri-state flags; a null emitSkeletons with emitStubs true is a null dereference |
| IdljTranslator.CompatArgs | src/main/java/org/codehaus/mojo/idlj/IdljTranslator.java:125-135 | `-oldImplBase` exactly when compatible is true and the specification version is not a whole-string match of `[0-1]\.[0-3]`, nothing otherwise |
| IdljTranslator.AppendPolicyFlag | src/main/java/org/codehaus/mojo/idlj/IdljTranslator.java:111-123 | appends the policy flag, or fails with the null dereference |
| IdljTranslator.AppendCompatibility | src/main/java/org/codehaus/mojo/idlj/IdljTranslator.java:125-135 | appends the compatibility arguments |
| IdljTranslator.AppendVerbatim | src/main/java/org/codehaus/mojo/idlj/IdljTranslator.java:137-141 | the additional-argument loop appends them unchanged and in order |
| IdljTranslator.BuildArguments | src/main/java/org/codehaus/mojo/idlj/IdljTranslator.java:70-143 | the step-by-step builder produces exactly the argument vector, or the same error |
| IdljTranslator.ArgumentVector | src/main/java/org/codehaus/mojo/idlj/IdljTranslator.java:70-143 | definition of the vector `invokeCompiler` builds, or its error; characterised by ArgumentVectorErrors, ArgumentVectorRegions and the index lemmas it bridges to, and by BuildArguments |
| IdljTranslator.ArgumentVectorErrors | src/main/java/org/codehaus/mojo/idlj/IdljTranslator.java:87-123 | a singular packagePrefix fails first, with its message; otherwise a define with a value fails with the define message; the builder fails exactly in these cases and the emitSkeletons null dereference |
| IdljTranslator.ArgumentVectorRegions | src/main/java/org/codehaus/mojo/idlj/IdljTranslator.java:70-143 | the bridge to the Includes, Prefixes, Defines and Tail index lemmas: a successful vector is the concatenation, in source order, of the source dir, the includes, the target, the prefixes, the defines, the policy flag, the compatibility arguments, the extra arguments and the file |
| IdljTranslator.ArgumentVectorIncludes | src/main/java/org/codehaus/mojo/idlj/IdljTranslator.java:70-85 | the vector starts `-i sourceDirectory`, has `-i dir` for each include in list order, and then `-td targetDirectory` |
| IdljTranslator.ArgumentVectorPrefixes | src/main/java/org/codehaus/mojo/idlj/IdljTranslator.java:91-98 | right after `-td target`, each package prefix occupies exactly its triple, in list order |
| IdljTranslator.ArgumentVectorDefines | src/main/java/org/codehaus/mojo/idlj/IdljTranslator.java:100-109 | right after the prefixes, each define occupies exactly `-d symbol`, in order |
| IdljTranslator.ArgumentVectorTail | src/main/java/org/codehaus/mojo/idlj/IdljTranslator.java:111-143 | exactly one of the four policy flags follows the defines; it is followed by the compatibility arguments, then the extra arguments verbatim, and the IDL file is the last element |
| IdljTranslator.LookupCompilerClassProtocol | src/main/java/org/codehaus/mojo/idlj/IdljTranslator.java:153-179 | a directly loadable class is returned without fallback; a first load that throws something other than ClassNotFoundException escapes uncaught; after ClassNotFoundException the class is found exactly when tools.jar provides it and the HotSpot FileLocator preload (if any) passes; a failing preload and every other modelled failure give " IDL compiler not available" (a preload that throws an `Error` is not modelled, see "## Left out"); a found class is the vendor's class |
| IdljTranslator.LookupCompilerClass | src/main/java/org/codehaus/mojo/idlj/IdljTranslator.java:153-179 | definition of the lookup verdict; characterised by LookupCompilerClassProtocol and GetCompilerClass |
| IdljTranslator.GetCompilerClass | src/main/java/org/codehaus/mojo/idlj/IdljTranslator.java:153-179 | returns the lookup's verdict; java.class.path gains the tools.jar entry exactly when the first Class.forName raised ClassNotFoundException |
| IdljTranslator.ExitCode | src/main/java/org/codehaus/mojo/idlj/IdljTranslator.java:224-236 | the exit code is non-zero only if main returned that Integer, and an Integer return value is the exit code |
| IdljTranslator.WithDebug | src/main/java/org/codehaus/mojo/idlj/IdljTranslator.java:206-208 | definition of the debug prefix; characterised by DebugShiftsArguments |
| IdljTranslator.Invoke | src/main/java/org/codehaus/mojo/idlj/IdljTranslator.java:202-262 | definition of the invocation outcome; characterised by InvokeVerdict and InvokePassesVector, and implemented by InvokeResolved |
| IdljTranslator.DebugShiftsArguments | src/main/java/org/codehaus/mojo/idlj/IdljTranslator.java:206-216 | in debug mode `-verbose` is at index 0 and every other argument is shifted by one, unchanged; otherwise the vector is untouched |
| IdljTranslator.InvokeVerdict | src/main/java/org/codehaus/mojo/idlj/IdljTranslator.java:259-261 | when main returns, the invocation fails exactly when failOnError is set and the exit code is non-zero or "Invalid argument" occurs in stderr |
| IdljTranslator.InvokePassesVector | src/main/java/org/codehaus/mojo/idlj/IdljTranslator.java:202-241 | main receives the (debug-prefixed) vector exactly when it exists; a missing main fails with "Error: Compiler had no main method"; a throwing main fails with "IDL compilation failed" |
| IdljTranslator.InvokeResolved | src/main/java/org/codehaus/mojo/idlj/IdljTranslator.java:202-262 | the imperative invocation has the specified outcome, and in debug mode it logs the class name followed by `-verbose` and the arguments |
| IdljTranslator.InvokeCompiler | src/main/java/org/codehaus/mojo/idlj/IdljTranslator.java:68-147 | an argument error is raised before any compiler lookup and leaves java.class.path alone; otherwise a lookup failure is raised, or the compiler is invoked with the built vector |
| JavaStrings.ContainsIffOccurs | src/main/java/org/codehaus/mojo/idlj/IdljTranslator.java:259 | `contains` holds exactly when `indexOf` finds an occurrence |
| JavaStrings.MissingFirstCharNotContained | src/main/java/org/codehaus/mojo/idlj/BuiltInTranslator.java:115-118 | a string lacking the first character of a non-empty pattern does not contain it |
| JavaStrings.StartsWith | src/main/java/org/codehaus/mojo/idlj/TranslatorType.java:73 | definition of `String.startsWith`: the prefix is the string's first characters; used by IsJavaModuleSystemPresent and SelectionTable |
| JavaStrings.Contains | src/main/java/org/codehaus/mojo/idlj/IdljTranslator.java:170 | definition of `String.contains` / `indexOf != -1`; characterised by ContainsIffOccurs and MissingFirstCharNotContained |
| JavaStrings.ComposeCommand | src/main/java/org/codehaus/mojo/idlj/IdljTranslator.java:209-212 | the loop builds the class name followed by a space before each argument |
| JavaStrings.CommandLine | src/main/java/org/codehaus/mojo/idlj/IdljTranslator.java:209-212 | definition of the debug command string; characterised by ComposeCommand and CommandLineSplits |
| JavaStrings.LastSpace | src/main/java/org/codehaus/mojo/idlj/IdljTranslator.java:209-212 | the position found is a space followed only by non-spaces; with no position the string has no space |
| JavaStrings.LastSpaceAfterSpaceFree | src/main/java/org/codehaus/mojo/idlj/IdljTranslator.java:211 | appending `" " + word` for a space-free word puts the last space right after the prefix |
| JavaStrings.CommandLineSplits | src/main/java/org/codehaus/mojo/idlj/IdljTranslator.java:209-213 | when no argument holds a space, the logged command line splits back into the class name and the arguments |
| TranslatorTypes.ValuesComplete | src/main/java/org/codehaus/mojo/idlj/TranslatorType.java:29-58 | values() lists the four constants, each once |
| TranslatorTypes.Values | src/main/java/org/codehaus/mojo/idlj/TranslatorType.java:27-58 | definition of values(); characterised by ValuesComplete |
| TranslatorTypes.Select | src/main/java/org/codehaus/mojo/idlj/TranslatorType.java:89-91 | definition: the selector equals the setting exactly, and null equals none; characterised by SelectorsDistinct and SelectionTable |
| TranslatorTypes.IsJavaModuleSystemPresent | src/main/java/org/codehaus/mojo/idlj/TranslatorType.java:71-74 | definition: java.version does not start with "1."; characterised by CreateTranslator and SelectionTable |
| TranslatorTypes.CreateTranslator | src/main/java/org/codehaus/mojo/idlj/TranslatorType.java:29-35 | "auto" creates the Glassfish translator exactly when the module system is present, the built-in one exactly when it is not |
| TranslatorTypes.FirstMatch | src/main/java/org/codehaus/mojo/idlj/TranslatorType.java:78-84 | a found index selects the setting and no earlier type does; with no index no type selects it |
| TranslatorTypes.SelectTranslator | src/main/java/org/codehaus/mojo/idlj/TranslatorType.java:76-87 | the loop over values() returns the first match's translator, or fails naming the setting |
| TranslatorTypes.Selector | src/main/java/org/codehaus/mojo/idlj/TranslatorType.java:29-69 | definition of each constant's selector; characterised by SelectorsDistinct and SelectionTable |
| TranslatorTypes.SettingText | src/main/java/org/codehaus/mojo/idlj/TranslatorType.java:86 | definition: a null setting prints as "null", any other as itself; characterised by UnknownCompilerRejected |
| TranslatorTypes.UnsupportedMessage | src/main/java/org/codehaus/mojo/idlj/TranslatorType.java:86 | definition of "Compiler not supported: " followed by the setting; characterised by SelectionTable and UnknownCompilerRejected |
| TranslatorTypes.Selection | src/main/java/org/codehaus/mojo/idlj/TranslatorType.java:76-91 | definition of selectTranslator as a value; characterised by SelectionTable and implemented by SelectTranslator |
| TranslatorTypes.SelectorsDistinct | src/main/java/org/codehaus/mojo/idlj/TranslatorType.java:29-58 | the selectors are pairwise distinct, so at most one type matches any setting |
| TranslatorTypes.SelectionTable | src/main/java/org/codehaus/mojo/idlj/TranslatorType.java:29-91 | "idlj", "glassfish" and "jacorb" select their translators; "auto" is built-in exactly when java.version starts with "1."; selection succeeds exactly for the four selectors (exact, case-sensitive, null matches none); otherwise it fails with "Compiler not supported: " and the setting |
| TranslatorTypes.UnknownCompilerRejected | src/test/java/org/codehaus/mojo/idlj/IDLJTestCase.java:51-56 | `selectTranslator` rejects "unknown" with "Compiler not supported: unknown", and a null setting passed to it with "Compiler not supported: null" |
| BuiltInTranslator.CompilerClassName | src/main/java/org/codehaus/mojo/idlj/BuiltInTranslator.java:109-118 | the AIX compiler exactly when the vendor contains "IBM", the Oracle one exactly when it does not |
| BuiltInTranslator.IsAix | src/main/java/org/codehaus/mojo/idlj/BuiltInTranslator.java:115-118 | definition: the vendor contains "IBM"; characterised by CompilerClassName |
| BuiltInTranslator.CompilerClassNameAgrees | src/main/java/org/codehaus/mojo/idlj/BuiltInTranslator.java:109-118 | the built-in translator picks the same class as IdljTranslator for every vendor |
| BuiltInTranslator.VendorExamples | src/test/java/org/codehaus/mojo/idlj/IDLJTestCase.java:58-63 | the vendor "pretend it is IBM" selects the IBM class and "Oracle Corporation" the Oracle class |
| BuiltInTranslator.ToolsJarStepFails | src/main/java/org/codehaus/mojo/idlj/BuiltInTranslator.java:99-102 | definition: a HotSpot VM whose widened loader cannot load FileLocator; characterised by AddToolsJarToPath |
| BuiltInTranslator.Lookup | src/main/java/org/codehaus/mojo/idlj/BuiltInTranslator.java:60-85 | definition of the lookup verdict; characterised by LookupProtocol and GetCompilerClass |
| BuiltInTranslator.LookupProtocol | src/main/java/org/codehaus/mojo/idlj/BuiltInTranslator.java:60-85 | a directly loadable class is returned; a class whose first load throws something else fails at once; after ClassNotFoundException the lookup succeeds exactly when tools.jar provides the class and the HotSpot FileLocator step passes; every failure is " IDL compiler not available" |
| BuiltInTranslator.AddToolsJarToPath | src/main/java/org/codehaus/mojo/idlj/BuiltInTranslator.java:88-103 | prepends the tools.jar URL to the loader and makes its classes loadable; java.class.path becomes old + separator + tools.jar path; it fails exactly when a HotSpot VM cannot then load FileLocator |
| BuiltInTranslator.GetCompilerClass | src/main/java/org/codehaus/mojo/idlj/BuiltInTranslator.java:60-85 | returns the protocol's verdict; nothing changes unless the first load was ClassNotFoundException, and then the fallback's changes are made exactly once |
| BuiltInTranslator.InvokeCompiler | src/main/java/org/codehaus/mojo/idlj/BuiltInTranslator.java:50-54 | the class is resolved first and a lookup failure is raised; otherwise the arguments are passed through unchanged to the invocation |
| JvmState.LoadIn | src/main/java/org/codehaus/mojo/idlj/BuiltInTranslator.java:66 | a class loads exactly when it is loadable and not faulty, and is not found exactly when it is neither |
| JvmState.Jvm.Load | src/main/java/org/codehaus/mojo/idlj/BuiltInTranslator.java:66 | definition: the plugin's loader, as LoadIn over the loadable set; used by the GetCompilerClass contracts |
| JvmState.Jvm.LoadWithToolsJar | src/main/java/org/codehaus/mojo/idlj/IdljTranslator.java:163-173 | definition: the URLClassLoader over tools.jar, as LoadIn over the loadable set and the classes of tools.jar; used by IdljTranslator.GetCompilerClass |
| JvmState.ToolsJarPath | src/main/java/org/codehaus/mojo/idlj/BuiltInTranslator.java:90-98 | definition of the tools.jar path; characterised by ExtendedClassPath |
| JvmState.ToolsJarUrl | src/main/java/org/codehaus/mojo/idlj/BuiltInTranslator.java:90-93 | definition of the tools.jar URL; characterised by BuiltInTranslator.AddToolsJarToPath |
| JvmState.ExtendedClassPath | src/main/java/org/codehaus/mojo/idlj/BuiltInTranslator.java:97-98 | the new class path keeps the old one as its prefix and appends the separator and the tools.jar path |
| JvmState.Jvm.AppendToolsJarToClassPath | src/main/java/org/codehaus/mojo/idlj/BuiltInTranslator.java:97-98 | java.class.path becomes the extended class path and nothing else changes |
| JvmState.Jvm.PrependUrl | src/main/java/org/codehaus/mojo/idlj/BuiltInTranslator.java:93 | the URL goes to the front of the loader's list and its classes become loadable |
| Build.World.EnsureDirectory | src/main/java/org/codehaus/mojo/idlj/AbstractIDLJMojo.java:141-144 | the output directory exists afterwards, and a creation is recorded only if it was absent |
| Build.World.Compile | src/main/java/org/codehaus/mojo/idlj/AbstractIDLJMojo.java:199 | records the compile of the vector and reports whether it returned normally |
| Build.World.CopyToDirectory | src/main/java/org/codehaus/mojo/idlj/AbstractIDLJMojo.java:203 | records the timestamp copy only when it succeeds |
| Build.World.AddCompileSourceRoot | src/main/java/org/codehaus/mojo/idlj/IDLJMojo.java:175 | records the registration of the source root |
| Build.MkdirEffects | src/main/java/org/codehaus/mojo/idlj/IDLJMojo.java:116-119 | nothing is created exactly when the directory exists; otherwise exactly that directory is created |
| Build.ScanErrorMessage | src/main/java/org/codehaus/mojo/idlj/AbstractIDLJMojo.java:238 | definition of the scan-failure message, naming the source root |
| Build.ProcessFiles | src/main/java/org/codehaus/mojo/idlj/AbstractIDLJMojo.java:154-213 | definition of the per-file loop; characterised by ProcessFilesStep, ProcessFilesLayout, ProcessFilesAbort and ProcessFilesCounts |
| Build.Succeeds | src/main/java/org/codehaus/mojo/idlj/AbstractIDLJMojo.java:199-203 | definition: the file's compile and its timestamp copy both return normally; characterised by FirstFailure |
| Build.ProcessFilesStep | src/main/java/org/codehaus/mojo/idlj/AbstractIDLJMojo.java:154-213 | after an unbroken prefix, the next file adds its compile, then its timestamp copy if both returned, and otherwise ends the run |
| Build.ProcessFilesStaysFailed | src/main/java/org/codehaus/mojo/idlj/AbstractIDLJMojo.java:205-212 | once a file has failed, the later files add nothing |
| Build.FirstFailure | src/main/java/org/codehaus/mojo/idlj/AbstractIDLJMojo.java:154-213 | every file before the index compiles and copies, and the file at the index (if any) does not |
| Build.ProcessFilesLayout | src/main/java/org/codehaus/mojo/idlj/AbstractIDLJMojo.java:154-213 | the loop fails exactly when some file fails; the effects are compile/timestamp pairs for each file before the first failure, then that file's compile alone |
| Build.TimestampFollowsCompile | src/main/java/org/codehaus/mojo/idlj/AbstractIDLJMojo.java:199-203 | every timestamp copy is of the file compiled just before it, and that compile returned normally |
| Build.ProcessFilesAbort | src/main/java/org/codehaus/mojo/idlj/AbstractIDLJMojo.java:205-212 | a failed loop ends with the failing file's compile, after 2j effects; a complete loop has two effects per file and every file succeeded |
| Build.CompileCount | src/main/java/org/codehaus/mojo/idlj/AbstractIDLJMojo.java:199 | counts compiles, never more than the effects |
| Build.TimestampCount | src/main/java/org/codehaus/mojo/idlj/AbstractIDLJMojo.java:203 | counts timestamp copies, never more than the effects |
| Build.CountsOfConcat | src/main/java/org/codehaus/mojo/idlj/AbstractIDLJMojo.java:154-213 | both counts add up over concatenation |
| Build.CountsOfSingle | src/main/java/org/codehaus/mojo/idlj/AbstractIDLJMojo.java:199-203 | a single compile effect counts one compile and no timestamp, a single timestamp copy the reverse, anything else neither |
| Build.ProcessFilesCounts | src/main/java/org/codehaus/mojo/idlj/AbstractIDLJMojo.java:154-213 | exactly the files before the first failure are timestamped, and one more is compiled when the loop fails |
| AbstractIdljMojo.ResolveCompilerCases | src/main/java/org/codehaus/mojo/idlj/AbstractIDLJMojo.java:103-138 | resolution succeeds exactly when the Sun class loads directly or through tools.jar and has main; a missing class gives " Sun IDL compiler not available"; a missing main gives the same text with a trailing space; a throwing load is uncaught |
| AbstractIdljMojo.ResolveCompiler | src/main/java/org/codehaus/mojo/idlj/AbstractIDLJMojo.java:103-138 | definition of the compiler resolution; characterised by ResolveCompilerCases |
| AbstractIdljMojo.StaleGrammars | src/main/java/org/codehaus/mojo/idlj/AbstractIDLJMojo.java:217-242 | definition of computeStaleGrammars; characterised by NothingStaleNothingDone and NullSourceDirectoryFailsScan |
| AbstractIdljMojo.ArgumentVectorLayout | src/main/java/org/codehaus/mojo/idlj/AbstractIDLJMojo.java:158-183 | `-i sourceDirectory` only when it is non-null, then `-i javaIdlDirectory -td outputDirectory`, then a triple per prefix (none for a null list), then the file last |
| AbstractIdljMojo.ArgumentVector | src/main/java/org/codehaus/mojo/idlj/AbstractIDLJMojo.java:158-183 | definition of the vector for one file; characterised by ArgumentVectorLayout |
| AbstractIdljMojo.Arguments | src/main/java/org/codehaus/mojo/idlj/AbstractIDLJMojo.java:158-183 | definition: the null dereference of javaIdlDirectory, or the vector; characterised by BuildArguments |
| AbstractIdljMojo.BuildArguments | src/main/java/org/codehaus/mojo/idlj/AbstractIDLJMojo.java:158-183 | the step-by-step builder produces the specified vector, or the null dereference of javaIdlDirectory |
| AbstractIdljMojo.Vectors | src/main/java/org/codehaus/mojo/idlj/AbstractIDLJMojo.java:156-183 | one vector per stale file, each the one built for that file |
| AbstractIdljMojo.Run | src/main/java/org/codehaus/mojo/idlj/AbstractIDLJMojo.java:127-215 | definition of a whole run; characterised by CompilerResolvedFirst, NothingStaleNothingDone, RunTimestampsFollowCompiles and RunStopsAtFirstFailure, and implemented by Execute |
| AbstractIdljMojo.ProcessStale | src/main/java/org/codehaus/mojo/idlj/AbstractIDLJMojo.java:154-213 | the loop records exactly the specified compile/copy effects and fails with "IDLJ execution failed" exactly when a file fails |
| AbstractIdljMojo.Execute | src/main/java/org/codehaus/mojo/idlj/AbstractIDLJMojo.java:127-215 | execute records exactly the run's effects and returns its verdict; the output directory exists afterwards exactly when the compiler resolved |
| AbstractIdljMojo.CompilerResolvedFirst | src/main/java/org/codehaus/mojo/idlj/AbstractIDLJMojo.java:129-138 | when resolution fails, nothing is created, compiled or copied, and its error is the run's |
| AbstractIdljMojo.NothingStaleNothingDone | src/main/java/org/codehaus/mojo/idlj/AbstractIDLJMojo.java:148-152 | a missing source directory or an empty stale set means success with at most the output directory created: no compile and no timestamp copy |
| AbstractIdljMojo.NullSourceDirectoryFailsScan | src/main/java/org/codehaus/mojo/idlj/AbstractIDLJMojo.java:227 | a null source directory fails at `new File(null)` in the scan, before the loop and its null guard |
| AbstractIdljMojo.RunTimestampsFollowCompiles | src/main/java/org/codehaus/mojo/idlj/AbstractIDLJMojo.java:199-203 | in any run, a timestamp copy directly follows a compile that returned normally |
| AbstractIdljMojo.RunStopsAtFirstFailure | src/main/java/org/codehaus/mojo/idlj/AbstractIDLJMojo.java:154-213 | the run succeeds exactly when every stale file compiles and copies; it timestamps the files before the first failure, compiles one more on failure, and ends with that compile and "IDLJ execution failed" |
| IdljMojo.CheckForIdlCompiler | src/main/java/org/codehaus/mojo/idlj/IDLJMojo.java:179-189 | the check passes exactly when the Sun class loads, and fails with "Sun IDL compiler not available" exactly when it is not found |
| IdljMojo.StaleGrammars | src/main/java/org/codehaus/mojo/idlj/IDLJMojo.java:191-213 | definition of computeStaleGrammars; a null source directory is the null dereference; characterised at run level by RunStopsAtFirstFailure |
| IdljMojo.Arguments | src/main/java/org/codehaus/mojo/idlj/IDLJMojo.java:133-149 | building a vector fails exactly when a null field is dereferenced, and that failure is the null dereference |
| IdljMojo.DereferencesNull | src/main/java/org/codehaus/mojo/idlj/IDLJMojo.java:135-147 | definition: javaIdlDirectory, sourceDirectory or packagePrefixes is null; characterised by Arguments and NullPrefixesFail |
| IdljMojo.ArgumentVector | src/main/java/org/codehaus/mojo/idlj/IDLJMojo.java:133-149 | definition of the vector for one file; characterised by ArgumentVectorLayout |
| IdljMojo.ArgumentVectorLayout | src/main/java/org/codehaus/mojo/idlj/IDLJMojo.java:133-149 | `-i javaIdl -i source -td output` in that order, then a triple per prefix, then the file last |
| IdljMojo.BuildArguments | src/main/java/org/codehaus/mojo/idlj/IDLJMojo.java:133-149 | the step-by-step builder produces the specified vector or the null dereference |
| IdljMojo.Vectors | src/main/java/org/codehaus/mojo/idlj/IDLJMojo.java:131-149 | one vector per stale file, each the one built for that file |
| IdljMojo.Run | src/main/java/org/codehaus/mojo/idlj/IDLJMojo.java:112-177 | definition of a whole run; characterised by CompilerCheckedFirst, NullPrefixesFail, RegisteredOnlyAfterCompleteRun, RunTimestampsFollowCompiles and RunStopsAtFirstFailure, and implemented by Execute |
| IdljMojo.StaleOutcome | src/main/java/org/codehaus/mojo/idlj/IDLJMojo.java:129-176 | definition of the loop and registration after the scan; characterised by StaleOutcomeStopsAtFirstFailure and implemented by ProcessAndRegister |
| IdljMojo.Registration | src/main/java/org/codehaus/mojo/idlj/IDLJMojo.java:171-176 | the output directory is registered exactly when the project is non-null |
| IdljMojo.ProcessStale | src/main/java/org/codehaus/mojo/idlj/IDLJMojo.java:129-169 | the loop records exactly the specified compile/copy effects and fails with "IDLJ execution failed" exactly when a file fails; a null field fails before any compile |
| IdljMojo.ProcessAndRegister | src/main/java/org/codehaus/mojo/idlj/IDLJMojo.java:129-176 | the loop and the registration after it record exactly the specified effects and verdict |
| IdljMojo.Execute | src/main/java/org/codehaus/mojo/idlj/IDLJMojo.java:112-177 | execute records exactly the run's effects and returns its verdict; the output directory exists afterwards exactly when the compiler check passed |
| IdljMojo.CompilerCheckedFirst | src/main/java/org/codehaus/mojo/idlj/IDLJMojo.java:114 | a missing compiler class fails the run with "Sun IDL compiler not available" before any directory creation or scan |
| IdljMojo.NullPrefixesFail | src/main/java/org/codehaus/mojo/idlj/IDLJMojo.java:142 | with a null packagePrefixes, any stale file makes the run a null dereference before any compile |
| IdljMojo.RegisteredOnlyAfterCompleteRun | src/main/java/org/codehaus/mojo/idlj/IDLJMojo.java:121-176 | the run ends with the source-root registration exactly when the project is non-null and every one of at least one stale file was processed |
| IdljMojo.RunTimestampsFollowCompiles | src/main/java/org/codehaus/mojo/idlj/IDLJMojo.java:151-160 | in any run, a timestamp copy directly follows a compile that returned normally |
| IdljMojo.StaleOutcomeStopsAtFirstFailure | src/main/java/org/codehaus/mojo/idlj/IDLJMojo.java:129-176 | after the scan, the loop succeeds exactly when every file compiles and copies; it timestamps the files before the first failure and ends with the failing compile |
| IdljMojo.RunStopsAtFirstFailure | src/main/java/org/codehaus/mojo/idlj/IDLJMojo.java:112-177 | the same for a whole run: the directory creation adds no compile or timestamp, and a failure ends with the failing compile and "IDLJ execution failed" |

## Left out

- Logging is left out. This covers every `getLog()` message, the duplicated output and
  restore in the `finally` block of `IdljTranslator.invokeCompiler`, and the "Executing:"
  command text of `AbstractIDLJMojo.execute`. The model keeps only the debug command line
  of `IdljTranslator`, as `logged`.
- Reflection on `main` and the redirection of `System.out`/`System.err` are foreign calls
  and global stream state. `main` is the parameter `run`, which yields the return value
  and the captured streams, or the fact that it threw.
- The staleness computation is not modelled. `StaleSourceScanner` and `SuffixMapping` are
  not part of this model, so the stale set, or a scan failure, is an input.
- Real class loading, `URLClassLoader` and the class-loader facade are replaced by the set
  of loadable class names. The fallback enlarges that set with the classes of tools.jar.
  The HotSpot `FileLocator` preload is a load in the enlarged set.
- Build.ScanErrorMessage: the message joins the source root as the configured string.
  The source joins the `File` built from it, whose `toString` is the normalised path
  (separators converted, a trailing separator dropped). `File` path normalisation is not
  modelled.
- JvmState.ToolsJarPath: the path is written as java.home + "/../lib/tools.jar".
  `File.getAbsolutePath` does not normalise the path, and the URL is "file:" + path. The
  URL encoding and the absolute-path resolution of `File` are not modelled.
- IdljTranslator.GetCompilerClass: the source uses a new `URLClassLoader` over tools.jar
  rather than the plugin's loader facade. This is modelled by what it can load; the
  loader object itself is not kept.
- IdljTranslator.LookupCompilerClass: a FileLocator preload (IdljTranslator.java:171) or
  a retried load (:173) that throws a Java `Error` escapes the `catch (Exception notUsed)`
  at :174. The model's single `Faulty` outcome cannot tell an `Error` from an
  `Exception` there, and maps both to " IDL compiler not available". An `Error` that
  escapes at that point is not modelled.
- BuiltInTranslator.Lookup: a class load that throws a Java `Error` (a `LinkageError` such
  as `NoClassDefFoundError`) is not caught by the `catch (Exception ...)` clauses at
  BuiltInTranslator.java:75 and :80, so it escapes `getCompilerClass`. The model has one
  `Faulty` outcome for every failure other than ClassNotFoundException and maps it to
  " IDL compiler not available"; `Error`s that escape are not modelled.
- How a mojo chooses a translator when no compiler is configured is not part of this
  model. The test at IDLJTestCase.java:44-49 expects that case to succeed at the mojo
  level. `TranslatorTypes.UnknownCompilerRejected` is about a null setting passed to
  `selectTranslator` itself, which rejects it.
- The Glassfish and JacORB translators are not part of this model. They are opaque tags
  of `TranslatorTypes.TranslatorKind`.
- `projectHelper.addResource` (the `.dat` resource of `IDLJMojo`) is a Maven build-model
  call and is not recorded. Only `addCompileSourceRoot` is.
- DependenciesFacade, DependenciesFacadeImpl, TestIDLJMojo and PackageTranslation are not
  part of this model. They are wiring and holders that the modelled logic does not use.
- Some values are taken as non-null, because a Dafny `string` cannot be null. A null
  one would raise a NullPointerException or put a null element into an argument list,
  and neither is modelled. The values are:
  - the system properties `java.vm.vendor`, `java.vm.name`, `java.version`,
    `java.specification.version`, `java.home`, `path.separator` and `java.class.path`
    (which IdljTranslator.java:168 and BuiltInTranslator.java:97 concatenate, so a null
    one would read as "null");
  - the `sourceDirectory`, `targetDirectory` and `idlFile` strings passed to
    `IdljTranslator.invokeCompiler`, and its `Source` argument;
  - the output and timestamp directories of both mojos;
  - the elements of the configured lists;
  - `projectHelper` in `IDLJMojo`, which is not modelled at all.

  Class-cast failures on list elements are left out for the same reason.
- IdljTranslator.InvokeResolved prepends `-verbose` to its own copy of the argument
  list. The source inserts it into the caller's list in place, with `args.add(0, ...)`.
  That list is created locally by `invokeCompiler`, and nothing reads it afterwards, so the
  model does not capture that in-place update.
- A `HashSet` of stale files is iterated in an order the model takes as given. The model
  proves its properties for every order.
- BuiltInTranslator.InvokeCompiler overrides `invokeCompiler(List<String>)`, which does not
  appear in the `IdljTranslator` shown, since the two files come from different
  revisions. The model uses the shown `invokeCompiler(Class, List)` for the invocation,
  through `IdljTranslator.InvokeResolved`.
- `Source.getIncludes`/`getExcludes` are kept as fields only. No modelled operation reads
  them.
- `AbstractIDLJMojo` guards `getSourceDirectory() != null` at line 160. That guard cannot
  fire, because `computeStaleGrammars` has already failed on `new File(null)` at line 227.
  `AbstractIdljMojo.NullSourceDirectoryFailsScan` states this. The model keeps the guard
  as written.
