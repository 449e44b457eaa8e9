/** What a mojo run does to the build: the directories it creates, the
    compiler invocations it makes, the files it copies into the timestamp
    directory and the source roots it registers, as an ordered trace.  The
    compiler and the file copy are oracles: `compiles(argv)` says whether
    main returned normally, `copies(file)` whether the copy succeeded. */
module Build {
  import opened Common

  datatype Effect =
    | CreatedDirectory(path: string)
    | Compiled(arguments: seq<string>)
    | Timestamped(file: string, directory: string)
    | RegisteredSourceRoot(path: string)

  /** The file system paths that exist, and everything done so far. */
  class World {
    var existing: set<string>
    var trace: seq<Effect>

    constructor (existing: set<string>)
      ensures this.existing == existing && trace == []
    {
      this.existing := existing;
      trace := [];
    }

    /** if (!fileExists(path)) mkdir(path) */
    method EnsureDirectory(path: string)
      modifies this
      ensures existing == old(existing) + {path}
      ensures trace == old(trace) + MkdirEffects(old(existing), path)
    {
      if path !in existing {
        existing := existing + {path};
        trace := trace + [CreatedDirectory(path)];
      }
    }

    /** Calls the compiler's main; reports whether it returned normally. */
    method Compile(arguments: seq<string>, compiles: seq<string> -> bool) returns (ok: bool)
      modifies this`trace
      ensures ok == compiles(arguments)
      ensures trace == old(trace) + [Compiled(arguments)]
    {
      trace := trace + [Compiled(arguments)];
      ok := compiles(arguments);
    }

    /** copyFileToDirectory(file, directory); reports whether it succeeded. */
    method CopyToDirectory(file: string, directory: string, copies: string -> bool) returns (ok: bool)
      modifies this`trace
      ensures ok == copies(file)
      ensures trace == old(trace) + (if ok then [Timestamped(file, directory)] else [])
    {
      ok := copies(file);
      if ok {
        trace := trace + [Timestamped(file, directory)];
      }
    }

    /** project.addCompileSourceRoot(path) */
    method AddCompileSourceRoot(path: string)
      modifies this`trace
      ensures trace == old(trace) + [RegisteredSourceRoot(path)]
    {
      trace := trace + [RegisteredSourceRoot(path)];
    }
  }

  /** The effect of creating a directory unless the path already exists. */
  function MkdirEffects(existing: set<string>, path: string): (effects: seq<Effect>)
    ensures effects == [] <==> path in existing
    ensures effects != [] ==> effects == [CreatedDirectory(path)]
  {
    if path in existing then [] else [CreatedDirectory(path)]
  }

  /** What the stale-source scanner reports for a source root: the stale
      files, in the iteration order of the set it fills, or an
      InclusionScanException. */
  datatype ScanResult = Scanned(stale: seq<string>) | ScanFailed

  /** The message a failed scan is reported with. */
  function ScanErrorMessage(sourceDirectory: string): (r: string) {
    "Error scanning source root: '" + sourceDirectory + "' for stale CORBA IDL files to reprocess."
  }

  /** A whole run: what it did to the build, and how it ended. */
  datatype Outcome = Outcome(effects: seq<Effect>, result: Result<()>)

  /** The effects of the per-file loop so far, and whether it was aborted. */
  datatype Progress = Progress(effects: seq<Effect>, failed: bool)

  /** The message every failure inside the loop is wrapped in. */
  const EXECUTION_FAILED := "IDLJ execution failed"

  /** For each stale file in turn: compile it with its vector, then copy it
      into the timestamp directory; the first failure of either aborts. */
  function ProcessFiles(files: seq<string>, vectors: seq<seq<string>>, timestampDirectory: string,
                        compiles: seq<string> -> bool, copies: string -> bool): (r: Progress)
    requires |vectors| == |files|
    decreases |files|
  {
    if files == [] then Progress([], false)
    else
      var n := |files| - 1;
      var prior := ProcessFiles(files[..n], vectors[..n], timestampDirectory, compiles, copies);
      if prior.failed then prior
      else if !compiles(vectors[n]) || !copies(files[n]) then Progress(prior.effects + [Compiled(vectors[n])], true)
      else Progress(prior.effects + [Compiled(vectors[n]), Timestamped(files[n], timestampDirectory)], false)
  }

  /** One more step of the loop: the next file is compiled, and timestamped
      if both its compile and its copy succeed. */
  lemma ProcessFilesStep(files: seq<string>, vectors: seq<seq<string>>, timestampDirectory: string,
                         compiles: seq<string> -> bool, copies: string -> bool, k: nat)
    requires |vectors| == |files| && k < |files|
    requires !ProcessFiles(files[..k], vectors[..k], timestampDirectory, compiles, copies).failed
    ensures var prior := ProcessFiles(files[..k], vectors[..k], timestampDirectory, compiles, copies).effects;
      ProcessFiles(files[..k + 1], vectors[..k + 1], timestampDirectory, compiles, copies)
        == if compiles(vectors[k]) && copies(files[k])
           then Progress(prior + [Compiled(vectors[k]), Timestamped(files[k], timestampDirectory)], false)
           else Progress(prior + [Compiled(vectors[k])], true)
  {
    assert files[..k + 1][..k] == files[..k] && vectors[..k + 1][..k] == vectors[..k];
  }

  /** Once the loop has aborted, the remaining files change nothing. */
  lemma {:induction false} ProcessFilesStaysFailed(files: seq<string>, vectors: seq<seq<string>>, timestampDirectory: string,
                                                   compiles: seq<string> -> bool, copies: string -> bool, k: nat)
    requires |vectors| == |files| && k <= |files|
    requires ProcessFiles(files[..k], vectors[..k], timestampDirectory, compiles, copies).failed
    ensures ProcessFiles(files, vectors, timestampDirectory, compiles, copies)
         == ProcessFiles(files[..k], vectors[..k], timestampDirectory, compiles, copies)
    decreases |files| - k
  {
    if k < |files| {
      var n := |files| - 1;
      assert files[..n][..k] == files[..k] && vectors[..n][..k] == vectors[..k];
      ProcessFilesStaysFailed(files[..n], vectors[..n], timestampDirectory, compiles, copies, k);
    } else {
      assert files[..k] == files && vectors[..k] == vectors;
    }
  }

  /** Whether file i both compiles and copies. */
  predicate Succeeds(files: seq<string>, vectors: seq<seq<string>>, compiles: seq<string> -> bool,
                     copies: string -> bool, i: nat)
    requires i < |files| && |vectors| == |files|
  {
    compiles(vectors[i]) && copies(files[i])
  }

  /** The index of the first file that fails, or |files| when none does. */
  function FirstFailure(files: seq<string>, vectors: seq<seq<string>>, compiles: seq<string> -> bool,
                        copies: string -> bool): (j: nat)
    requires |vectors| == |files|
    ensures j <= |files|
    ensures forall i :: 0 <= i < j ==> Succeeds(files, vectors, compiles, copies, i)
    ensures j < |files| ==> !Succeeds(files, vectors, compiles, copies, j)
    decreases |files|
  {
    if files == [] then 0
    else
      var n := |files| - 1;
      var j := FirstFailure(files[..n], vectors[..n], compiles, copies);
      assert forall i :: 0 <= i < n ==>
        Succeeds(files[..n], vectors[..n], compiles, copies, i) == Succeeds(files, vectors, compiles, copies, i);
      if j < n then j
      else if Succeeds(files, vectors, compiles, copies, n) then n + 1
      else n
  }

  /** The shape of the loop's trace: two effects, compile then timestamp,
      for each file before the first failure; the failing file's compile, if
      any file fails; and nothing for the files after it. */
  lemma {:induction false} ProcessFilesLayout(files: seq<string>, vectors: seq<seq<string>>, timestampDirectory: string,
                                              compiles: seq<string> -> bool, copies: string -> bool)
    requires |vectors| == |files|
    ensures var p := ProcessFiles(files, vectors, timestampDirectory, compiles, copies);
      var j := FirstFailure(files, vectors, compiles, copies);
      && (p.failed <==> j < |files|)
      && |p.effects| == 2 * j + (if p.failed then 1 else 0)
      && (forall i :: 0 <= i < j ==>
            p.effects[2 * i] == Compiled(vectors[i]) && p.effects[2 * i + 1] == Timestamped(files[i], timestampDirectory))
      && (p.failed ==> p.effects[2 * j] == Compiled(vectors[j]))
    decreases |files|
  {
    if files != [] {
      var n := |files| - 1;
      ProcessFilesLayout(files[..n], vectors[..n], timestampDirectory, compiles, copies);
      var prior := ProcessFiles(files[..n], vectors[..n], timestampDirectory, compiles, copies);
      var j := FirstFailure(files[..n], vectors[..n], compiles, copies);
      assert forall i :: 0 <= i < n ==> files[..n][i] == files[i] && vectors[..n][i] == vectors[i];
      if !prior.failed && Succeeds(files, vectors, compiles, copies, n) {
        var p := ProcessFiles(files, vectors, timestampDirectory, compiles, copies);
        assert p.effects == prior.effects + [Compiled(vectors[n]), Timestamped(files[n], timestampDirectory)];
        assert forall i :: 0 <= i < n ==> p.effects[2 * i] == prior.effects[2 * i] && p.effects[2 * i + 1] == prior.effects[2 * i + 1];
      }
    }
  }

  /** A file is timestamped only right after a compile of it that returned
      normally: no run starts with a timestamp, and every timestamp follows
      the compile of that same file. */
  lemma TimestampFollowsCompile(files: seq<string>, vectors: seq<seq<string>>, timestampDirectory: string,
                                compiles: seq<string> -> bool, copies: string -> bool)
    requires |vectors| == |files|
    ensures var e := ProcessFiles(files, vectors, timestampDirectory, compiles, copies).effects;
      forall k :: 0 <= k < |e| && e[k].Timestamped? ==>
        && k % 2 == 1 && k / 2 < |files|
        && e[k] == Timestamped(files[k / 2], timestampDirectory)
        && e[k - 1] == Compiled(vectors[k / 2]) && compiles(vectors[k / 2])
  {
    ProcessFilesLayout(files, vectors, timestampDirectory, compiles, copies);
    var p := ProcessFiles(files, vectors, timestampDirectory, compiles, copies);
    var j := FirstFailure(files, vectors, compiles, copies);
    forall k | 0 <= k < |p.effects| && p.effects[k].Timestamped?
      ensures && k % 2 == 1 && k / 2 < |files|
              && p.effects[k] == Timestamped(files[k / 2], timestampDirectory)
              && p.effects[k - 1] == Compiled(vectors[k / 2]) && compiles(vectors[k / 2])
    {
      var i := k / 2;
      if i < j {
        assert p.effects[2 * i] == Compiled(vectors[i]);
        assert Succeeds(files, vectors, compiles, copies, i);
      } else {
        assert false;
      }
    }
  }

  /** An aborted loop has compiled exactly the files up to the failing one
      and timestamped exactly those before it; the trace ends with the
      failing compile.  A loop that was not aborted handled every file. */
  lemma ProcessFilesAbort(files: seq<string>, vectors: seq<seq<string>>, timestampDirectory: string,
                          compiles: seq<string> -> bool, copies: string -> bool)
    requires |vectors| == |files|
    ensures var p := ProcessFiles(files, vectors, timestampDirectory, compiles, copies);
      var j := FirstFailure(files, vectors, compiles, copies);
      && (p.failed ==> j < |files| && !Succeeds(files, vectors, compiles, copies, j)
                       && |p.effects| == 2 * j + 1 && p.effects[|p.effects| - 1] == Compiled(vectors[j]))
      && (!p.failed ==> j == |files| && |p.effects| == 2 * |files|
                        && forall i :: 0 <= i < |files| ==> Succeeds(files, vectors, compiles, copies, i))
  {
  }

  /** Counting the compiles of a trace. */
  function CompileCount(effects: seq<Effect>): (n: nat)
    ensures n <= |effects|
  {
    if effects == [] then 0
    else CompileCount(effects[..|effects| - 1]) + (if effects[|effects| - 1].Compiled? then 1 else 0)
  }

  /** Counting the timestamps of a trace. */
  function TimestampCount(effects: seq<Effect>): (n: nat)
    ensures n <= |effects|
  {
    if effects == [] then 0
    else TimestampCount(effects[..|effects| - 1]) + (if effects[|effects| - 1].Timestamped? then 1 else 0)
  }

  /** Both counts distribute over concatenation. */
  lemma {:induction false} CountsOfConcat(a: seq<Effect>, b: seq<Effect>)
    ensures CompileCount(a + b) == CompileCount(a) + CompileCount(b)
    ensures TimestampCount(a + b) == TimestampCount(a) + TimestampCount(b)
    decreases |b|
  {
    if b == [] {
      assert a + b == a;
    } else {
      var m := |b| - 1;
      assert (a + b)[..|a + b| - 1] == a + b[..m];
      assert (a + b)[|a + b| - 1] == b[m];
      CountsOfConcat(a, b[..m]);
    }
  }

  /** The counts of a single effect. */
  lemma CountsOfSingle(e: Effect)
    ensures CompileCount([e]) == if e.Compiled? then 1 else 0
    ensures TimestampCount([e]) == if e.Timestamped? then 1 else 0
  {
    assert [e][..0] == [];
  }

  /** The loop compiles one file more than it timestamps when it aborts,
      and as many as it timestamps otherwise: later files are never touched. */
  lemma {:induction false} ProcessFilesCounts(files: seq<string>, vectors: seq<seq<string>>, timestampDirectory: string,
                                              compiles: seq<string> -> bool, copies: string -> bool)
    requires |vectors| == |files|
    ensures var p := ProcessFiles(files, vectors, timestampDirectory, compiles, copies);
      var j := FirstFailure(files, vectors, compiles, copies);
      && TimestampCount(p.effects) == j
      && CompileCount(p.effects) == j + (if p.failed then 1 else 0)
    decreases |files|
  {
    if files != [] {
      var n := |files| - 1;
      ProcessFilesCounts(files[..n], vectors[..n], timestampDirectory, compiles, copies);
      ProcessFilesLayout(files[..n], vectors[..n], timestampDirectory, compiles, copies);
      var prior := ProcessFiles(files[..n], vectors[..n], timestampDirectory, compiles, copies);
      var p := ProcessFiles(files, vectors, timestampDirectory, compiles, copies);
      var priorFailure := FirstFailure(files[..n], vectors[..n], compiles, copies);
      var j := FirstFailure(files, vectors, compiles, copies);
      if prior.failed {
        assert p == prior && j == priorFailure;
      } else if Succeeds(files, vectors, compiles, copies, n) {
        var tail := [Compiled(vectors[n]), Timestamped(files[n], timestampDirectory)];
        assert p.effects == prior.effects + tail && j == n + 1;
        assert tail == [Compiled(vectors[n])] + [Timestamped(files[n], timestampDirectory)];
        CountsOfSingle(Compiled(vectors[n]));
        CountsOfSingle(Timestamped(files[n], timestampDirectory));
        CountsOfConcat([Compiled(vectors[n])], [Timestamped(files[n], timestampDirectory)]);
        CountsOfConcat(prior.effects, tail);
      } else {
        var tail := [Compiled(vectors[n])];
        assert p.effects == prior.effects + tail && p.failed && j == n;
        CountsOfSingle(Compiled(vectors[n]));
        CountsOfConcat(prior.effects, tail);
      }
    }
  }
}
