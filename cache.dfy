/** The output cache of `processImage`, the page pass of `sharpTransform`
    and `clearOutputDir` as functions of a world: the in-memory set of
    identities already materialised, the files and directories on disk,
    and a count of the pipelines rendered. The classes of `SharpPlugin`
    are proved against these functions. */
module Cache {

  import opened Wrappers
  import opened Strings
  import opened Paths
  import opened Descriptor
  import opened Naming
  import opened Rewriter
  import opened RoundTrip

  /** A pipeline of the image library: the input it reads and the
      operations applied to it, in order. `toFile` writes this. */
  datatype Image = Image(source: string, steps: seq<Operation>)

  /** What the core cannot see: whether the pipeline takes an operation
      (the method exists and accepts the arguments), whether a pipeline
      renders (its input can be read and decoded, the operations apply),
      and where the file system lets the plugin create an entry. */
  datatype Host = Host(accepts: Operation -> bool, renders: Image -> bool, writable: string -> bool)

  datatype Error =
    | BadOperation(name: string)       // `pipeline[method](...args)` threw
    | MkdirFailed(dir: string)         // `fs.mkdir` rejected
    | RenderFailed(path: string)       // `pipeline.toFile` rejected
    | ParseFailed(configText: string)  // `JSON.parse` threw in the replace callback

  /** `imageCache` (as the set of its keys), the files on disk with the
      pipeline each was written from, the directories, and the number of
      `toFile` calls so far. */
  datatype World = World(cache: set<string>, files: map<string, Image>, dirs: set<string>, renders: nat)

  /** The state after an operation that settles without a value. */
  datatype Outcome = Outcome(world: World, error: Option<Error>)

  /** The state after the transform, and the content it settles with. */
  datatype Page = Page(world: World, result: Result<string, Error>)

  /** `fs.access` succeeds: a file or directory is at `path`. */
  predicate Exists(w: World, path: string)
  {
    path in w.files || path in w.dirs
  }

  /** `path.join(outputDir, outputFileName)`. */
  function OutputFilePath(env: Env, fileName: string): string
  {
    Join(env.options.outputDir, fileName)
  }

  /** The pipeline `processImage` builds for a descriptor. */
  function Pipeline(c: Config): Image
  {
    Image(c.inputPath, c.operations)
  }

  /** The first operation at which building the pipeline throws. */
  function FirstRejected(host: Host, ops: seq<Operation>): (r: Option<Operation>)
    ensures r.None? <==> forall i :: 0 <= i < |ops| ==> host.accepts(ops[i])
    ensures r.Some? ==> exists i :: 0 <= i < |ops| && ops[i] == r.value && !host.accepts(ops[i])
                                    && forall j :: 0 <= j < i ==> host.accepts(ops[j])
    decreases |ops|
  {
    if ops == [] then None
    else if !host.accepts(ops[0]) then Some(ops[0])
    else
      var r := FirstRejected(host, ops[1..]);
      assert forall i :: 1 <= i < |ops| ==> ops[i] == ops[1..][i - 1];
      r
  }

  /** `fs.mkdir(dir, { recursive: true })` succeeds. */
  predicate CanMakeDir(host: Host, w: World, dir: string)
  {
    dir in w.dirs || host.writable(dir)
  }

  /** `processImage(config, outputFileName)`. */
  function Process(env: Env, host: Host, w: World, c: Config, fileName: string): Outcome
  {
    var key := Identity(env, c);
    var path := OutputFilePath(env, fileName);
    if key in w.cache then Outcome(w, None)
    else if Exists(w, path) then Outcome(w.(cache := w.cache + {key}), None)
    else
      match FirstRejected(host, c.operations)
      case Some(op) => Outcome(w, Some(BadOperation(op.name)))
      case None =>
        var dir := Dirname(path);
        if !CanMakeDir(host, w, dir) then Outcome(w, Some(MkdirFailed(dir)))
        else
          var made := w.(dirs := w.dirs + {dir}, renders := w.renders + 1);
          if host.renders(Pipeline(c)) && host.writable(path) then
            Outcome(made.(files := made.files[path := Pipeline(c)], cache := made.cache + {key}), None)
          else
            Outcome(made, Some(RenderFailed(path)))
  }

  /** The awaited `processImage` calls of one page, one after the other;
      the error is the first one in order. */
  function RunJobs(env: Env, host: Host, w: World, jobs: seq<Job>): Outcome
    decreases |jobs|
  {
    if jobs == [] then Outcome(w, None)
    else
      var before := RunJobs(env, host, w, jobs[..|jobs| - 1]);
      var job := jobs[|jobs| - 1];
      var last := Process(env, host, before.world, job.config, job.fileName);
      Outcome(last.world, if before.error.Some? then before.error else last.error)
  }

  /** `sharpTransform(content, outputPath)`: the replace, then its jobs.
      A parse error abandons the replace; the jobs scheduled before it
      still run. */
  function Transform(env: Env, host: Host, w: World, content: string, outputPath: Option<string>): Page
  {
    var r := Rewrite(env, content, outputPath);
    var run := RunJobs(env, host, w, r.jobs);
    if r.error.Some? then Page(run.world, Failure(ParseFailed(r.error.value)))
    else if run.error.Some? then Page(run.world, Failure(run.error.value))
    else Page(run.world, Success(r.text))
  }

  /** The files outside the tree at `dir`. */
  function FilesOutside(files: map<string, Image>, dir: string): map<string, Image>
  {
    map p | p in files && !UnderDir(p, dir) :: files[p]
  }

  /** The directories outside the tree at `dir`. */
  function DirsOutside(dirs: set<string>, dir: string): set<string>
  {
    set d | d in dirs && !UnderDir(d, dir)
  }

  /** `clearOutputDir`: an empty cache, the output tree removed (`force`
      ignores a missing tree), then the output directory made again. */
  function Clear(env: Env, host: Host, w: World): Outcome
  {
    var dir := env.options.outputDir;
    var emptied := World({}, FilesOutside(w.files, dir), DirsOutside(w.dirs, dir), w.renders);
    if host.writable(dir) then Outcome(emptied.(dirs := emptied.dirs + {dir}), None)
    else Outcome(emptied, Some(MkdirFailed(dir)))
  }

  /** The world when the plugin is created: an empty cache and the
      output directory requested. */
  function Start(env: Env, host: Host, files: map<string, Image>, dirs: set<string>): World
  {
    var dir := env.options.outputDir;
    World({}, files, if dir in dirs || host.writable(dir) then dirs + {dir} else dirs, 0)
  }

  /** Every cached identity names an entry on disk: a cache hit stands
      for an output that was found or written. */
  ghost predicate Backed(w: World)
  {
    forall k :: k in w.cache ==> exists p :: Exists(w, p) && Contains(p, k)
  }

  // ---------------------------------------------------------------------
  // processImage

  /** A cached identity is skipped: nothing is looked up, built or written. */
  lemma CacheHitNoop(env: Env, host: Host, w: World, c: Config, fileName: string)
    requires Identity(env, c) in w.cache
    ensures Process(env, host, w, c, fileName) == Outcome(w, None)
  {
  }

  /** An output already on disk is recorded in the cache and not rendered
      again; nothing else changes. */
  lemma ExistingFileRecorded(env: Env, host: Host, w: World, c: Config, fileName: string)
    requires Identity(env, c) !in w.cache && Exists(w, OutputFilePath(env, fileName))
    ensures Process(env, host, w, c, fileName) == Outcome(w.(cache := w.cache + {Identity(env, c)}), None)
  {
  }

  /** A pipeline is rendered at most once per call, and only for an
      identity not in the cache whose output is missing, whose operations
      are all accepted and whose directory could be made. */
  lemma RenderOnlyWhenMissing(env: Env, host: Host, w: World, c: Config, fileName: string)
    ensures var o := Process(env, host, w, c, fileName);
            w.renders <= o.world.renders <= w.renders + 1
    ensures var o := Process(env, host, w, c, fileName);
            o.world.renders != w.renders <==>
              && Identity(env, c) !in w.cache
              && !Exists(w, OutputFilePath(env, fileName))
              && FirstRejected(host, c.operations).None?
              && CanMakeDir(host, w, Dirname(OutputFilePath(env, fileName)))
  {
  }

  /** Which error `processImage` rejects with, and when it settles. */
  lemma ProcessErrors(env: Env, host: Host, w: World, c: Config, fileName: string)
    ensures var o := Process(env, host, w, c, fileName);
            var path := OutputFilePath(env, fileName);
            var missing := Identity(env, c) !in w.cache && !Exists(w, path);
            && (o.error.Some? && o.error.value.BadOperation? <==> missing && FirstRejected(host, c.operations).Some?)
            && (o.error.Some? && o.error.value.MkdirFailed? <==>
                  missing && FirstRejected(host, c.operations).None? && !CanMakeDir(host, w, Dirname(path)))
            && (o.error.Some? && o.error.value.RenderFailed? <==>
                  missing && FirstRejected(host, c.operations).None? && CanMakeDir(host, w, Dirname(path))
                  && !(host.renders(Pipeline(c)) && host.writable(path)))
            && !(o.error.Some? && o.error.value.ParseFailed?)
  {
  }

  /** A failed call leaves the cache and the files as they were; a
      settled one leaves the identity cached and the output on disk. */
  lemma ProcessSettles(env: Env, host: Host, w: World, c: Config, fileName: string)
    ensures var o := Process(env, host, w, c, fileName);
            o.error.Some? ==> o.world.cache == w.cache && o.world.files == w.files
    ensures var o := Process(env, host, w, c, fileName);
            o.error.None? ==> Identity(env, c) in o.world.cache && (Identity(env, c) in w.cache || Exists(o.world, OutputFilePath(env, fileName)))
    ensures var o := Process(env, host, w, c, fileName);
            w.cache <= o.world.cache <= w.cache + {Identity(env, c)}
  {
  }

  /** An existing output is never overwritten nor removed; the only file
      that can appear is the output, holding the descriptor's pipeline. */
  lemma NeverOverwrites(env: Env, host: Host, w: World, c: Config, fileName: string)
    ensures var o := Process(env, host, w, c, fileName);
            forall p :: Exists(w, p) ==> Exists(o.world, p)
    ensures var o := Process(env, host, w, c, fileName);
            forall p :: p in w.files ==> p in o.world.files && o.world.files[p] == w.files[p]
    ensures var o := Process(env, host, w, c, fileName);
            o.world.files == w.files || o.world.files == w.files[OutputFilePath(env, fileName) := Pipeline(c)]
  {
    var path := OutputFilePath(env, fileName);
    if Identity(env, c) !in w.cache && !Exists(w, path) && FirstRejected(host, c.operations).None?
       && CanMakeDir(host, w, Dirname(path)) && host.renders(Pipeline(c)) && host.writable(path) {
      assert path !in w.files;
    }
  }

  /** A call that settled makes the same call again a no-op. */
  lemma ProcessIdempotent(env: Env, host: Host, w: World, c: Config, fileName: string)
    requires Process(env, host, w, c, fileName).error.None?
    ensures var w' := Process(env, host, w, c, fileName).world;
            Process(env, host, w', c, fileName) == Outcome(w', None)
  {
    ProcessSettles(env, host, w, c, fileName);
  }

  /** `s` occurs in `x + s + y`. */
  lemma ContainsInside(x: string, s: string, y: string)
    ensures Contains(x + s + y, s)
  {
    assert (x + s + y)[|x|..|x| + |s|] == s;
    assert OccursAt(x + s + y, s, |x|);
  }

  /** Joining a name onto a directory keeps what the name contains. */
  lemma ContainsJoin(dir: string, x: string, s: string, y: string)
    ensures Contains(Join(dir, x + s + y), s)
  {
    var lead := if dir == [] then [] else if dir[|dir| - 1] == '/' then dir else dir + "/";
    assert Join(dir, x + s + y) == (lead + x) + s + y;
    ContainsInside(lead + x, s, y);
  }

  /** The authoritative output path carries the descriptor's identity. */
  lemma OutputNamesIdentity(env: Env, c: Config)
    ensures Contains(OutputFilePath(env, FileName(env, c)), Identity(env, c))
  {
    var front := Basename(c.inputPath, Extname(c.inputPath)) + "-";
    ContainsJoin(env.options.outputDir, front, Identity(env, c), OutputExtension(c));
  }

  /** A call for an output path that carries the identity keeps every
      cached identity backed by an entry on disk. */
  lemma ProcessKeepsBacked(env: Env, host: Host, w: World, c: Config, fileName: string)
    requires Backed(w)
    requires Contains(OutputFilePath(env, fileName), Identity(env, c))
    ensures Backed(Process(env, host, w, c, fileName).world)
  {
    var o := Process(env, host, w, c, fileName);
    NeverOverwrites(env, host, w, c, fileName);
    ProcessSettles(env, host, w, c, fileName);
    forall k | k in o.world.cache
      ensures exists p :: Exists(o.world, p) && Contains(p, k)
    {
      if k in w.cache {
        var p :| Exists(w, p) && Contains(p, k);
        assert Exists(o.world, p);
      } else {
        assert Exists(o.world, OutputFilePath(env, fileName));
      }
    }
  }

  // ---------------------------------------------------------------------
  // The jobs of one page

  /** Jobs only add identities to the cache. */
  lemma {:induction false} RunJobsGrowsCache(env: Env, host: Host, w: World, jobs: seq<Job>)
    ensures w.cache <= RunJobs(env, host, w, jobs).world.cache
    ensures forall p :: Exists(w, p) ==> Exists(RunJobs(env, host, w, jobs).world, p)
    decreases |jobs|
  {
    if jobs != [] {
      var before := RunJobs(env, host, w, jobs[..|jobs| - 1]);
      RunJobsGrowsCache(env, host, w, jobs[..|jobs| - 1]);
      var job := jobs[|jobs| - 1];
      ProcessSettles(env, host, before.world, job.config, job.fileName);
      NeverOverwrites(env, host, before.world, job.config, job.fileName);
    }
  }

  /** When no job fails, every job's identity ends up cached. */
  lemma {:induction false} RunJobsCaches(env: Env, host: Host, w: World, jobs: seq<Job>)
    requires RunJobs(env, host, w, jobs).error.None?
    ensures forall i :: 0 <= i < |jobs| ==> Identity(env, jobs[i].config) in RunJobs(env, host, w, jobs).world.cache
    decreases |jobs|
  {
    if jobs != [] {
      var front := jobs[..|jobs| - 1];
      var before := RunJobs(env, host, w, front);
      var job := jobs[|jobs| - 1];
      var last := Process(env, host, before.world, job.config, job.fileName);
      assert before.error.None? && RunJobs(env, host, w, jobs).world == last.world;
      RunJobsCaches(env, host, w, front);
      ProcessSettles(env, host, before.world, job.config, job.fileName);
      forall i | 0 <= i < |jobs|
        ensures Identity(env, jobs[i].config) in last.world.cache
      {
        if i < |front| {
          assert jobs[i] == front[i];
          assert Identity(env, front[i].config) in before.world.cache;
        } else {
          assert i == |jobs| - 1;
        }
      }
    }
  }

  /** Jobs whose identities are all cached change nothing and render
      nothing. */
  lemma {:induction false} RunJobsAllCached(env: Env, host: Host, w: World, jobs: seq<Job>)
    requires forall i :: 0 <= i < |jobs| ==> Identity(env, jobs[i].config) in w.cache
    ensures RunJobs(env, host, w, jobs) == Outcome(w, None)
    decreases |jobs|
  {
    if jobs != [] {
      var front := jobs[..|jobs| - 1];
      assert forall i :: 0 <= i < |front| ==> front[i] == jobs[i];
      RunJobsAllCached(env, host, w, front);
      var job := jobs[|jobs| - 1];
      CacheHitNoop(env, host, w, job.config, job.fileName);
    }
  }

  /** A page renders at most one pipeline per job. */
  lemma {:induction false} RunJobsRenderBound(env: Env, host: Host, w: World, jobs: seq<Job>)
    ensures w.renders <= RunJobs(env, host, w, jobs).world.renders <= w.renders + |jobs|
    decreases |jobs|
  {
    if jobs != [] {
      var before := RunJobs(env, host, w, jobs[..|jobs| - 1]);
      RunJobsRenderBound(env, host, w, jobs[..|jobs| - 1]);
      var job := jobs[|jobs| - 1];
      RenderOnlyWhenMissing(env, host, before.world, job.config, job.fileName);
    }
  }

  /** Jobs for their authoritative file names keep the cache backed. */
  lemma {:induction false} RunJobsKeepsBacked(env: Env, host: Host, w: World, jobs: seq<Job>)
    requires Backed(w)
    requires forall i :: 0 <= i < |jobs| ==> jobs[i].fileName == FileName(env, jobs[i].config)
    ensures Backed(RunJobs(env, host, w, jobs).world)
    decreases |jobs|
  {
    if jobs != [] {
      var front := jobs[..|jobs| - 1];
      assert forall i :: 0 <= i < |front| ==> front[i] == jobs[i];
      RunJobsKeepsBacked(env, host, w, front);
      var job := jobs[|jobs| - 1];
      OutputNamesIdentity(env, job.config);
      ProcessKeepsBacked(env, host, RunJobs(env, host, w, front).world, job.config, job.fileName);
    }
  }

  // ---------------------------------------------------------------------
  // sharpTransform

  /** The jobs of the replace are for the authoritative file names. */
  lemma RewriteJobsNamed(env: Env, content: string, outputPath: Option<string>)
    ensures var jobs := Rewrite(env, content, outputPath).jobs;
            forall i :: 0 <= i < |jobs| ==> jobs[i].fileName == FileName(env, jobs[i].config)
  {
    if IsHtmlOutput(outputPath) {
      JobsInMatchOrder(env, content, 0);
    }
  }

  /** Content that is not HTML output is settled as it is. */
  lemma TransformPassthrough(env: Env, host: Host, w: World, content: string, outputPath: Option<string>)
    requires !IsHtmlOutput(outputPath)
    ensures Transform(env, host, w, content, outputPath) == Page(w, Success(content))
  {
  }

  /** The transform keeps every cached identity backed. */
  lemma TransformKeepsBacked(env: Env, host: Host, w: World, content: string, outputPath: Option<string>)
    requires Backed(w)
    ensures Backed(Transform(env, host, w, content, outputPath).world)
  {
    RewriteJobsNamed(env, content, outputPath);
    RunJobsKeepsBacked(env, host, w, Rewrite(env, content, outputPath).jobs);
  }

  /** Transforming a page again after it settled gives the same content
      and renders, writes and caches nothing more. */
  lemma TransformRerun(env: Env, host: Host, w: World, content: string, outputPath: Option<string>)
    requires Transform(env, host, w, content, outputPath).result.Success?
    ensures var pg := Transform(env, host, w, content, outputPath);
            Transform(env, host, pg.world, content, outputPath) == pg
  {
    var r := Rewrite(env, content, outputPath);
    var run := RunJobs(env, host, w, r.jobs);
    RunJobsCaches(env, host, w, r.jobs);
    RunJobsAllCached(env, host, run.world, r.jobs);
  }

  /** On a page built from `getUrl` outputs, the transform settles with
      the authoritative URLs in place unless a job fails, after running
      one job per marker in order. */
  lemma TransformRoundTrip(env: Env, host: Host, w: World, pre: string, pieces: seq<Piece>, outputPath: Option<string>)
    requires IsHtmlOutput(outputPath)
    requires WellFormed(env, pre, pieces)
    ensures var run := RunJobs(env, host, w, ExpectedJobs(env, pieces));
            Transform(env, host, w, Compose(env, pre, pieces), outputPath)
            == Page(run.world, if run.error.Some? then Failure(run.error.value) else Success(Resolved(env, pre, pieces)))
  {
    RewriteRoundTrip(env, pre, pieces, outputPath);
  }

  // ---------------------------------------------------------------------
  // clearOutputDir

  /** Clearing empties the cache and the output tree, leaving only the
      output directory itself when it can be made again, and touches
      nothing outside the tree. */
  lemma ClearEmpties(env: Env, host: Host, w: World)
    ensures Clear(env, host, w).world.cache == {}
    ensures Clear(env, host, w).error.None? <==> host.writable(env.options.outputDir)
    ensures forall p :: Exists(Clear(env, host, w).world, p) && UnderDir(p, env.options.outputDir) ==>
              p == env.options.outputDir && Clear(env, host, w).error.None?
    ensures forall p :: p in w.files && !UnderDir(p, env.options.outputDir) ==>
              p in Clear(env, host, w).world.files && Clear(env, host, w).world.files[p] == w.files[p]
    ensures FilesOutside(Clear(env, host, w).world.files, env.options.outputDir) == FilesOutside(w.files, env.options.outputDir)
    ensures DirsOutside(Clear(env, host, w).world.dirs, env.options.outputDir) == DirsOutside(w.dirs, env.options.outputDir)
    ensures Clear(env, host, w).world.renders == w.renders
  {
  }

  /** After clearing, processing any descriptor renders it anew. */
  lemma ClearThenReprocess(env: Env, host: Host, w: World, c: Config, fileName: string)
    requires env.options.outputDir != [] && fileName != []
    ensures var cw := Clear(env, host, w).world;
            var o := Process(env, host, cw, c, fileName);
            o.error.None? ==> o.world.renders == cw.renders + 1 && o.world.files[OutputFilePath(env, fileName)] == Pipeline(c)
  {
    var dir := env.options.outputDir;
    var cw := Clear(env, host, w).world;
    var path := OutputFilePath(env, fileName);
    JoinUnderDir(dir, fileName);
    ClearEmpties(env, host, w);
    assert |path| > |dir|;
    assert !Exists(cw, path);
  }
}
