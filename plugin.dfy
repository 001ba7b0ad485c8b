/** The plugin as the program runs it: the promise-based file system it
    writes to, and the plugin object holding the options, the image
    library and the in-memory `imageCache`. Each method is proved to
    take the world where the function of the same name in `Cache` says. */
module SharpPlugin {

  import opened Wrappers
  import opened Paths
  import opened Descriptor
  import opened Naming
  import opened Marker
  import opened Rewriter
  import opened Cache

  /** The replace result from some position on, after the text and the
      jobs already produced before it. */
  function After(out: string, jobs: seq<Job>, r: Replaced): Replaced
  {
    Replaced(out + r.text, jobs + r.jobs, r.error)
  }

  /** One replaced match moves from the rest of the pass to what has been
      produced. */
  lemma AfterStep(out: string, jobs: seq<Job>, gap: string, url: string, job: Job, r: Replaced)
    ensures After(out, jobs, Replaced(gap + url + r.text, [job] + r.jobs, r.error))
            == After(out + gap + url, jobs + [job], r)
  {
    assert out + (gap + url + r.text) == out + gap + url + r.text;
    assert jobs + ([job] + r.jobs) == jobs + [job] + r.jobs;
  }

  /** The pass ends, with nothing more to produce. */
  lemma AfterEnd(out: string, jobs: seq<Job>, tail: string, error: Option<string>)
    ensures After(out, jobs, Replaced(tail, [], error)) == Replaced(out + tail, jobs, error)
  {
    assert jobs + [] == jobs;
  }

  /** `fs.promises` on the entries the plugin touches. */
  class FileSystem {
    var files: map<string, Image>
    var dirs: set<string>
    const writable: string -> bool

    constructor(files: map<string, Image>, dirs: set<string>, writable: string -> bool)
      ensures this.files == files && this.dirs == dirs && this.writable == writable
    {
      this.files := files;
      this.dirs := dirs;
      this.writable := writable;
    }

    /** `fs.access(path)` resolves: something is at `path`. */
    method Access(path: string) returns (found: bool)
      ensures found <==> path in files || path in dirs
    {
      found := path in files || path in dirs;
    }

    /** `fs.mkdir(dir, { recursive: true })`: an existing directory is
        fine, otherwise the file system must permit it. */
    method Mkdir(dir: string) returns (ok: bool)
      modifies this
      ensures ok <==> dir in old(dirs) || writable(dir)
      ensures files == old(files)
      ensures dirs == if ok then old(dirs) + {dir} else old(dirs)
    {
      ok := dir in dirs || writable(dir);
      if ok {
        dirs := dirs + {dir};
      }
    }

    /** The write at the end of `pipeline.toFile(path)`. */
    method WriteImage(path: string, image: Image) returns (ok: bool)
      modifies this
      ensures ok <==> writable(path)
      ensures dirs == old(dirs)
      ensures files == if ok then old(files)[path := image] else old(files)
    {
      ok := writable(path);
      if ok {
        files := files[path := image];
      }
    }

    /** `fs.rm(dir, { recursive: true, force: true })`. */
    method RemoveTree(dir: string)
      modifies this
      ensures files == FilesOutside(old(files), dir)
      ensures dirs == DirsOutside(old(dirs), dir)
    {
      files := FilesOutside(files, dir);
      dirs := DirsOutside(dirs, dir);
    }
  }

  /** The object `createSharpPlugin` closes over. */
  class Plugin {
    const env: Env
    const host: Host
    const fs: FileSystem
    var imageCache: set<string>
    /** The `toFile` calls made so far. */
    ghost var renders: nat

    ghost function State(): World
      reads this, fs
    {
      World(imageCache, fs.files, fs.dirs, renders)
    }

    /** The file system permits what the host says it does. */
    ghost predicate Valid()
      reads this, fs
    {
      fs.writable == host.writable
    }

    /** `createSharpPlugin(eleventyConfig, options)`: an empty cache, and
        the output directory requested (the request is not awaited, and
        its failure is not reported). */
    constructor(env: Env, host: Host, fs: FileSystem)
      requires fs.writable == host.writable
      modifies fs
      ensures this.env == env && this.host == host && this.fs == fs
      ensures Valid()
      ensures State() == Start(env, host, old(fs.files), old(fs.dirs))
    {
      this.env := env;
      this.host := host;
      this.fs := fs;
      imageCache := {};
      renders := 0;
      new;
      var _ := fs.Mkdir(env.options.outputDir);
    }

    /** `sharp(config.inputPath)`, then one pipeline call per recorded
        operation, in order; the first call the library refuses throws. */
    method BuildPipeline(c: Config) returns (pipeline: Image, rejected: Option<Operation>)
      ensures rejected == FirstRejected(host, c.operations)
      ensures rejected.None? ==> pipeline == Pipeline(c)
    {
      pipeline := Image(c.inputPath, []);
      var i := 0;
      while i < |c.operations|
        invariant 0 <= i <= |c.operations|
        invariant pipeline == Image(c.inputPath, c.operations[..i])
        invariant FirstRejected(host, c.operations) == FirstRejected(host, c.operations[i..])
      {
        var op := c.operations[i];
        if !host.accepts(op) {
          return pipeline, Some(op);
        }
        assert c.operations[i..][1..] == c.operations[i + 1..];
        assert c.operations[..i + 1] == c.operations[..i] + [op];
        pipeline := Image(pipeline.source, pipeline.steps + [op]);
        i := i + 1;
      }
      assert c.operations[..i] == c.operations;
      rejected := None;
    }

    /** `processImage(config, outputFileName)`. */
    method ProcessImage(c: Config, fileName: string) returns (err: Option<Error>)
      requires Valid()
      modifies this, fs
      ensures Valid()
      ensures Outcome(State(), err) == Process(env, host, old(State()), c, fileName)
    {
      var key := Identity(env, c);
      if key in imageCache {
        return None;
      }
      var path := OutputFilePath(env, fileName);
      var found := fs.Access(path);
      if found {
        imageCache := imageCache + {key};
        return None;
      }
      var pipeline, rejected := BuildPipeline(c);
      if rejected.Some? {
        return Some(BadOperation(rejected.value.name));
      }
      var dir := Dirname(path);
      var made := fs.Mkdir(dir);
      if !made {
        return Some(MkdirFailed(dir));
      }
      renders := renders + 1;
      var written := false;
      if host.renders(pipeline) {
        written := fs.WriteImage(path, pipeline);
      }
      if !written {
        return Some(RenderFailed(path));
      }
      imageCache := imageCache + {key};
      return None;
    }

    /** The text pass of `sharpTransform`: `content.replace` with the
        global expression, collecting the jobs its callback schedules. */
    method Replace(content: string) returns (out: string, jobs: seq<Job>, failed: Option<string>)
      ensures ReplaceFrom(env, content, 0) == Replaced(out, jobs, failed)
    {
      out, jobs, failed := [], [], None;
      var p := 0;
      var done := false;
      assert ReplaceFrom(env, content, 0) == After(out, jobs, ReplaceFrom(env, content, p));
      while !done
        invariant p <= |content|
        invariant done ==> ReplaceFrom(env, content, 0) == Replaced(out, jobs, failed)
        invariant !done ==> ReplaceFrom(env, content, 0) == After(out, jobs, ReplaceFrom(env, content, p))
        decreases |content| - p, !done
      {
        match NextMatch(content, p) {
          case None =>
            AfterEnd(out, jobs, content[p..], None);
            out, failed := out + content[p..], None;
            done := true;
          case Some(sp) =>
            match Resolve(env, sp.configText) {
              case None =>
                AfterEnd(out, jobs, [], Some(sp.configText));
                assert out + [] == out;
                failed := Some(sp.configText);
                done := true;
              case Some(job) =>
                AfterStep(out, jobs, content[p..sp.start], Url(env, job.config), job, ReplaceFrom(env, content, sp.end));
                out := out + content[p..sp.start] + Url(env, job.config);
                jobs := jobs + [job];
                p := sp.end;
            }
        }
      }
    }

    /** `await Promise.all(promises)` on the scheduled jobs, taken one
        after the other; the error is the first one in order. */
    method RunAll(jobs: seq<Job>) returns (first: Option<Error>)
      requires Valid()
      modifies this, fs
      ensures Valid()
      ensures Outcome(State(), first) == RunJobs(env, host, old(State()), jobs)
    {
      first := None;
      var i := 0;
      while i < |jobs|
        invariant 0 <= i <= |jobs|
        invariant Valid()
        invariant Outcome(State(), first) == RunJobs(env, host, old(State()), jobs[..i])
      {
        assert jobs[..i + 1][..i] == jobs[..i];
        var e := ProcessImage(jobs[i].config, jobs[i].fileName);
        if first.None? {
          first := e;
        }
        i := i + 1;
      }
      assert jobs[..i] == jobs;
    }

    /** `sharpTransform(content, outputPath)`: the replace, then every job
        it scheduled. */
    method SharpTransform(content: string, outputPath: Option<string>) returns (result: Result<string, Error>)
      requires Valid()
      modifies this, fs
      ensures Valid()
      ensures Page(State(), result) == Transform(env, host, old(State()), content, outputPath)
    {
      if !IsHtmlOutput(outputPath) {
        return Success(content);
      }
      var out, jobs, failed := Replace(content);
      var first := RunAll(jobs);
      if failed.Some? {
        return Failure(ParseFailed(failed.value));
      }
      if first.Some? {
        return Failure(first.value);
      }
      return Success(out);
    }

    /** `clearOutputDir()`. */
    method ClearOutputDir() returns (err: Option<Error>)
      requires Valid()
      modifies this, fs
      ensures Valid()
      ensures Outcome(State(), err) == Clear(env, host, old(State()))
    {
      imageCache := {};
      var dir := env.options.outputDir;
      fs.RemoveTree(dir);
      assert dir !in fs.dirs;
      var ok := fs.Mkdir(dir);
      err := if ok then None else Some(MkdirFailed(dir));
    }
  }
}
