# Sharp image plugin for Eleventy — a Dafny model

`lib/eleventy-plugin-new.js` is an Eleventy plugin that turns image
references in templates into processed, content-addressed image files at
build time. It has two phases:

- **Templates.**
  - The `sharp` filter and one filter per image-library method build a *descriptor*: an input path and the ordered list of operations to apply.
  - The `getUrl` shortcode writes a marker `<!-- SHARP_IMAGE json -->` followed by a provisional URL.
- **Transform.**
  - Every HTML page is scanned for markers.
  - Each marker and its provisional path is replaced by the authoritative URL `urlPath/baseName-hash.ext`.
  - One `processImage` call is scheduled per marker.
  - `processImage` consults an in-memory cache of identities (the MD5 of the descriptor's JSON), then the file system. It renders and writes the file only when both miss.
  - `clearOutputDir` empties the cache and the output tree.

The project models this core.

| file | module | what it holds |
|---|---|---|
| `wrappers.dfy` | `Wrappers` | `Option`, `Result` |
| `strings.dfy` | `Strings` | occurrence, suffix, ECMAScript line-terminator and `\s` classes, decimal rendering |
| `paths.dfy` | `Paths` | `extname`, `basename`, `join`, `dirname` on POSIX paths |
| `descriptor.dfy` | `Descriptor` | descriptors, `ensureSharpConfig`, the `sharp` filter, the operation filters |
| `json.dfy` | `Json` | `JSON.stringify` of a descriptor: always a single line |
| `naming.dfy` | `Naming` | options, the identity hash, provisional and authoritative file names and URLs |
| `marker.dfy` | `Marker` | `getUrl`, and the regular expression as a dedicated scanner |
| `rewriter.dfy` | `Rewriter` | the global replace as a function, with its matches and jobs |
| `roundtrip.dfy` | `RoundTrip` | what `getUrl` writes, the replace reads back |
| `cache.dfy` | `Cache` | the world state (cache, files, directories, render count); `processImage`, the page pass and `clearOutputDir` as functions of it |
| `plugin.dfy` | `SharpPlugin` | the `FileSystem` and `Plugin` classes, whose methods are proved to update their fields as the `Cache` functions say |

**Environment.** The MD5 digest and `JSON.parse` are parameters, held in `Naming.Env`. The MD5 digest is an arbitrary function `md5Hex`. `JSON.parse` read back as a descriptor is `jsonParse`. It returns `None` whenever the callback at lines 58-64 would throw:
- when `JSON.parse` itself throws;
- when the parsed value is not a descriptor, for example when `inputPath` is not a string, so that `path.extname` throws (line 59);
- when `operations` is missing, so that `.length` throws (line 62);
- when the last operation is `toFormat` with no `args`, so that `.args[0]` throws (line 63).

**The `json -> descriptor` round trip.** It is a hypothesis of each round-trip lemma (`RoundTrip.Transparent`). It is not an axiom. The hypothesis also asks that the serialisation hold no `" -->"` and no U+2028 or U+2029. It asks that the provisional path hold no quote or white space. Line feeds and carriage returns need no hypothesis: `Json.Stringify` is proved never to contain them.

**Paths with spaces.** The path condition is a real limit of the program, not just of the proof. An input path such as `my photo.jpg` gives a provisional path whose second group stops at the space. Only the part before the space is replaced, and ` photo-<hash>.jpg` stays in the page after the authoritative URL. `RoundTrip.PathCutAtPathEnd` proves this for every such path.

**The image library.** It is `Cache.Host`, which gives three things:
- whether a pipeline method accepts an operation;
- whether a pipeline renders;
- where the file system permits creating an entry.

**The file system.** It is the `files` map (path to the pipeline written there) and the `dirs` set of `SharpPlugin.FileSystem`.

**State.** The set of cached identities and a ghost count of `toFile` calls live in `SharpPlugin.Plugin`.

## Model

| member | source | states |
|---|---|---|
| `Descriptor.NewDescriptor` | lib/eleventy-plugin-new.js:23-27 | the `sharp` filter yields the given input path and no operations |
| `Descriptor.EnsureConfig` | lib/eleventy-plugin-new.js:19-21 | a bare path becomes a descriptor with that path and no operations; a descriptor comes back unchanged |
| `Descriptor.AddOperation` | lib/eleventy-plugin-new.js:33-37 | an operation filter keeps the input path and every earlier operation in order, and appends exactly the one `{method, args}` |
| `Descriptor.ChainRecordsInOrder` | lib/eleventy-plugin-new.js:32-38 | a chain of filters records exactly its operations, in the order written, after those already in the input |
| `Paths.Extname` | lib/eleventy-plugin-new.js:59 | the extension is empty or a `.` followed by no other `.`, holds no `/`, and is a proper suffix of the last segment; it is not empty when the last segment has a `.` after its first character, so it is the part from the last `.` |
| `Paths.Basename` | lib/eleventy-plugin-new.js:60 | the base name holds no `/` |
| `Paths.BaseAndExtension` | lib/eleventy-plugin-new.js:59-60 | base name and extension together give back the last path segment |
| `Paths.JoinUnderDir` | lib/eleventy-plugin-new.js:83 | an output file path lies in the tree of the output directory |
| `Json.Stringify` | lib/eleventy-plugin-new.js:48 | the serialised descriptor holds no newline or carriage return: `getUrl` writes a one-line marker |
| `Naming.Identity` | lib/eleventy-plugin-new.js:15-17 | the MD5 of the serialised descriptor; it is the model, with no contract of its own; `Cache.OutputNamesIdentity` and `Cache.ProcessSettles` state what it keys |
| `Naming.ProvisionalFileName` | lib/eleventy-plugin-new.js:42-45 | `baseName-hash` plus the input's extension; it is the model, with no contract of its own; `Naming.ProvisionalIsFinal` and `Naming.FormatOverride` relate it to `Naming.FileName` |
| `Naming.FileName` | lib/eleventy-plugin-new.js:59-66 | `baseName-hash` plus the output extension; it is the model, with no contract of its own; its properties are `Naming.ProvisionalIsFinal` and `Naming.FormatOverride` |
| `Naming.ProvisionalIsFinal` | lib/eleventy-plugin-new.js:59-66 | without a trailing `toFormat`, the provisional name and URL of `getUrl` are the authoritative ones |
| `Naming.FormatOverride` | lib/eleventy-plugin-new.js:62-64 | with a trailing `toFormat`, the authoritative name is the shared `baseName-hash` stem plus `.` and the first argument; the provisional keeps the input's extension |
| `Naming.DefaultUrlPrefix` | lib/eleventy-plugin-new.js:7-11 | with the default options, the provisional and the authoritative URL are `/assets/images/` followed by the file name |
| `Marker.GetUrl` | lib/eleventy-plugin-new.js:40-49 | the marker, the serialised descriptor, `" -->"` and the provisional URL; it is the model, with no contract of its own; `RoundTrip.RewriteRoundTrip` and `RoundTrip.PathCutAtPathEnd` state how the replace reads it back |
| `Marker.FindClose` | lib/eleventy-plugin-new.js:54 | the lazy first group closes at the first `" -->"` reachable without crossing a line terminator, or nowhere |
| `Marker.FindPathEnd` | lib/eleventy-plugin-new.js:54 | the lazy second group stops before the first quote or white-space character, or nowhere |
| `Marker.MatchAt` | lib/eleventy-plugin-new.js:54 | a match at `i` starts at `i` and ends after its marker, before the end of the text; its meaning is `Marker.MatchAtSound` and `Marker.MatchAtComplete` |
| `Marker.MatchAtSound` | lib/eleventy-plugin-new.js:54 | a match is `"<!-- SHARP_IMAGE "` at `i`, a first group up to the first reachable `" -->"`, and a second group up to just before the first quote or white space after it |
| `Marker.MatchAtComplete` | lib/eleventy-plugin-new.js:54 | whenever any reachable `" -->"` is followed by a quote or white space, the expression matches at `i`: backtracking into the first group finds nothing the first choice misses |
| `Marker.NextMatch` | lib/eleventy-plugin-new.js:54-57 | the search from `p` returns the leftmost match at or after `p`, and nothing when no position matches |
| `Rewriter.Passthrough` | lib/eleventy-plugin-new.js:52 | content whose output path is missing or does not end in `.html` comes back unchanged with no job |
| `Rewriter.NoMatchUnchanged` | lib/eleventy-plugin-new.js:57 | text with no match comes back unchanged with no job |
| `Rewriter.ReplaceFrom` | lib/eleventy-plugin-new.js:54-72 | the global replace from position `p`; it is the model, with no contract of its own; its properties are `Rewriter.TextBetweenMatches`, `Rewriter.JobCount`, `Rewriter.JobsInMatchOrder` and `Rewriter.FirstBadMarker` |
| `Rewriter.Rewrite` | lib/eleventy-plugin-new.js:51-72 | the replace on HTML output, the content itself otherwise; it is the model, with no contract of its own; its properties are `Rewriter.Passthrough` and the `Rewriter.ReplaceFrom` lemmas |
| `Rewriter.MatchesAreMatches` | lib/eleventy-plugin-new.js:54-57 | every span the global search finds is a match of the expression at its start |
| `Rewriter.MatchesOrdered` | lib/eleventy-plugin-new.js:54-57 | the spans come left to right and do not overlap |
| `Rewriter.MatchesCover` | lib/eleventy-plugin-new.js:54-57 | every matching position lies inside a found span: nothing is skipped except what an earlier match consumed |
| `Rewriter.JobCount` | lib/eleventy-plugin-new.js:57-69 | at most one job per match, and exactly one per match if and only if no descriptor fails to parse |
| `Rewriter.JobsInMatchOrder` | lib/eleventy-plugin-new.js:57-69 | the i-th job is the parsed descriptor of the i-th match with its authoritative file name |
| `Rewriter.TextBetweenMatches` | lib/eleventy-plugin-new.js:57-71 | on any page, the found spans lie left to right; with no parse failure the result is the page with span i replaced by the URL of job i and every stretch before, between and after the spans copied as it is |
| `Rewriter.FirstBadMarker` | lib/eleventy-plugin-new.js:57-58 | a parse failure is reported for the first marker whose descriptor does not parse, after one job for each match before it |
| `RoundTrip.RewriteRoundTrip` | lib/eleventy-plugin-new.js:40-72 | a page built from `getUrl` outputs is rewritten to the same page with each marker and provisional path replaced by the authoritative URL, and one job per marker, in order |
| `RoundTrip.PathCutAtPathEnd` | lib/eleventy-plugin-new.js:48-54 | a provisional path holding a quote or white space is replaced only up to that character; the rest of the path stays in the page after the authoritative URL |
| `Cache.FirstRejected` | lib/eleventy-plugin-new.js:95-97 | building the pipeline throws if and only if some operation is refused, at the first refused one |
| `Cache.Process` | lib/eleventy-plugin-new.js:79-106 | `processImage` on the world state; it is the model, with no contract of its own; its properties are the `Cache` lemmas from `Cache.CacheHitNoop` to `Cache.ProcessKeepsBacked` |
| `Cache.CacheHitNoop` | lib/eleventy-plugin-new.js:80-81 | a cached identity changes nothing: no lookup, no render, no write |
| `Cache.ExistingFileRecorded` | lib/eleventy-plugin-new.js:85-89 | an output already on disk is recorded in the cache and nothing else changes |
| `Cache.RenderOnlyWhenMissing` | lib/eleventy-plugin-new.js:80-105 | at most one render per call, and a render happens exactly when the identity is uncached, the output is missing, every operation is accepted and the directory can be made |
| `Cache.ProcessErrors` | lib/eleventy-plugin-new.js:90-102 | which error is raised, and when: a refused pipeline call, a failed `mkdir`, a failed `toFile` |
| `Cache.ProcessSettles` | lib/eleventy-plugin-new.js:85-105 | a failure leaves cache and files as they were; a success leaves the identity cached; the cache gains at most that identity |
| `Cache.NeverOverwrites` | lib/eleventy-plugin-new.js:99-104 | no existing entry is removed or overwritten; the only new file is the output, holding the descriptor's pipeline |
| `Cache.ProcessIdempotent` | lib/eleventy-plugin-new.js:79-106 | after a call succeeds, the same call again changes nothing |
| `Cache.OutputNamesIdentity` | lib/eleventy-plugin-new.js:66 | the authoritative output path carries the descriptor's identity |
| `Cache.ProcessKeepsBacked` | lib/eleventy-plugin-new.js:79-106 | every cached identity stays backed by an entry on disk that carries it |
| `Cache.RunJobs` | lib/eleventy-plugin-new.js:69-74 | every scheduled job runs in order, each on the world the one before left; the error is the first in order; it is the model, with no contract of its own; its properties are the `Cache.RunJobs…` lemmas |
| `Cache.RunJobsGrowsCache` | lib/eleventy-plugin-new.js:69-74 | a page's jobs only add to the cache and to the entries on disk |
| `Cache.RunJobsCaches` | lib/eleventy-plugin-new.js:69-74 | when no job fails, every job's identity ends up cached |
| `Cache.RunJobsAllCached` | lib/eleventy-plugin-new.js:69-74 | jobs whose identities are all cached change nothing |
| `Cache.RunJobsRenderBound` | lib/eleventy-plugin-new.js:69-74 | a page renders at most one pipeline per job |
| `Cache.RunJobsKeepsBacked` | lib/eleventy-plugin-new.js:69-74 | jobs for their authoritative file names keep every cached identity backed |
| `Cache.RewriteJobsNamed` | lib/eleventy-plugin-new.js:66-69 | every scheduled job is for its descriptor's authoritative file name |
| `Cache.Transform` | lib/eleventy-plugin-new.js:51-77 | the transform on the world state; it is the model, with no contract of its own; its properties are the `Cache.Transform…` lemmas |
| `Cache.TransformPassthrough` | lib/eleventy-plugin-new.js:52 | non-HTML output settles with the content as it is and the world unchanged |
| `Cache.TransformKeepsBacked` | lib/eleventy-plugin-new.js:51-77 | the transform keeps every cached identity backed |
| `Cache.TransformRerun` | lib/eleventy-plugin-new.js:51-77 | transforming a page again after success gives the same content and renders, writes and caches nothing more |
| `Cache.TransformRoundTrip` | lib/eleventy-plugin-new.js:51-77 | a page built from `getUrl` outputs settles with the authoritative URLs, unless a job fails, after one job per marker in order |
| `Cache.ClearEmpties` | lib/eleventy-plugin-new.js:115-119 | the cache is empty; only the recreated output directory is left in the tree, and only if it can be made; nothing outside the tree changes |
| `Cache.ClearThenReprocess` | lib/eleventy-plugin-new.js:115-119 | after clearing, a successful `processImage` renders and writes its pipeline anew |
| `Cache.Clear` | lib/eleventy-plugin-new.js:115-119 | `clearOutputDir` on the world state; it is the model, with no contract of its own; its properties are `Cache.ClearEmpties` and `Cache.ClearThenReprocess` |
| `Cache.Start` | lib/eleventy-plugin-new.js:108-109 | the state at start-up; it is the model, with no contract of its own; `SharpPlugin.Plugin.constructor` proves the class starts in it |
| `SharpPlugin.FileSystem.Access` | lib/eleventy-plugin-new.js:87 | `fs.access` succeeds exactly when a file or directory is at the path |
| `SharpPlugin.FileSystem.Mkdir` | lib/eleventy-plugin-new.js:99 | recursive `mkdir` succeeds on an existing directory or where permitted, and adds the directory |
| `SharpPlugin.FileSystem.WriteImage` | lib/eleventy-plugin-new.js:102 | the write succeeds where permitted and stores the pipeline at the path |
| `SharpPlugin.FileSystem.RemoveTree` | lib/eleventy-plugin-new.js:117 | `fs.rm` with `recursive` and `force` removes the tree and nothing else |
| `SharpPlugin.Plugin.constructor` | lib/eleventy-plugin-new.js:109 | the cache starts empty and the output directory is requested |
| `SharpPlugin.Plugin.BuildPipeline` | lib/eleventy-plugin-new.js:94-97 | the operations are applied in recorded order; the first refused one is returned |
| `SharpPlugin.Plugin.ProcessImage` | lib/eleventy-plugin-new.js:79-106 | cache, files, directories and render count change exactly as `Cache.Process` says |
| `SharpPlugin.Plugin.Replace` | lib/eleventy-plugin-new.js:54-72 | the replace loop produces the text, jobs and parse error of `Rewriter.ReplaceFrom` |
| `SharpPlugin.Plugin.RunAll` | lib/eleventy-plugin-new.js:69-74 | running the scheduled jobs updates the state as `Cache.RunJobs` says and reports the first error |
| `SharpPlugin.Plugin.SharpTransform` | lib/eleventy-plugin-new.js:51-77 | the transform updates the state and settles as `Cache.Transform` says |
| `SharpPlugin.Plugin.ClearOutputDir` | lib/eleventy-plugin-new.js:115-119 | the state after clearing is `Cache.Clear` of the state before |

## Left out

- The image library's pixel work is out of scope. `Cache.Host` only says which pipeline calls throw, which pipelines render and where writes are permitted. The reflective discovery of method names is not modelled: any name is an operation.
- MD5 is not modelled: `md5Hex` is an arbitrary function, so nothing depends on collision resistance.
- `JSON.parse` is not modelled: it is `jsonParse`. Its round trip is the per-descriptor hypothesis `RoundTrip.Transparent`.
- `Rewriter.Resolve`: the transform hashes the serialisation of the object `JSON.parse` returns. That text keeps the marker's key order and any extra members. The model hashes `Json.Stringify` of the descriptor `jsonParse` projects out. The two agree on markers `getUrl` writes. A hand-written marker such as `{"operations":[],"inputPath":"a.jpg"}` gets a different identity in the program than in the model.
- JavaScript numbers are not modelled as doubles. `Json.Stringify` covers strings, unbounded integers, booleans, `null` and objects. From 1e21 up, `JSON.stringify` prints numbers in exponent form, and beyond 2^53 they are not exact; the model prints every integer in full. Fractions and arrays as operation arguments are not modelled.
- `Json.Stringify` writes object members in the order they are stored. `JSON.stringify` writes integer-like keys first, in ascending order. An argument object with such keys is therefore serialised in a different order than the model gives.
- `Json.Stringify` does not escape U+2028 and U+2029, as `JSON.stringify` does not. A descriptor whose serialisation holds either is not `Embeddable`: the `.` of the expression does not match them.
- Path normalisation is not modelled. This covers `.` and `..` segments (apart from `Paths.Extname` of a last segment `..`, which is empty as in Node), repeated and trailing slashes, and absolute names in `path.join`. For example, `Paths.Extname("photo.jpg/")` is empty and `Paths.Basename` gives the empty segment, where Node gives `.jpg` and `photo`. Recursive `mkdir` records only the directory it was asked for, not its ancestors.
- The regular expression is modelled as a dedicated scanner, not as general JavaScript regex semantics.
- `Cache.Host`: whether a pipeline method accepts an operation does not depend on the calls before it. In the program, a method that returns a promise, such as `metadata`, `stats` or `toBuffer`, makes the next `pipeline[method]` at line 96 throw, before `mkdir`. In the model, the call after such an operation is refused only if `accepts` refuses it wherever it stands. Otherwise the directory is made and a render is counted, which the program never reaches.
- `Promise.all` is modelled as the scheduled jobs run one after the other, once the replace is done. The error is then the first in order, not the first in time. In the program, `Promise.all` rejects as soon as one job rejects, while the later jobs are still running; the model settles only after all of them have run.
  - This leaves out the race in which two markers of one page with the same identity both miss the cache and both render.
  - After a parse failure, the jobs scheduled before it run to completion in the model. In the program they keep running, and nothing handles their failures; the model drops those failures.
- `fs.access` failing for a reason other than absence is not modelled, and neither is `fs.rm` failing.
- `console.log` is not modelled.
- The Eleventy registration calls are not modelled. This covers `addFilter`, `addShortcode` and `addTransform`.
- The descriptors' `toString` methods are not modelled; `JSON.stringify` ignores them.
- `SharpPlugin.Plugin.constructor`: the output-directory request at start-up is not awaited in the program, and nothing handles its failure. The model applies it at once and drops the failure.
- `Rewriter.IsHtmlOutput`: the output path is an `Option<string>`. An output path that is neither a string nor nullish, such as `false` for a page with `permalink: false`, makes `outputPath?.endsWith` throw a `TypeError` in the program. The model cannot express it.
