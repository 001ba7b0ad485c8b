/** Plugin options, the content identity of a descriptor and the output
    file names and URLs derived from it. */
module Naming {

  import opened Wrappers
  import opened Strings
  import opened Paths
  import opened Descriptor
  import opened Json

  /** `outputDir` (where files are written) and `urlPath` (the public
      prefix of the rewritten references). */
  datatype Options = Options(outputDir: string, urlPath: string)

  /** The options when the site passes none. */
  const DefaultOptions := Options("public/assets/images", "/assets/images/")

  /** The plugin's options and the two library functions the core calls
      but does not define: the hex MD5 digest of a string and
      `JSON.parse` read back as a descriptor (`None` when it throws). */
  datatype Env = Env(options: Options, md5Hex: string -> string, jsonParse: string -> Option<Config>)

  /** `hashConfig`: the cache key and the hash in every file name. */
  function Identity(env: Env, c: Config): string
  {
    env.md5Hex(Stringify(c))
  }

  /** A template literal `${v}` of an argument; a missing argument reads
      `undefined`. */
  function ArgText(a: Option<Arg>): string
  {
    match a
    case None => "undefined"
    case Some(Str(s)) => s
    case Some(Num(n)) => IntToString(n)
    case Some(Bool(b)) => if b then "true" else "false"
    case Some(Null) => "null"
    case Some(Obj(_)) => "[object Object]"
  }

  /** The last operation of `c` is a `toFormat` call. */
  predicate EndsWithFormat(c: Config)
  {
    |c.operations| > 0 && c.operations[|c.operations| - 1].name == "toFormat"
  }

  /** The text of the first argument of the last operation. */
  function FormatText(c: Config): string
    requires |c.operations| > 0
  {
    var args := c.operations[|c.operations| - 1].args;
    ArgText(if args == [] then None else Some(args[0]))
  }

  /** The extension of the authoritative file name: the requested format
      when the last operation is `toFormat`, the input's own otherwise. */
  function OutputExtension(c: Config): string
  {
    if EndsWithFormat(c) then "." + FormatText(c) else Extname(c.inputPath)
  }

  /** `baseName-hash`, the part shared by both file names. */
  function Stem(env: Env, c: Config): string
  {
    Basename(c.inputPath, Extname(c.inputPath)) + "-" + Identity(env, c)
  }

  /** The file name `getUrl` emits next to its marker. */
  function ProvisionalFileName(env: Env, c: Config): string
  {
    Stem(env, c) + Extname(c.inputPath)
  }

  /** The file name the rewrite pass substitutes and materialises. */
  function FileName(env: Env, c: Config): string
  {
    Stem(env, c) + OutputExtension(c)
  }

  function ProvisionalUrl(env: Env, c: Config): string
  {
    Join(env.options.urlPath, ProvisionalFileName(env, c))
  }

  function Url(env: Env, c: Config): string
  {
    Join(env.options.urlPath, FileName(env, c))
  }

  /** The provisional name is already the authoritative one unless the
      descriptor ends with a format change. */
  lemma ProvisionalIsFinal(env: Env, c: Config)
    requires !EndsWithFormat(c)
    ensures ProvisionalFileName(env, c) == FileName(env, c)
    ensures ProvisionalUrl(env, c) == Url(env, c)
  {
  }

  /** A trailing `toFormat(f, ...)` decides the extension whatever the
      input's was; the two names differ at most in their extension. */
  lemma FormatOverride(env: Env, c: Config)
    requires EndsWithFormat(c)
    ensures FileName(env, c) == Stem(env, c) + "." + FormatText(c)
    ensures ProvisionalFileName(env, c) == Stem(env, c) + Extname(c.inputPath)
    ensures EndsWith(FileName(env, c), "." + FormatText(c))
  {
    assert FileName(env, c) == Stem(env, c) + ("." + FormatText(c));
  }

  /** With the default options, every file is served from `/assets/images/`. */
  lemma DefaultUrlPrefix(env: Env, c: Config)
    requires env.options == DefaultOptions
    ensures Url(env, c) == "/assets/images/" + FileName(env, c)
    ensures ProvisionalUrl(env, c) == "/assets/images/" + ProvisionalFileName(env, c)
  {
    var dir := env.options.urlPath;
    assert dir[|dir| - 1] == '/';
  }
}
