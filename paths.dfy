/** The parts of Node's `path` module the plugin uses, on POSIX paths,
    without normalisation of `.` and `..` segments. */
module Paths {

  import opened Wrappers
  import opened Strings

  /** The last path segment: everything after the last `/`. */
  function LastSegment(p: string): (r: string)
    ensures EndsWith(p, r)
    ensures forall k :: 0 <= k < |r| ==> r[k] != '/'
  {
    match LastIndexOf(p, '/')
    case None => p
    case Some(i) => p[i + 1..]
  }

  /** `path.extname`: from the last `.` of the last segment, unless that
      `.` begins the segment (a dot-file), the segment is `..`, or there
      is none. */
  function Extname(p: string): (r: string)
    ensures r == [] || (r[0] == '.' && forall k :: 1 <= k < |r| ==> r[k] != '.')
    ensures forall k :: 0 <= k < |r| ==> r[k] != '/'
    ensures r != [] ==> EndsWith(LastSegment(p), r) && |r| < |LastSegment(p)|
    ensures LastSegment(p) != ".." && (exists d :: 0 < d < |LastSegment(p)| && LastSegment(p)[d] == '.') ==> r != []
    ensures LastSegment(p) == ".." ==> r == []
  {
    var seg := LastSegment(p);
    if seg == ".." then []
    else
      match LastIndexOf(seg, '.')
      case Some(d) => if d > 0 then seg[d..] else []
      case None => []
  }

  /** `path.basename(p, ext)`: the last segment with `ext` stripped when it
      is a proper suffix of it. */
  function Basename(p: string, ext: string): (r: string)
    ensures forall k :: 0 <= k < |r| ==> r[k] != '/'
  {
    var seg := LastSegment(p);
    if EndsWith(seg, ext) && seg != ext then seg[..|seg| - |ext|] else seg
  }

  /** `path.join(dir, name)` for a relative `name`. */
  function Join(dir: string, name: string): string
  {
    if dir == [] then name
    else if dir[|dir| - 1] == '/' then dir + name
    else dir + "/" + name
  }

  /** `path.dirname`: everything before the last `/`. */
  function Dirname(p: string): string
  {
    match LastIndexOf(p, '/')
    case None => "."
    case Some(i) => if i == 0 then "/" else p[..i]
  }

  /** `dir` itself, or any path in the tree below it. */
  predicate UnderDir(p: string, dir: string)
  {
    var prefix := if dir != [] && dir[|dir| - 1] == '/' then dir else dir + "/";
    p == dir || (|prefix| <= |p| && p[..|prefix|] == prefix)
  }

  /** The base name and the extension split the last segment of a path. */
  lemma BaseAndExtension(p: string)
    ensures Basename(p, Extname(p)) + Extname(p) == LastSegment(p)
  {
    var seg, ext := LastSegment(p), Extname(p);
    if ext != [] {
      assert EndsWith(seg, ext) && seg != ext;
      assert seg == seg[..|seg| - |ext|] + seg[|seg| - |ext|..];
    }
  }

  /** A file joined onto a directory lies in that directory's tree. */
  lemma JoinUnderDir(dir: string, name: string)
    requires dir != []
    ensures UnderDir(Join(dir, name), dir)
  {
    var prefix := if dir[|dir| - 1] == '/' then dir else dir + "/";
    assert Join(dir, name)[..|prefix|] == prefix;
  }
}
