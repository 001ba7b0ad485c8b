/** The placeholder codec: `getUrl` writes a marker carrying the
    serialised descriptor followed by a provisional URL; the rewrite pass
    finds them again with the expression
    <!-- SHARP_IMAGE (.*?) -->(.*?)(?=["'\s])  (flags: g).
    The scanner below is that expression written out: the lazy first group
    stops at the first " -->" it can reach without crossing a line
    terminator, and the lazy second group stops before the first quote or
    white-space character. Backtracking into the first group never yields
    a match the first choice missed, because a later " -->" begins with a
    space, which would already have ended the second group
    (`MatchAtComplete`). */
module Marker {

  import opened Wrappers
  import opened Strings
  import opened Descriptor
  import opened Json
  import opened Naming

  const Open: string := "<!-- SHARP_IMAGE "
  const Close: string := " -->"

  /** `getUrl`: the marker for the normalised input, then its provisional URL. */
  function GetUrl(env: Env, input: Input): string
  {
    var c := EnsureConfig(input);
    Open + Stringify(c) + Close + ProvisionalUrl(env, c)
  }

  /** A character before which the second group stops: `["'\s]`. */
  predicate IsPathEnd(c: char)
  {
    c == '"' || c == '\'' || IsWhitespace(c)
  }

  /** One match: it covers `start` up to `end`; `configText` is the first
      group (the serialised descriptor) and `path` the second (the
      provisional path). */
  datatype Span = Span(start: nat, end: nat, configText: string, path: string)

  /** `j` closes a lazy `(.*?)` begun at `p`: " -->" stands at `j`, and
      `.` can step over every character from `p` up to `j`. */
  predicate ClosesAt(text: string, p: nat, j: nat)
  {
    p <= j && OccursAt(text, Close, j)
    && forall q {:trigger IsLineTerminator(text[q])} :: p <= q < j ==> !IsLineTerminator(text[q])
  }

  /** The first place the first group can close. */
  function FindClose(text: string, p: nat): (r: Option<nat>)
    requires p <= |text|
    ensures r.Some? ==> ClosesAt(text, p, r.value) && forall j :: p <= j < r.value ==> !ClosesAt(text, p, j)
    ensures r.None? ==> forall j :: p <= j <= |text| ==> !ClosesAt(text, p, j)
    decreases |text| - p
  {
    if OccursAt(text, Close, p) then Some(p)
    else if p < |text| && !IsLineTerminator(text[p]) then
      var r := FindClose(text, p + 1);
      assert forall j :: p + 1 <= j <= |text| && ClosesAt(text, p, j) ==> ClosesAt(text, p + 1, j);
      r
    else
      None
  }

  /** The first character at or after `p` that ends the second group. */
  function FindPathEnd(text: string, p: nat): (r: Option<nat>)
    requires p <= |text|
    ensures r.Some? ==> p <= r.value < |text| && IsPathEnd(text[r.value])
    ensures r.Some? ==> forall q {:trigger IsPathEnd(text[q])} :: p <= q < r.value ==> !IsPathEnd(text[q])
    ensures r.None? ==> forall q {:trigger IsPathEnd(text[q])} :: p <= q < |text| ==> !IsPathEnd(text[q])
    decreases |text| - p
  {
    if p == |text| then None
    else if IsPathEnd(text[p]) then Some(p)
    else FindPathEnd(text, p + 1)
  }

  /** Whether the expression matches at exactly position `i`. */
  function MatchAt(text: string, i: nat): (r: Option<Span>)
    requires i <= |text|
    ensures r.Some? ==> r.value.start == i && i + |Open| + |r.value.configText| + |Close| <= r.value.end < |text|
  {
    if !OccursAt(text, Open, i) then None
    else
      match FindClose(text, i + |Open|)
      case None => None
      case Some(j) =>
        match FindPathEnd(text, j + |Close|)
        case None => None
        case Some(k) => Some(Span(i, k, text[i + |Open|..j], text[j + |Close|..k]))
  }

  /** The leftmost match at or after `p`, where a global search resumes. */
  function NextMatch(text: string, p: nat): (r: Option<Span>)
    requires p <= |text|
    ensures r.Some? ==> p <= r.value.start < |text| && MatchAt(text, r.value.start) == r
    ensures r.Some? ==> forall q :: p <= q < r.value.start ==> MatchAt(text, q).None?
    ensures r.None? ==> forall q :: p <= q <= |text| ==> MatchAt(text, q).None?
    decreases |text| - p
  {
    if MatchAt(text, p).Some? then MatchAt(text, p)
    else if p == |text| then None
    else
      var r := NextMatch(text, p + 1);
      assert forall q :: p <= q <= p ==> MatchAt(text, q).None?;
      r
  }

  /** A match means what the expression makes of it: the first group runs
      from after "<!-- SHARP_IMAGE " to the first " -->" it can reach, and
      the second from there to just before the first quote or white space. */
  lemma MatchAtSound(text: string, i: nat)
    requires i <= |text| && MatchAt(text, i).Some?
    ensures var sp := MatchAt(text, i).value;
      var o := i + |Open|;
      var j := o + |sp.configText|;
      && OccursAt(text, Open, i)
      && j <= |text| && ClosesAt(text, o, j) && (forall j' :: o <= j' < j ==> !ClosesAt(text, o, j'))
      && sp.configText == text[o..j]
      && j + |Close| <= sp.end < |text| && IsPathEnd(text[sp.end])
      && (forall q {:trigger IsPathEnd(text[q])} :: j + |Close| <= q < sp.end ==> !IsPathEnd(text[q]))
      && sp.path == text[j + |Close|..sp.end]
  {
    var o := i + |Open|;
    var j := FindClose(text, o).value;
    assert |text[o..j]| == j - o;
  }

  /** The characters of " -->" after its first are not spaces. */
  lemma CloseTail(text: string, j: nat, q: nat)
    requires OccursAt(text, Close, j) && j < q < j + |Close|
    ensures text[q] != ' '
  {
    assert text[q] == text[j..j + |Close|][q - j] == Close[q - j];
  }

  /** Backtracking never helps: whenever some " -->" the first group can
      reach is followed by a quote or white space, the first choice of
      " -->" already yields a match. */
  lemma MatchAtComplete(text: string, i: nat, j: nat, k: nat)
    requires i + |Open| <= |text| && OccursAt(text, Open, i)
    requires ClosesAt(text, i + |Open|, j)
    requires j + |Close| <= k < |text| && IsPathEnd(text[k])
    ensures MatchAt(text, i).Some?
  {
    var o := i + |Open|;
    var r := FindClose(text, o);
    assert r.Some?;
    var j0 := r.value;
    assert j0 <= j;
    if j0 < j {
      assert text[j] == text[j..j + |Close|][0] == ' ';
      if j < j0 + |Close| {
        CloseTail(text, j0, j);
      }
      assert IsPathEnd(text[j]);
      assert FindPathEnd(text, j0 + |Close|).Some?;
    } else {
      assert FindPathEnd(text, j + |Close|).Some?;
    }
  }
}
