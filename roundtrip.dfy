/** What `getUrl` writes, the rewrite pass reads back: text assembled from
    markers and ordinary text is rewritten to the same text with every
    marker and provisional path replaced by the authoritative URL, and
    one job is scheduled per marker, in order. */
module RoundTrip {

  import opened Wrappers
  import opened Strings
  import opened Descriptor
  import opened Json
  import opened Naming
  import opened Marker
  import opened Rewriter

  /** No marker opening starts in `s`. */
  predicate NoOpenIn(s: string)
  {
    forall q: nat :: q <= |s| ==> !OccursAt(s, Open, q)
  }

  /** No " -->" starts in `s`. */
  predicate NoCloseIn(s: string)
  {
    forall q: nat :: q <= |s| ==> !OccursAt(s, Close, q)
  }

  /** `s` holds neither of the two line terminators `JSON.stringify`
      leaves unescaped, U+2028 and U+2029. */
  predicate NoLineSeparator(s: string)
  {
    forall k :: 0 <= k < |s| ==> s[k] as int != 0x2028 && s[k] as int != 0x2029
  }

  /** `json` can sit inside a marker: it holds no " -->" that would end
      the first group early and no line terminator `.` cannot step over. */
  predicate Embeddable(json: string)
  {
    && NoCloseIn(json)
    && (forall k :: 0 <= k < |json| ==> !IsLineTerminator(json[k]))
  }

  /** `s` holds no quote or white space, so the second group takes all of it. */
  predicate PlainPath(s: string)
  {
    forall k :: 0 <= k < |s| ==> !IsPathEnd(s[k])
  }

  /** The round trip of one descriptor: its serialisation holds no " -->"
      and no U+2028 or U+2029 and parses back to it, and its provisional
      URL is plain. (Line feeds and carriage returns `Stringify` escapes
      itself.) */
  predicate Transparent(env: Env, c: Config)
  {
    && NoCloseIn(Stringify(c)) && NoLineSeparator(Stringify(c))
    && env.jsonParse(Stringify(c)) == Some(c)
    && PlainPath(ProvisionalUrl(env, c))
  }

  /** A serialisation without " -->" and without U+2028 or U+2029 can sit
      inside a marker: `Stringify` escapes the other line terminators. */
  lemma SerialisedEmbeddable(c: Config)
    requires NoCloseIn(Stringify(c)) && NoLineSeparator(Stringify(c))
    ensures Embeddable(Stringify(c))
  {
    var s := Stringify(c);
    forall k | 0 <= k < |s| ensures !IsLineTerminator(s[k]) {
      assert s[k] != '\n' && s[k] != '\r';
    }
  }

  /** A `getUrl` output followed by the text up to the next one. */
  datatype Piece = Piece(input: Input, after: string)

  /** Text that follows a provisional path: it starts with a quote or
      white space (as in `src="..."`) and opens no marker of its own. */
  predicate Separator(s: string)
  {
    s != [] && IsPathEnd(s[0]) && NoOpenIn(s)
  }

  predicate WellFormed(env: Env, pre: string, pieces: seq<Piece>)
  {
    && NoOpenIn(pre)
    && forall k :: 0 <= k < |pieces| ==> Separator(pieces[k].after) && Transparent(env, EnsureConfig(pieces[k].input))
  }

  /** `pre`, then each piece's `getUrl` output and the text after it. */
  function Compose(env: Env, pre: string, pieces: seq<Piece>): string
    decreases |pieces|
  {
    if pieces == [] then pre
    else pre + GetUrl(env, pieces[0].input) + Compose(env, pieces[0].after, pieces[1..])
  }

  /** The same text with the authoritative URL in place of each marker. */
  function Resolved(env: Env, pre: string, pieces: seq<Piece>): string
    decreases |pieces|
  {
    if pieces == [] then pre
    else pre + Url(env, EnsureConfig(pieces[0].input)) + Resolved(env, pieces[0].after, pieces[1..])
  }

  /** One job per piece, in order. */
  function ExpectedJobs(env: Env, pieces: seq<Piece>): seq<Job>
    decreases |pieces|
  {
    if pieces == [] then []
    else
      var c := EnsureConfig(pieces[0].input);
      [Job(c, FileName(env, c))] + ExpectedJobs(env, pieces[1..])
  }

  lemma OpenChars()
    ensures |Open| == 17 && Open[0] == '<'
    ensures forall k :: 0 < k < |Open| ==> Open[k] != '<'
  {
  }

  lemma CloseChars()
    ensures |Close| == 4 && Close[0] == ' '
    ensures forall k :: 0 < k < |Close| ==> Close[k] != ' '
  {
  }

  /** A slice of a known stretch of `text`. */
  lemma SliceOf(text: string, p: nat, x: string, y: string, i: nat, j: nat)
    requires p <= |text| && text[p..] == x + y
    requires i <= j <= |x|
    ensures text[p + i..p + j] == x[i..j]
  {
    forall k | 0 <= k < j - i
      ensures text[p + i..p + j][k] == x[i..j][k]
    {
      assert text[p + i + k] == text[p..][i + k] == (x + y)[i + k];
    }
  }

  /** No match starts in a stretch `pre` without openings when what
      follows it is a marker or the end of the text. */
  lemma NoMatchBefore(text: string, p: nat, pre: string, rest: string)
    requires p <= |text| && text[p..] == pre + rest
    requires NoOpenIn(pre)
    requires rest == [] || rest[0] == '<'
    ensures forall q :: p <= q < p + |pre| ==> MatchAt(text, q).None?
  {
    OpenChars();
    forall q | p <= q < p + |pre|
      ensures !OccursAt(text, Open, q)
    {
      if q + |Open| <= p + |pre| {
        SliceOf(text, p, pre, rest, q - p, q - p + |Open|);
        assert !OccursAt(pre, Open, q - p);
      } else if q + |Open| <= |text| {
        var k := p + |pre| - q;
        assert 0 < k < |Open|;
        assert text[q..q + |Open|][k] == text[p + |pre|] == (pre + rest)[|pre|] == '<';
        assert text[q..q + |Open|][k] != Open[k];
      }
    }
  }

  /** A slice of a slice. */
  lemma SubSlice(text: string, o: nat, w: string, i: nat, j: nat)
    requires o + |w| <= |text| && text[o..o + |w|] == w
    requires i <= j <= |w|
    ensures text[o + i..o + j] == w[i..j]
  {
    forall k | 0 <= k < j - i
      ensures text[o + i..o + j][k] == w[i..j][k]
    {
      assert text[o + i + k] == text[o..o + |w|][i + k];
    }
  }

  /** No " -->" starts before the end of an embeddable `json` that " -->"
      follows. */
  lemma NoCloseBefore(text: string, o: nat, b: nat, json: string)
    requires b == o + |json| && b <= |text| && text[o..b] == json
    requires OccursAt(text, Close, b)
    requires Embeddable(json)
    ensures forall j :: o <= j < b ==> !OccursAt(text, Close, j)
  {
    CloseChars();
    forall j | o <= j < b
      ensures !OccursAt(text, Close, j)
    {
      if j + |Close| <= b {
        SubSlice(text, o, json, j - o, j - o + |Close|);
        assert !OccursAt(json, Close, j - o);
      } else if j + |Close| <= |text| {
        var k := b - j;
        assert 0 < k < |Close|;
        assert text[j..j + |Close|][k] == text[b] == text[b..b + |Close|][0] == ' ';
        assert text[j..j + |Close|][k] != Close[k];
      }
    }
  }

  /** The lazy first group stops right after an embeddable serialisation. */
  lemma CloseAfter(text: string, o: nat, json: string)
    requires o + |json| <= |text| && text[o..o + |json|] == json
    requires OccursAt(text, Close, o + |json|)
    requires Embeddable(json)
    ensures FindClose(text, o) == Some(o + |json|)
  {
    var b := o + |json|;
    assert ClosesAt(text, o, b) by {
      forall q | o <= q < b ensures !IsLineTerminator(text[q]) {
        assert text[q] == text[o..b][q - o] == json[q - o];
      }
    }
    NoCloseBefore(text, o, b, json);
  }

  /** The lazy second group takes a plain path and stops at the quote or
      white space after it. */
  lemma PathEndAfter(text: string, u: nat, url: string)
    requires u + |url| < |text| && text[u..u + |url|] == url
    requires IsPathEnd(text[u + |url|]) && PlainPath(url)
    ensures FindPathEnd(text, u) == Some(u + |url|)
  {
    forall q | u <= q < u + |url| ensures !IsPathEnd(text[q]) {
      assert text[q] == text[u..u + |url|][q - u] == url[q - u];
    }
  }

  /** A marker whose serialisation is embeddable and whose path is plain
      and then ended is matched exactly: the first group is the
      serialisation, the second the whole path. */
  lemma MarkerAt(text: string, a: nat, o: nat, j: nat, u: nat, e: nat, json: string, url: string)
    requires o == a + |Open| && j == o + |json| && u == j + |Close| && e == u + |url|
    requires e < |text|
    requires OccursAt(text, Open, a)
    requires text[o..j] == json
    requires OccursAt(text, Close, j)
    requires text[u..e] == url
    requires IsPathEnd(text[e])
    requires Embeddable(json) && PlainPath(url)
    ensures MatchAt(text, a) == Some(Span(a, e, json, url))
  {
    CloseAfter(text, o, json);
    PathEndAfter(text, u, url);
    MatchFrom(text, a, o, j, u, e);
  }

  /** The expression matches at `a` once both groups are known to close. */
  lemma MatchFrom(text: string, a: nat, o: nat, j: nat, u: nat, e: nat)
    requires o == a + |Open| && u == j + |Close| && o <= |text| && u <= |text|
    requires OccursAt(text, Open, a)
    requires FindClose(text, o) == Some(j) && FindPathEnd(text, u) == Some(e)
    ensures MatchAt(text, a) == Some(Span(a, e, text[o..j], text[u..e]))
  {
  }

  /** The stretches a marker and its path occupy in the text. */
  lemma MarkerLayout(text: string, a: nat, json: string, url: string, rest: string)
    requires a <= |text| && text[a..] == Open + json + Close + url + rest
    ensures a + |Open| + |json| + |Close| + |url| <= |text|
    ensures OccursAt(text, Open, a)
    ensures text[a + |Open|..a + |Open| + |json|] == json
    ensures OccursAt(text, Close, a + |Open| + |json|)
    ensures text[a + |Open| + |json| + |Close|..a + |Open| + |json| + |Close| + |url|] == url
    ensures text[a + |Open| + |json| + |Close| + |url|..] == rest
  {
    var w := Open + json + Close + url;
    var b := |Open| + |json| + |Close|;
    assert text[a..] == w + rest;
    SliceOf(text, a, w, rest, 0, |Open|);
    SliceOf(text, a, w, rest, |Open|, |Open| + |json|);
    SliceOf(text, a, w, rest, |Open| + |json|, b);
    SliceOf(text, a, w, rest, b, b + |url|);
    assert w[0..|Open|] == Open;
    assert w[|Open|..|Open| + |json|] == json;
    assert w[|Open| + |json|..b] == Close;
    assert w[b..b + |url|] == url;
    assert text[a + |w|..] == text[a..][|w|..] == rest;
  }

  /** The leftmost match is the one the scan returns. */
  lemma NextIs(text: string, p: nat, a: nat, sp: Span)
    requires p <= a < |text|
    requires MatchAt(text, a) == Some(sp)
    requires forall q :: p <= q < a ==> MatchAt(text, q).None?
    ensures NextMatch(text, p) == Some(sp)
  {
    var r := NextMatch(text, p);
    if r.None? {
      assert false;
    } else if r.value.start < a {
      assert false;
    } else if r.value.start > a {
      assert false;
    }
  }

  /** The two stretches of a split tail of the text. */
  lemma Split(text: string, p: nat, x: string, y: string)
    requires p <= |text| && text[p..] == x + y
    ensures text[p..p + |x|] == x && text[p + |x|..] == y
  {
    SliceOf(text, p, x, y, 0, |x|);
    assert x[0..|x|] == x;
    assert text[p + |x|..] == text[p..][|x|..];
  }

  /** A marker laid out in the text after a stretch where nothing
      matches is the next match (`e` is where its path ends). */
  lemma MarkerNextAt(text: string, p: nat, a: nat, e: nat, json: string, url: string)
    requires e == a + |Open| + |json| + |Close| + |url|
    requires p <= a && e < |text|
    requires OccursAt(text, Open, a)
    requires text[a + |Open|..a + |Open| + |json|] == json
    requires OccursAt(text, Close, a + |Open| + |json|)
    requires text[a + |Open| + |json| + |Close|..e] == url
    requires IsPathEnd(text[e])
    requires Embeddable(json) && PlainPath(url)
    requires forall q :: p <= q < a ==> MatchAt(text, q).None?
    ensures NextMatch(text, p) == Some(Span(a, e, json, url))
  {
    var o := a + |Open|;
    var j := o + |json|;
    MarkerAt(text, a, o, j, j + |Close|, e, json, url);
    NextIs(text, p, a, Span(a, e, json, url));
  }

  /** Where a marker after a stretch without openings sits in the text,
      and that nothing matches before it (`a` is where `pre` ends, `e`
      where the marker's path ends). */
  lemma MarkerPlaced(text: string, p: nat, pre: string, a: nat, e: nat, json: string, url: string, rest: string)
    requires p <= |text| && text[p..] == pre + (Open + json + Close + url + rest)
    requires a == p + |pre| && e == a + |Open| + |json| + |Close| + |url|
    requires NoOpenIn(pre) && rest != []
    ensures e < |text|
    ensures OccursAt(text, Open, a)
    ensures text[a + |Open|..a + |Open| + |json|] == json
    ensures OccursAt(text, Close, a + |Open| + |json|)
    ensures text[a + |Open| + |json| + |Close|..e] == url
    ensures text[e] == rest[0]
    ensures forall q :: p <= q < a ==> MatchAt(text, q).None?
    ensures text[p..a] == pre
    ensures text[e..] == rest
  {
    var tail := Open + json + Close + url + rest;
    OpenChars();
    assert tail[0] == '<';
    Split(text, p, pre, tail);
    NoMatchBefore(text, p, pre, tail);
    MarkerLayout(text, a, json, url, rest);
    assert text[e] == text[e..][0] == rest[0];
  }

  /** A marker after a stretch without openings and before a path end
      is the next match, and it spans exactly the marker and its path
      (from `a` to `e`). */
  lemma MarkerNext(text: string, p: nat, pre: string, a: nat, e: nat, json: string, url: string, rest: string)
    requires p <= |text| && text[p..] == pre + (Open + json + Close + url + rest)
    requires a == p + |pre| && e == a + |Open| + |json| + |Close| + |url|
    requires NoOpenIn(pre) && Embeddable(json) && PlainPath(url)
    requires rest != [] && IsPathEnd(rest[0])
    ensures e <= |text|
    ensures NextMatch(text, p) == Some(Span(a, e, json, url))
    ensures text[p..a] == pre
    ensures text[e..] == rest
  {
    MarkerPlaced(text, p, pre, a, e, json, url, rest);
    MarkerNextAt(text, p, a, e, json, url);
  }

  /** A marker whose path holds a quote or white space is cut there: the
      second group ends at the first such character, so only the part of
      the path before it is replaced and the rest of the path stays in
      the page (an input path `my photo.jpg` leaves ` photo-<hash>.jpg`
      after the authoritative URL). */
  lemma PathCutAtPathEnd(env: Env, text: string, pre: string, json: string, url: string, cut: string, after: string, job: Job)
    requires text == pre + (Open + json + Close + url + (cut + after))
    requires NoOpenIn(pre) && Embeddable(json) && PlainPath(url) && Resolve(env, json) == Some(job)
    requires cut != [] && IsPathEnd(cut[0]) && NoOpenIn(cut + after)
    ensures ReplaceFrom(env, text, 0) == Replaced(pre + Url(env, job.config) + (cut + after), [job], None)
  {
    var a := |pre|;
    var e := a + |Open| + |json| + |Close| + |url|;
    assert text[0..] == text;
    MarkerNext(text, 0, pre, a, e, json, url, cut + after);
    NoSlotsLeft(env, text, e, cut + after);
    ReplaceStep(env, text, 0, pre, a, e, json, url, job);
    assert [job] + [] == [job];
  }

  /** What follows the first piece is well formed again. */
  lemma WellFormedTail(env: Env, pre: string, pieces: seq<Piece>)
    requires WellFormed(env, pre, pieces) && pieces != []
    ensures WellFormed(env, pieces[0].after, pieces[1..])
  {
    forall k | 0 <= k < |pieces[1..]|
      ensures Separator(pieces[1..][k].after) && Transparent(env, EnsureConfig(pieces[1..][k].input))
    {
      assert pieces[1..][k] == pieces[k + 1];
    }
  }

  /** One step of the global replace: the next match becomes its
      job's URL and the search resumes after it. */
  lemma ReplaceStep(env: Env, text: string, p: nat, pre: string, a: nat, e: nat, json: string, url: string, job: Job)
    requires p <= |text| && e <= |text|
    requires NextMatch(text, p) == Some(Span(a, e, json, url))
    requires text[p..a] == pre
    requires Resolve(env, json) == Some(job)
    ensures ReplaceFrom(env, text, p)
            == Replaced(pre + Url(env, job.config) + ReplaceFrom(env, text, e).text,
                        [job] + ReplaceFrom(env, text, e).jobs, ReplaceFrom(env, text, e).error)
  {
  }

  /** A marker as the text holds it: its serialisation, its path, the
      job its serialisation resolves to, and the text after it. */
  datatype Slot = Slot(json: string, url: string, job: Job, after: string)

  predicate SlotOk(env: Env, s: Slot)
  {
    Embeddable(s.json) && PlainPath(s.url) && Resolve(env, s.json) == Some(s.job) && Separator(s.after)
  }

  function SlotText(pre: string, slots: seq<Slot>): string
    decreases |slots|
  {
    if slots == [] then pre
    else pre + (Open + slots[0].json + Close + slots[0].url + SlotText(slots[0].after, slots[1..]))
  }

  function SlotResolved(env: Env, pre: string, slots: seq<Slot>): string
    decreases |slots|
  {
    if slots == [] then pre
    else pre + Url(env, slots[0].job.config) + SlotResolved(env, slots[0].after, slots[1..])
  }

  function SlotJobs(slots: seq<Slot>): seq<Job>
    decreases |slots|
  {
    if slots == [] then [] else [slots[0].job] + SlotJobs(slots[1..])
  }

  /** Replacing from a marker whose rest is already replaced: the
      marker becomes its job's URL, ahead of the rest (`a` and `e` are
      where the marker starts and its path ends). */
  lemma StepAt(env: Env, text: string, p: nat, a: nat, e: nat, pre: string,
               json: string, url: string, job: Job, rest: string, r: Replaced)
    requires p <= |text| && text[p..] == pre + (Open + json + Close + url + rest)
    requires a == p + |pre| && e == a + |Open| + |json| + |Close| + |url|
    requires NoOpenIn(pre) && Embeddable(json) && PlainPath(url)
    requires rest != [] && IsPathEnd(rest[0])
    requires Resolve(env, json) == Some(job)
    requires e <= |text| && ReplaceFrom(env, text, e) == r
    ensures ReplaceFrom(env, text, p) == Replaced(pre + Url(env, job.config) + r.text, [job] + r.jobs, r.error)
  {
    MarkerNext(text, p, pre, a, e, json, url, rest);
    ReplaceStep(env, text, p, pre, a, e, json, url, job);
  }

  /** Where the rest of text made of markers starts. */
  lemma SlotSplit(text: string, p: nat, pre: string, slots: seq<Slot>)
    requires p <= |text| && text[p..] == SlotText(pre, slots) && slots != []
    ensures text[p..] == pre + (Open + slots[0].json + Close + slots[0].url + SlotText(slots[0].after, slots[1..]))
    ensures p + |pre| + |Open| + |slots[0].json| + |Close| + |slots[0].url| <= |text|
    ensures text[p + |pre| + |Open| + |slots[0].json| + |Close| + |slots[0].url|..]
            == SlotText(slots[0].after, slots[1..])
  {
    var w := Open + slots[0].json + Close + slots[0].url;
    assert text[p..] == (pre + w) + SlotText(slots[0].after, slots[1..]);
    Split(text, p, pre + w, SlotText(slots[0].after, slots[1..]));
  }

  lemma ComposeStartSlots(pre: string, slots: seq<Slot>)
    requires pre != []
    ensures SlotText(pre, slots) != [] && SlotText(pre, slots)[0] == pre[0]
  {
  }

  /** Every slot is well formed. */
  predicate AllSlotsOk(env: Env, slots: seq<Slot>)
  {
    forall k :: 0 <= k < |slots| ==> SlotOk(env, slots[k])
  }

  /** `text` holds, from `p` on, markers without openings between them. */
  predicate SlotPage(env: Env, text: string, p: nat, pre: string, slots: seq<Slot>)
  {
    p <= |text| && text[p..] == SlotText(pre, slots) && NoOpenIn(pre) && AllSlotsOk(env, slots)
  }

  lemma SlotsTail(env: Env, slots: seq<Slot>)
    requires slots != [] && AllSlotsOk(env, slots)
    ensures SlotOk(env, slots[0]) && AllSlotsOk(env, slots[1..])
  {
    forall k | 0 <= k < |slots[1..]| ensures SlotOk(env, slots[1..][k]) {
      assert slots[1..][k] == slots[k + 1];
    }
  }

  /** Past the first marker, the rest of the page is made of markers again. */
  lemma SlotNext(env: Env, text: string, p: nat, pre: string, slots: seq<Slot>) returns (e: nat)
    requires SlotPage(env, text, p, pre, slots) && slots != []
    ensures e == p + |pre| + |Open| + |slots[0].json| + |Close| + |slots[0].url|
    ensures SlotPage(env, text, e, slots[0].after, slots[1..])
  {
    SlotSplit(text, p, pre, slots);
    SlotsTail(env, slots);
    e := p + |pre| + |Open| + |slots[0].json| + |Close| + |slots[0].url|;
  }

  /** Text without markers is handed back as it is. */
  lemma NoSlotsLeft(env: Env, text: string, p: nat, pre: string)
    requires p <= |text| && text[p..] == pre && NoOpenIn(pre)
    ensures ReplaceFrom(env, text, p) == Replaced(pre, [], None)
  {
    NoMatchBefore(text, p, pre, []);
    assert !OccursAt(text, Open, |text|);
    assert NextMatch(text, p).None?;
  }

  /** The first marker of the text, once the markers after it are
      replaced. */
  lemma SlotStep(env: Env, text: string, p: nat, pre: string, slots: seq<Slot>, e: nat)
    requires SlotPage(env, text, p, pre, slots) && slots != []
    requires e == p + |pre| + |Open| + |slots[0].json| + |Close| + |slots[0].url| && e <= |text|
    requires ReplaceFrom(env, text, e) == Replaced(SlotResolved(env, slots[0].after, slots[1..]), SlotJobs(slots[1..]), None)
    ensures ReplaceFrom(env, text, p) == Replaced(SlotResolved(env, pre, slots), SlotJobs(slots), None)
  {
    SlotsTail(env, slots);
    SlotSplit(text, p, pre, slots);
    ComposeStartSlots(slots[0].after, slots[1..]);
    StepAt(env, text, p, p + |pre|, e, pre, slots[0].json, slots[0].url, slots[0].job,
           SlotText(slots[0].after, slots[1..]), ReplaceFrom(env, text, e));
  }

  /** The global replace over text made of markers. */
  lemma {:induction false} SlotRoundTrip(env: Env, text: string, p: nat, pre: string, slots: seq<Slot>)
    requires SlotPage(env, text, p, pre, slots)
    ensures ReplaceFrom(env, text, p) == Replaced(SlotResolved(env, pre, slots), SlotJobs(slots), None)
    decreases |slots|
  {
    if slots == [] {
      NoSlotsLeft(env, text, p, pre);
    } else {
      var e := SlotNext(env, text, p, pre, slots);
      SlotRoundTrip(env, text, e, slots[0].after, slots[1..]);
      SlotStep(env, text, p, pre, slots, e);
    }
  }

  /** The markers `getUrl` writes for each piece. */
  function Slots(env: Env, pieces: seq<Piece>): (r: seq<Slot>)
    ensures |r| == |pieces|
    decreases |pieces|
  {
    if pieces == [] then []
    else
      var c := EnsureConfig(pieces[0].input);
      [Slot(Stringify(c), ProvisionalUrl(env, c), Job(c, FileName(env, c)), pieces[0].after)] + Slots(env, pieces[1..])
  }

  /** A marker and what follows it, regrouped. */
  lemma MarkerThen(pre: string, o: string, json: string, c: string, url: string, t: string)
    ensures pre + (o + json + c + url) + t == pre + (o + json + c + url + t)
  {
  }

  /** The text `getUrl` writes is text made of markers. */
  lemma {:induction false} ComposeSlotText(env: Env, pre: string, pieces: seq<Piece>)
    ensures Compose(env, pre, pieces) == SlotText(pre, Slots(env, pieces))
    decreases |pieces|
  {
    if pieces != [] {
      ComposeSlotText(env, pieces[0].after, pieces[1..]);
      var c := EnsureConfig(pieces[0].input);
      assert Slots(env, pieces)[1..] == Slots(env, pieces[1..]);
      MarkerThen(pre, Open, Stringify(c), Close, ProvisionalUrl(env, c), Compose(env, pieces[0].after, pieces[1..]));
    }
  }

  /** Its markers resolve to the authoritative URLs. */
  lemma {:induction false} ResolvedSlots(env: Env, pre: string, pieces: seq<Piece>)
    ensures Resolved(env, pre, pieces) == SlotResolved(env, pre, Slots(env, pieces))
    decreases |pieces|
  {
    if pieces != [] {
      ResolvedSlots(env, pieces[0].after, pieces[1..]);
      assert Slots(env, pieces)[1..] == Slots(env, pieces[1..]);
    }
  }

  /** Its markers schedule the expected jobs. */
  lemma {:induction false} JobsSlots(env: Env, pieces: seq<Piece>)
    ensures ExpectedJobs(env, pieces) == SlotJobs(Slots(env, pieces))
    decreases |pieces|
  {
    if pieces != [] {
      JobsSlots(env, pieces[1..]);
      assert Slots(env, pieces)[1..] == Slots(env, pieces[1..]);
    }
  }

  /** The marker `getUrl` writes for the first piece of a well-formed page
      is well formed. */
  lemma FirstSlotOk(env: Env, pre: string, pieces: seq<Piece>)
    requires WellFormed(env, pre, pieces) && pieces != []
    ensures SlotOk(env, Slots(env, pieces)[0])
  {
    var c := EnsureConfig(pieces[0].input);
    assert Separator(pieces[0].after) && Transparent(env, c);
    SerialisedEmbeddable(c);
  }

  /** One more item in front of items that all satisfy `f`. */
  lemma AllCons<T>(f: T -> bool, x: T, xs: seq<T>)
    requires f(x) && forall k :: 0 <= k < |xs| ==> f(xs[k])
    ensures forall k :: 0 <= k < |[x] + xs| ==> f(([x] + xs)[k])
  {
    forall k | 0 < k < |[x] + xs| ensures f(([x] + xs)[k]) {
      assert ([x] + xs)[k] == xs[k - 1];
    }
  }

  /** One more well-formed slot in front. */
  lemma SlotsCons(env: Env, s: Slot, slots: seq<Slot>)
    requires SlotOk(env, s) && AllSlotsOk(env, slots)
    ensures AllSlotsOk(env, [s] + slots)
  {
    AllCons(t => SlotOk(env, t), s, slots);
  }

  lemma {:induction false} WellFormedSlots(env: Env, pre: string, pieces: seq<Piece>)
    requires WellFormed(env, pre, pieces)
    ensures AllSlotsOk(env, Slots(env, pieces))
    decreases |pieces|
  {
    if pieces != [] {
      WellFormedTail(env, pre, pieces);
      WellFormedSlots(env, pieces[0].after, pieces[1..]);
      FirstSlotOk(env, pre, pieces);
      var slots := Slots(env, pieces);
      assert slots == [slots[0]] + Slots(env, pieces[1..]);
      SlotsCons(env, slots[0], Slots(env, pieces[1..]));
    }
  }

  /** `sharpTransform` on HTML built from `getUrl` outputs: the result
      is the text with each marker and its provisional path replaced by
      the authoritative URL, no parse error occurs, and one
      `processImage` per marker is scheduled, in order. */
  lemma RewriteRoundTrip(env: Env, pre: string, pieces: seq<Piece>, outputPath: Option<string>)
    requires IsHtmlOutput(outputPath)
    requires WellFormed(env, pre, pieces)
    ensures Rewrite(env, Compose(env, pre, pieces), outputPath)
            == Replaced(Resolved(env, pre, pieces), ExpectedJobs(env, pieces), None)
  {
    ComposeSlotText(env, pre, pieces);
    ResolvedSlots(env, pre, pieces);
    JobsSlots(env, pieces);
    WellFormedSlots(env, pre, pieces);
    var text := Compose(env, pre, pieces);
    SlotRoundTrip(env, text, 0, pre, Slots(env, pieces));
  }
}
