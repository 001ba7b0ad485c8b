/** The rewrite pass of `sharpTransform` as a value: the text that
    `content.replace(regex, callback)` produces and the `processImage`
    calls the callback schedules, in order. */
module Rewriter {

  import opened Wrappers
  import opened Strings
  import opened Descriptor
  import opened Json
  import opened Naming
  import opened Marker

  /** One scheduled `processImage(config, outputFileName)` call. */
  datatype Job = Job(config: Config, fileName: string)

  /** The rewritten text and the jobs scheduled for it; `error` holds the
      first group of the match at which `JSON.parse` threw, which
      abandons the replacement (the jobs scheduled before it still run). */
  datatype Replaced = Replaced(text: string, jobs: seq<Job>, error: Option<string>)

  /** `outputPath?.endsWith('.html')`: only HTML output is rewritten. */
  predicate IsHtmlOutput(outputPath: Option<string>)
  {
    outputPath.Some? && EndsWith(outputPath.value, ".html")
  }

  /** The replace callback for one match: the authoritative URL and the
      job, or `None` when the first group does not parse. */
  function Resolve(env: Env, configText: string): Option<Job>
  {
    match env.jsonParse(configText)
    case None => None
    case Some(c) => Some(Job(c, FileName(env, c)))
  }

  /** The global replace from position `p` on. */
  function ReplaceFrom(env: Env, text: string, p: nat): Replaced
    requires p <= |text|
    decreases |text| - p
  {
    match NextMatch(text, p)
    case None => Replaced(text[p..], [], None)
    case Some(sp) =>
      var configText := sp.configText;
      match Resolve(env, configText)
      case None => Replaced([], [], Some(configText))
      case Some(job) =>
        var rest := ReplaceFrom(env, text, sp.end);
        Replaced(text[p..sp.start] + Url(env, job.config) + rest.text, [job] + rest.jobs, rest.error)
  }

  /** The text pass of `sharpTransform(content, outputPath)`. */
  function Rewrite(env: Env, content: string, outputPath: Option<string>): Replaced
  {
    if IsHtmlOutput(outputPath) then ReplaceFrom(env, content, 0) else Replaced(content, [], None)
  }

  /** Content that is not HTML output is handed back as it is and
      schedules nothing. */
  lemma Passthrough(env: Env, content: string, outputPath: Option<string>)
    requires !IsHtmlOutput(outputPath)
    ensures Rewrite(env, content, outputPath) == Replaced(content, [], None)
  {
  }

  // ---------------------------------------------------------------------
  // All matches of a global search

  /** The matches a global search finds from `p`, left to right: the
      search resumes at the end of each match. */
  function Matches(text: string, p: nat): seq<Span>
    requires p <= |text|
    decreases |text| - p
  {
    match NextMatch(text, p)
    case None => []
    case Some(sp) => [sp] + Matches(text, sp.end)
  }

  /** Every span found is a match of the expression at its start. */
  lemma {:induction false} MatchesAreMatches(text: string, p: nat)
    requires p <= |text|
    ensures forall i :: 0 <= i < |Matches(text, p)| ==>
              p <= Matches(text, p)[i].start < |text| && MatchAt(text, Matches(text, p)[i].start) == Some(Matches(text, p)[i])
    decreases |text| - p
  {
    match NextMatch(text, p)
    case None =>
    case Some(sp) =>
      MatchesAreMatches(text, sp.end);
      var ms, rest := Matches(text, p), Matches(text, sp.end);
      assert forall i :: 0 < i < |ms| ==> ms[i] == rest[i - 1];
  }

  /** The spans come left to right and do not overlap. */
  lemma {:induction false} MatchesOrdered(text: string, p: nat)
    requires p <= |text|
    ensures forall i, j :: 0 <= i < j < |Matches(text, p)| ==> Matches(text, p)[i].end <= Matches(text, p)[j].start
    decreases |text| - p
  {
    match NextMatch(text, p)
    case None =>
    case Some(sp) =>
      MatchesOrdered(text, sp.end);
      MatchesAreMatches(text, sp.end);
      var ms, rest := Matches(text, p), Matches(text, sp.end);
      assert forall i :: 0 < i < |ms| ==> ms[i] == rest[i - 1];
  }

  /** A match at `q` means the search from `p` finds one no later. */
  lemma FirstNoLater(text: string, p: nat, q: nat)
    requires p <= q <= |text| && MatchAt(text, q).Some?
    ensures NextMatch(text, p).Some? && NextMatch(text, p).value.start <= q
  {
  }

  /** A search that finds a match resumes at its end. */
  lemma MatchesStep(text: string, p: nat)
    requires p <= |text| && NextMatch(text, p).Some?
    ensures Matches(text, p) == [NextMatch(text, p).value] + Matches(text, NextMatch(text, p).value.end)
  {
  }

  /** Indexing past a prepended item. */
  lemma IndexPastFront<T>(x: T, xs: seq<T>, k: nat)
    requires k < |xs|
    ensures k + 1 < |[x] + xs| && ([x] + xs)[k + 1] == xs[k]
  {
  }

  /** The index of the span found from `p` that holds position `q`. */
  lemma {:induction false} SpanHolding(text: string, p: nat, q: nat) returns (i: nat)
    requires p <= q <= |text| && MatchAt(text, q).Some?
    ensures i < |Matches(text, p)| && Matches(text, p)[i].start <= q < Matches(text, p)[i].end
    decreases |text| - p
  {
    FirstNoLater(text, p, q);
    var sp := NextMatch(text, p).value;
    MatchesStep(text, p);
    if q < sp.end {
      i := 0;
    } else {
      var k := SpanHolding(text, sp.end, q);
      IndexPastFront(sp, Matches(text, sp.end), k);
      i := k + 1;
    }
  }

  /** Every position from `p` on where the expression would match lies
      inside one of the spans found: nothing is skipped but what an
      earlier match has consumed. */
  lemma MatchesCover(text: string, p: nat, q: nat)
    requires p <= q <= |text| && MatchAt(text, q).Some?
    ensures exists i :: 0 <= i < |Matches(text, p)| && Matches(text, p)[i].start <= q < Matches(text, p)[i].end
  {
    var i := SpanHolding(text, p, q);
  }

  /** One job per match, unless a marker fails to parse: then one job per
      match before it. */
  lemma {:induction false} JobCount(env: Env, text: string, p: nat)
    requires p <= |text|
    ensures |ReplaceFrom(env, text, p).jobs| <= |Matches(text, p)|
    ensures ReplaceFrom(env, text, p).error.None? <==> |ReplaceFrom(env, text, p).jobs| == |Matches(text, p)|
    decreases |text| - p
  {
    match NextMatch(text, p)
    case None =>
    case Some(sp) =>
      if Resolve(env, sp.configText).Some? {
        JobCount(env, text, sp.end);
      }
  }

  /** `f` maps the items of `xs` to the corresponding items of `ys`, for
      as many items as `ys` has. */
  predicate Aligned<X, Y(==)>(f: X -> Option<Y>, xs: seq<X>, ys: seq<Y>)
  {
    |ys| <= |xs| && forall i :: 0 <= i < |ys| ==> f(xs[i]) == Some(ys[i])
  }

  /** Putting one more mapped pair in front keeps two lists aligned. */
  lemma PrependAligned<X, Y>(f: X -> Option<Y>, x: X, y: Y, xs: seq<X>, ys: seq<Y>)
    requires f(x) == Some(y) && Aligned(f, xs, ys)
    ensures Aligned(f, [x] + xs, [y] + ys)
  {
    var xs', ys' := [x] + xs, [y] + ys;
    forall i | 0 < i < |ys'|
      ensures f(xs'[i]) == Some(ys'[i])
    {
      assert xs'[i] == xs[i - 1] && ys'[i] == ys[i - 1];
    }
  }

  /** The jobs come in match order, each for the descriptor its marker
      carries and for that descriptor's authoritative file name. */
  lemma {:induction false} JobsInMatchOrder(env: Env, text: string, p: nat)
    requires p <= |text|
    ensures |ReplaceFrom(env, text, p).jobs| <= |Matches(text, p)|
    ensures forall i :: 0 <= i < |ReplaceFrom(env, text, p).jobs| ==>
              Resolve(env, Matches(text, p)[i].configText) == Some(ReplaceFrom(env, text, p).jobs[i])
    decreases |text| - p
  {
    var f := (sp: Span) => Resolve(env, sp.configText);
    match NextMatch(text, p)
    case None =>
    case Some(sp) =>
      match Resolve(env, sp.configText)
      case None =>
      case Some(job) =>
        var r' := ReplaceFrom(env, text, sp.end);
        var ms' := Matches(text, sp.end);
        JobsInMatchOrder(env, text, sp.end);
        assert Aligned(f, ms', r'.jobs);
        PrependAligned(f, sp, job, ms', r'.jobs);
        assert ReplaceFrom(env, text, p).jobs == [job] + r'.jobs;
        assert Matches(text, p) == [sp] + ms';
        assert Aligned(f, Matches(text, p), ReplaceFrom(env, text, p).jobs);
  }

  /** A replaced match schedules its job ahead of those of the rest. */
  lemma ReplaceJobsStep(env: Env, text: string, p: nat)
    requires p <= |text| && NextMatch(text, p).Some?
    requires Resolve(env, NextMatch(text, p).value.configText).Some?
    ensures ReplaceFrom(env, text, p).jobs
            == [Resolve(env, NextMatch(text, p).value.configText).value] + ReplaceFrom(env, text, NextMatch(text, p).value.end).jobs
    ensures ReplaceFrom(env, text, p).error == ReplaceFrom(env, text, NextMatch(text, p).value.end).error
    ensures ReplaceFrom(env, text, p).text
            == text[p..NextMatch(text, p).value.start]
               + Url(env, Resolve(env, NextMatch(text, p).value.configText).value.config)
               + ReplaceFrom(env, text, NextMatch(text, p).value.end).text
  {
  }

  /** `spans` lie left to right inside `text`, from `p` on. */
  predicate Laid(text: string, p: nat, spans: seq<Span>)
    decreases |spans|
  {
    p <= |text|
    && (spans == [] || (p <= spans[0].start <= spans[0].end <= |text| && Laid(text, spans[0].end, spans[1..])))
  }

  /** `text` from `p` on with span i replaced by the URL of job i: the
      stretches before, between and after the spans are copied. */
  function Splice(env: Env, text: string, p: nat, spans: seq<Span>, jobs: seq<Job>): string
    requires Laid(text, p, spans) && |jobs| == |spans|
    decreases |spans|
  {
    if spans == [] then text[p..]
    else text[p..spans[0].start] + Url(env, jobs[0].config) + Splice(env, text, spans[0].end, spans[1..], jobs[1..])
  }

  /** One more span in front, before the others. */
  lemma LaidCons(text: string, p: nat, sp: Span, spans: seq<Span>)
    requires p <= sp.start <= sp.end <= |text| && Laid(text, sp.end, spans)
    ensures Laid(text, p, [sp] + spans)
  {
    assert ([sp] + spans)[1..] == spans;
  }

  /** Splicing one more span and job in front. */
  lemma SpliceStep(env: Env, text: string, p: nat, sp: Span, spans: seq<Span>, job: Job, jobs: seq<Job>)
    requires p <= sp.start <= sp.end <= |text| && Laid(text, sp.end, spans) && |jobs| == |spans|
    ensures Laid(text, p, [sp] + spans)
    ensures Splice(env, text, p, [sp] + spans, [job] + jobs)
            == text[p..sp.start] + Url(env, job.config) + Splice(env, text, sp.end, spans, jobs)
  {
    LaidCons(text, p, sp, spans);
    assert ([sp] + spans)[1..] == spans;
    assert ([job] + jobs)[1..] == jobs;
  }

  /** The spans the search finds lie left to right in the text. */
  lemma {:induction false} MatchesLaid(text: string, p: nat)
    requires p <= |text|
    ensures Laid(text, p, Matches(text, p))
    decreases |text| - p
  {
    if NextMatch(text, p).Some? {
      var sp := NextMatch(text, p).value;
      MatchesStep(text, p);
      MatchesLaid(text, sp.end);
      LaidCons(text, p, sp, Matches(text, sp.end));
    }
  }

  /** A pass without parse failure rewrites any text to the text itself,
      with each match the search finds replaced by its job's URL and
      everything outside the matches copied as it is. */
  lemma {:induction false} TextBetweenMatches(env: Env, text: string, p: nat)
    requires p <= |text|
    ensures Laid(text, p, Matches(text, p))
    ensures ReplaceFrom(env, text, p).error.None? ==>
              && |ReplaceFrom(env, text, p).jobs| == |Matches(text, p)|
              && ReplaceFrom(env, text, p).text == Splice(env, text, p, Matches(text, p), ReplaceFrom(env, text, p).jobs)
    decreases |text| - p
  {
    MatchesLaid(text, p);
    if NextMatch(text, p).None? {
      assert Matches(text, p) == [];
    } else {
      var sp := NextMatch(text, p).value;
      if Resolve(env, sp.configText).Some? {
        var job := Resolve(env, sp.configText).value;
        var r' := ReplaceFrom(env, text, sp.end);
        ReplaceJobsStep(env, text, p);
        MatchesStep(text, p);
        TextBetweenMatches(env, text, sp.end);
        if r'.error.None? {
          SpliceStep(env, text, p, sp, Matches(text, sp.end), job, r'.jobs);
        }
      }
    }
  }

  /** The first marker found does not parse: nothing is scheduled and
      the error is its first group. */
  lemma BadHere(env: Env, text: string, p: nat)
    requires p <= |text| && NextMatch(text, p).Some?
    requires Resolve(env, NextMatch(text, p).value.configText).None?
    ensures ReplaceFrom(env, text, p) == Replaced([], [], Some(NextMatch(text, p).value.configText))
    ensures Matches(text, p) != [] && Matches(text, p)[0] == NextMatch(text, p).value
  {
  }

  /** What `FirstBadMarker` states, from `p` on. */
  predicate FailsAtFirstBad(env: Env, text: string, p: nat)
    requires p <= |text|
  {
    && |ReplaceFrom(env, text, p).jobs| < |Matches(text, p)|
    && ReplaceFrom(env, text, p).error == Some(Matches(text, p)[|ReplaceFrom(env, text, p).jobs|].configText)
    && Resolve(env, Matches(text, p)[|ReplaceFrom(env, text, p).jobs|].configText).None?
  }

  /** The failure found after a replaced match is the failure of the
      whole pass, one match further on. */
  lemma BadLater(env: Env, text: string, p: nat)
    requires p <= |text| && NextMatch(text, p).Some?
    requires Resolve(env, NextMatch(text, p).value.configText).Some?
    requires FailsAtFirstBad(env, text, NextMatch(text, p).value.end)
    ensures FailsAtFirstBad(env, text, p)
  {
    var sp := NextMatch(text, p).value;
    var r, r' := ReplaceFrom(env, text, p), ReplaceFrom(env, text, sp.end);
    var ms, ms' := Matches(text, p), Matches(text, sp.end);
    var k := |r'.jobs|;
    ReplaceJobsStep(env, text, p);
    assert |r.jobs| == k + 1 && r.error == r'.error;
    MatchesStep(text, p);
    assert ms == [sp] + ms';
    IndexPastFront(sp, ms', k);
    assert k + 1 < |ms| && ms[k + 1] == ms'[k];
    assert r'.error == Some(ms'[k].configText) && Resolve(env, ms'[k].configText).None?;
  }

  /** A marker whose descriptor does not parse fails the pass, and the
      error names the first such marker. */
  lemma {:induction false} FirstBadMarker(env: Env, text: string, p: nat)
    requires p <= |text|
    requires ReplaceFrom(env, text, p).error.Some?
    ensures |ReplaceFrom(env, text, p).jobs| < |Matches(text, p)|
    ensures ReplaceFrom(env, text, p).error == Some(Matches(text, p)[|ReplaceFrom(env, text, p).jobs|].configText)
    ensures Resolve(env, Matches(text, p)[|ReplaceFrom(env, text, p).jobs|].configText).None?
    decreases |text| - p
  {
    assert NextMatch(text, p).Some?;
    var sp := NextMatch(text, p).value;
    if Resolve(env, sp.configText).None? {
      BadHere(env, text, p);
    } else {
      ReplaceJobsStep(env, text, p);
      FirstBadMarker(env, text, sp.end);
      BadLater(env, text, p);
    }
  }

  /** Text in which the expression finds no match comes back unchanged
      and schedules nothing, whatever the output path. */
  lemma NoMatchUnchanged(env: Env, text: string, outputPath: Option<string>)
    requires Matches(text, 0) == []
    ensures Rewrite(env, text, outputPath) == Replaced(text, [], None)
  {
    if IsHtmlOutput(outputPath) {
      assert NextMatch(text, 0).None?;
      assert text[0..] == text;
    }
  }
}
