/**
 Where a passage starts and ends, from its loudness window by window: tools/analyze_amplitude.py.

 The envelope of a stretch of audio, the reference level of an envelope, and the conversion from decibels
 are parameters; times are whole milliseconds.
 */
module BoundaryDetect {

  type Envelope = seq<real>

  // ------------------------------------------------------------------------- runs

  /** k windows from number i on are all at least this loud. */
  predicate RunAt(env: Envelope, level: real, i: int, k: nat)
  {
    0 <= i && i + k <= |env| && forall j :: i <= j < i + k ==> env[j] >= level
  }

  /** The first run at or after number i, or -1. */
  function RunFrom(env: Envelope, level: real, k: nat, i: nat): (r: int)
    ensures r == -1 || (r >= i && RunAt(env, level, r, k))
    ensures forall j :: i <= j && (r == -1 || j < r) ==> !RunAt(env, level, j, k)
    decreases |env| - i
  {
    if i + k > |env| then -1
    else if RunAt(env, level, i, k) then i
    else if i == |env| then -1
    else RunFrom(env, level, k, i + 1)
  }

  /** The first window of the earliest run of k windows, or -1 where there is none. */
  function FirstRunOf(env: Envelope, level: real, k: nat): int
  {
    RunFrom(env, level, k, 0)
  }

  function Reversed(env: Envelope): (r: Envelope)
    ensures |r| == |env| && forall i :: 0 <= i < |env| ==> r[i] == env[|env| - 1 - i]
  {
    seq(|env|, i requires 0 <= i < |env| => env[|env| - 1 - i])
  }

  /** The last window of the latest run of k windows, or -1 where there is none. */
  ghost predicate IsLastRun(env: Envelope, level: real, k: nat, r: int)
  {
    if r == -1 then forall i :: !RunAt(env, level, i, k)
    else RunAt(env, level, r - k + 1, k) && forall i :: i > r - k + 1 ==> !RunAt(env, level, i, k)
  }

  lemma RunReversed(env: Envelope, level: real, i: int, k: nat)
    ensures RunAt(Reversed(env), level, i, k) <==> RunAt(env, level, |env| - k - i, k)
  {
    var back, j := Reversed(env), |env| - k - i;
    if RunAt(back, level, i, k) {
      forall x | j <= x < j + k ensures env[x] >= level {
        assert back[|env| - 1 - x] == env[x];
      }
    }
    if RunAt(env, level, j, k) {
      forall x | i <= x < i + k ensures back[x] >= level {
        assert back[x] == env[|env| - 1 - x];
      }
    }
  }

  function LastRunOf(env: Envelope, level: real, k: nat): int
  {
    var r := FirstRunOf(Reversed(env), level, k);
    if r == -1 then -1 else |env| - 1 - r
  }

  /** The latest run is the earliest of the envelope read backwards. */
  lemma LastRunIsLast(env: Envelope, level: real, k: nat)
    requires k > 0
    ensures IsLastRun(env, level, k, LastRunOf(env, level, k))
  {
    forall i ensures RunAt(Reversed(env), level, |env| - k - i, k) <==> RunAt(env, level, i, k) {
      RunReversed(env, level, |env| - k - i, k);
    }
    var r := FirstRunOf(Reversed(env), level, k);
    forall i | RunAt(env, level, i, k) ensures r != -1 && r <= |env| - k - i {
      assert RunAt(Reversed(env), level, |env| - k - i, k);
    }
    if r != -1 {
      RunReversed(env, level, r, k);
      var last := |env| - k - r;
      forall i | i > last ensures !RunAt(env, level, i, k) {
        assert r > |env| - k - i;
      }
      assert last == LastRunOf(env, level, k) - k + 1;
    }
  }

  lemma OnlyLastRun(env: Envelope, level: real, k: nat, r: int, r': int)
    requires k > 0 && IsLastRun(env, level, k, r) && IsLastRun(env, level, k, r')
    ensures r == r'
  {
    if r != -1 && r' != -1 {
      assert RunAt(env, level, r - k + 1, k) && RunAt(env, level, r' - k + 1, k);
    }
  }

  /** Up to here the windows have been loud for `run` windows, and no longer. */
  ghost predicate Counted(env: Envelope, level: real, run: nat, i: nat)
    requires i <= |env|
  {
    run <= i && (forall j :: i - run <= j < i ==> env[j] >= level) && (run < i ==> env[i - run - 1] < level)
  }

  method FirstRun(env: Envelope, level: real, k: nat) returns (r: int)
    requires k > 0
    ensures r == FirstRunOf(env, level, k)
  {
    var run := 0;
    for i := 0 to |env|
      invariant Counted(env, level, run, i) && run < k
      invariant forall j :: j + k <= i ==> !RunAt(env, level, j, k)
    {
      run := if env[i] >= level then run + 1 else 0;
      if run >= k {
        assert RunAt(env, level, i - k + 1, k);
        return i - k + 1;
      }
      forall j | j + k <= i + 1 ensures !RunAt(env, level, j, k) {
        if j + k == i + 1 && 0 <= j {
          assert env[i - run] < level;
        }
      }
    }
    r := -1;
  }

  /** From here on the windows are loud for `run` windows, and no longer. */
  ghost predicate CountedBack(env: Envelope, level: real, run: nat, i: nat)
    requires i <= |env|
  {
    i + run <= |env| && (forall j :: i <= j < i + run ==> env[j] >= level) && (i + run < |env| ==> env[i + run] < level)
  }

  method LastRun(env: Envelope, level: real, k: nat) returns (r: int)
    requires k > 0
    ensures r == LastRunOf(env, level, k)
  {
    LastRunIsLast(env, level, k);
    var run, i := 0, |env|;
    while i > 0
      invariant 0 <= i <= |env| && CountedBack(env, level, run, i) && run < k
      invariant forall j :: j >= i ==> !RunAt(env, level, j, k)
    {
      i := i - 1;
      run := if env[i] >= level then run + 1 else 0;
      if run >= k {
        assert RunAt(env, level, i, k);
        OnlyLastRun(env, level, k, i + k - 1, LastRunOf(env, level, k));
        return i + k - 1;
      }
      if i + run < |env| {
        assert env[i + run] < level;
      }
    }
    forall j ensures !RunAt(env, level, j, k) {
    }
    OnlyLastRun(env, level, k, -1, LastRunOf(env, level, k));
    r := -1;
  }

  // ------------------------------------------------------------------ single levels

  /** The first window at least this loud, or -1. */
  function FirstAt(env: Envelope, level: real): (i: int)
    ensures -1 <= i < |env| && (i >= 0 ==> env[i] >= level)
    ensures forall j :: 0 <= j < |env| && (i == -1 || j < i) ==> env[j] < level
  {
    RunOfOne(env, level);
    FirstRunOf(env, level, 1)
  }

  lemma RunOfOne(env: Envelope, level: real)
    ensures forall i :: 0 <= i < |env| ==> (RunAt(env, level, i, 1) <==> env[i] >= level)
  {
  }

  /** The last window at least this loud, or -1. */
  function LastAt(env: Envelope, level: real): (i: int)
    ensures -1 <= i < |env| && (i >= 0 ==> env[i] >= level)
    ensures forall j :: 0 <= j < |env| && (i == -1 || j > i) ==> env[j] < level
  {
    RunOfOne(env, level);
    LastRunIsLast(env, level, 1);
    LastRunOf(env, level, 1)
  }

  // ------------------------------------------------------------------- parameters

  datatype FadeMode = AsLead | Fixed

  datatype Lead = Lead(on: bool, db: real, contentDb: real, quickRampMs: int, maxMs: int)

  datatype Edge = Edge(trim: bool, minSoundMs: nat, silenceDb: real, padMs: int)

  datatype Params = Params(
    window: nat, start: Edge, end: Edge, leadIn: Lead, leadOut: Lead,
    fadeInMode: FadeMode, fadeInMs: int, fadeOutMode: FadeMode, fadeOutMs: int)

  /** What loudness is measured by: the level of some decibels, and the reference of an envelope. */
  datatype Scale = Scale(lin: real -> real, reference: Envelope -> real)

  ghost predicate Monotone(lin: real -> real)
  {
    forall x, y :: x <= y ==> lin(x) <= lin(y)
  }

  function Least(a: int, b: int): int
  {
    if a <= b then a else b
  }

  function Greatest(a: int, b: int): int
  {
    if a >= b then a else b
  }

  // ------------------------------------------------------------------------- leads

  /** How far in the audio is already there but not yet loud; none where it is loud soon, and whether it is. */
  function LeadIn(env: Envelope, w: nat, l: Lead, lin: real -> real, ref: real): (int, bool)
  {
    if !l.on || env == [] then (0, false)
    else
      var content := FirstAt(env, lin(ref - l.contentDb));
      if content < 0 then (0, false)
      else if content * w < l.quickRampMs then (0, true)
      else
        var at := FirstAt(env, lin(ref - l.db));
        if at < 0 then (0, false) else (Least(at * w, l.maxMs), false)
  }

  function LeadOut(env: Envelope, w: nat, l: Lead, lin: real -> real, ref: real): (int, bool)
  {
    if !l.on || env == [] then (0, false)
    else
      var content := LastAt(env, lin(ref - l.contentDb));
      if content < 0 then (0, false)
      else if (|env| - content) * w < l.quickRampMs then (0, true)
      else
        var at := LastAt(env, lin(ref - l.db));
        if at < 0 then (0, false) else (Least((|env| - at) * w, l.maxMs), false)
  }

  lemma WindowsInOrder(i: int, j: int, w: nat)
    requires i <= j
    ensures i * w <= j * w
  {
  }

  /** Where the lead level is no higher than the content level, a lead-in ends no later than the content begins. */
  lemma LeadInBeforeContent(env: Envelope, w: nat, l: Lead, lin: real -> real, ref: real)
    requires Monotone(lin) && l.db >= l.contentDb
    ensures var content := FirstAt(env, lin(ref - l.contentDb));
      content >= 0 && l.maxMs >= 0 ==> LeadIn(env, w, l, lin, ref).0 <= content * w
  {
    var content, at := FirstAt(env, lin(ref - l.contentDb)), FirstAt(env, lin(ref - l.db));
    assert lin(ref - l.db) <= lin(ref - l.contentDb);
    if content >= 0 {
      WindowsInOrder(0, content, w);
      WindowsInOrder(at, content, w);
    }
  }

  /** And a lead-out begins no earlier than the content ends. */
  lemma LeadOutAfterContent(env: Envelope, w: nat, l: Lead, lin: real -> real, ref: real)
    requires Monotone(lin) && l.db >= l.contentDb
    ensures var content := LastAt(env, lin(ref - l.contentDb));
      content >= 0 && l.maxMs >= 0 ==> LeadOut(env, w, l, lin, ref).0 <= (|env| - content) * w
  {
    var content, at := LastAt(env, lin(ref - l.contentDb)), LastAt(env, lin(ref - l.db));
    assert lin(ref - l.db) <= lin(ref - l.contentDb);
    if content >= 0 {
      WindowsInOrder(0, |env| - content, w);
      WindowsInOrder(|env| - at, |env| - content, w);
    }
  }

  /** A lead-out is counted one window longer than the lead-in of the audio played backwards. */
  lemma LastAtMirrors(env: Envelope, level: real)
    ensures (FirstAt(Reversed(env), level) == -1 <==> LastAt(env, level) == -1)
    ensures FirstAt(Reversed(env), level) >= 0 ==> |env| - LastAt(env, level) == FirstAt(Reversed(env), level) + 1
  {
  }

  // --------------------------------------------------------------------- detecting

  datatype Found = Found(start: int, end: int, leadIn: int, leadOut: int, fadeIn: int, fadeOut: int)

  /** Where the search goes, and whether its ends are the file's own. */
  datatype Region = Region(lo: int, hi: int, loIsFileEdge: bool, hiIsFileEdge: bool)

  /** How many windows of sound it takes: ceil(ms / w), and at least one. */
  function RunLength(ms: nat, w: nat): (k: nat)
    requires w > 0
    ensures k > 0 && k * w >= ms && (k > 1 ==> (k - 1) * w < ms)
  {
    if ms == 0 then 1 else (ms + w - 1) / w
  }

  function StartOf(env: Envelope, s: Scale, g: Region, p: Params): int
    requires p.window > 0
  {
    if p.start.trim || !g.loIsFileEdge then
      var i := FirstRunOf(env, s.lin(s.reference(env) - p.start.silenceDb), RunLength(p.start.minSoundMs, p.window));
      if i >= 0 then Greatest(g.lo, g.lo + i * p.window - p.start.padMs) else g.lo
    else g.lo
  }

  function EndOf(env: Envelope, s: Scale, g: Region, p: Params): int
    requires p.window > 0
  {
    if p.end.trim || !g.hiIsFileEdge then
      var j := LastRunOf(env, s.lin(s.reference(env) - p.end.silenceDb), RunLength(p.end.minSoundMs, p.window));
      if j >= 0 then Least(g.hi, g.lo + (j + 1) * p.window + p.end.padMs) else g.hi
    else g.hi
  }

  /** Start and end: all of the region where they would cross. */
  function SpanOf(env: Envelope, s: Scale, g: Region, p: Params): (int, int)
    requires p.window > 0
  {
    var (a, b) := (StartOf(env, s, g, p), EndOf(env, s, g, p));
    if b <= a then (g.lo, g.hi) else (a, b)
  }

  function FadeMs(mode: FadeMode, fixed: int, lead: int): int
  {
    if mode == AsLead then Greatest(lead, fixed) else fixed
  }

  /** Every point at once; `audio` is the envelope of a stretch. */
  function Detected(audio: (int, int) -> Envelope, s: Scale, g: Region, p: Params): Found
    requires p.window > 0
  {
    var (a, b) := SpanOf(audio(g.lo, g.hi), s, g, p);
    var span := audio(a, b);
    var ref := s.reference(span);
    var length := b - a;
    var leadIn := Least(LeadIn(span, p.window, p.leadIn, s.lin, ref).0, length);
    var leadOut := Least(LeadOut(span, p.window, p.leadOut, s.lin, ref).0, length);
    Found(a, b, leadIn, leadOut,
          Least(FadeMs(p.fadeInMode, p.fadeInMs, leadIn), length),
          Least(FadeMs(p.fadeOutMode, p.fadeOutMs, leadOut), length))
  }

  method Detect(audio: (int, int) -> Envelope, s: Scale, g: Region, p: Params) returns (f: Found)
    requires p.window > 0
    ensures f == Detected(audio, s, g, p)
  {
    hide FirstRunOf;
    hide LastRunOf;
    hide LeadIn;
    hide LeadOut;
    hide RunLength;
    var w := p.window;
    var region := audio(g.lo, g.hi);
    var ref := s.reference(region);
    var start, end := g.lo, g.hi;
    if p.start.trim || !g.loIsFileEdge {
      var i := FirstRun(region, s.lin(ref - p.start.silenceDb), RunLength(p.start.minSoundMs, w));
      if i >= 0 {
        start := Greatest(g.lo, g.lo + i * w - p.start.padMs);
      }
    }
    if p.end.trim || !g.hiIsFileEdge {
      var j := LastRun(region, s.lin(ref - p.end.silenceDb), RunLength(p.end.minSoundMs, w));
      if j >= 0 {
        end := Least(g.hi, g.lo + (j + 1) * w + p.end.padMs);
      }
    }
    if end <= start {
      start, end := g.lo, g.hi;
    }
    var span := audio(start, end);
    var spanRef := s.reference(span);
    var length := end - start;
    var leadIn := Least(LeadIn(span, w, p.leadIn, s.lin, spanRef).0, length);
    var leadOut := Least(LeadOut(span, w, p.leadOut, s.lin, spanRef).0, length);
    f := Found(start, end, leadIn, leadOut,
               Least(FadeMs(p.fadeInMode, p.fadeInMs, leadIn), length),
               Least(FadeMs(p.fadeOutMode, p.fadeOutMs, leadOut), length));
  }

  /** The span lies in the region and is not empty; leads and fades fit it. Pads may be of any sign. */
  lemma SpanInRegion(audio: (int, int) -> Envelope, s: Scale, g: Region, p: Params)
    requires p.window > 0 && g.lo < g.hi
    ensures var f := Detected(audio, s, g, p);
      && g.lo <= f.start < f.end <= g.hi
      && f.leadIn <= f.end - f.start && f.leadOut <= f.end - f.start
      && f.fadeIn <= f.end - f.start && f.fadeOut <= f.end - f.start
  {
  }

  /** Nothing is negative where no parameter is. */
  lemma NothingNegative(audio: (int, int) -> Envelope, s: Scale, g: Region, p: Params)
    requires p.window > 0 && g.lo < g.hi
    requires p.leadIn.maxMs >= 0 && p.leadOut.maxMs >= 0 && p.fadeInMs >= 0 && p.fadeOutMs >= 0
    ensures var f := Detected(audio, s, g, p); f.leadIn >= 0 && f.leadOut >= 0 && f.fadeIn >= 0 && f.fadeOut >= 0
  {
    hide LeadIn;
    hide LeadOut;
    hide StartOf;
    hide EndOf;
    var f := Detected(audio, s, g, p);
    var span := audio(f.start, f.end);
    var ref := s.reference(span);
    LeadsNotNegative(span, p.window, p.leadIn, p.leadOut, s.lin, ref);
    SpanInRegion(audio, s, g, p);
  }

  lemma LeadsNotNegative(env: Envelope, w: nat, l: Lead, l': Lead, lin: real -> real, ref: real)
    requires l.maxMs >= 0 && l'.maxMs >= 0
    ensures LeadIn(env, w, l, lin, ref).0 >= 0 && LeadOut(env, w, l', lin, ref).0 >= 0
  {
    var at, last := FirstAt(env, lin(ref - l.db)), LastAt(env, lin(ref - l'.db));
    if at >= 0 {
      WindowsInOrder(0, at, w);
    }
    WindowsInOrder(0, |env| - last, w);
  }

  // ---------------------------------------------------------------- sound kept whole

  /** No run that starts a passage begins before this time. */
  ghost predicate NoneBefore(env: Envelope, s: Scale, g: Region, p: Params, time: int)
    requires p.window > 0
  {
    forall i :: RunAt(env, s.lin(s.reference(env) - p.start.silenceDb), i, RunLength(p.start.minSoundMs, p.window)) ==>
      g.lo + i * p.window >= time
  }

  /** When a run of k windows from number i on is over. */
  function RunEnds(g: Region, p: Params, i: int, k: nat): int
  {
    g.lo + (i + k) * p.window
  }

  /** No run that ends a passage ends after this time. */
  ghost predicate NoneAfter(env: Envelope, s: Scale, g: Region, p: Params, time: int)
    requires p.window > 0
  {
    var level, k := s.lin(s.reference(env) - p.end.silenceDb), RunLength(p.end.minSoundMs, p.window);
    forall i :: RunAt(env, level, i, k) ==> RunEnds(g, p, i, k) <= time
  }

  /** The start is searched for, and what is found is not given up because start and end would cross. */
  predicate StartTaken(env: Envelope, s: Scale, g: Region, p: Params)
    requires p.window > 0
  {
    (p.start.trim || !g.loIsFileEdge) && StartOf(env, s, g, p) < EndOf(env, s, g, p)
  }

  predicate EndTaken(env: Envelope, s: Scale, g: Region, p: Params)
    requires p.window > 0
  {
    (p.end.trim || !g.hiIsFileEdge) && StartOf(env, s, g, p) < EndOf(env, s, g, p)
  }

  /** The passage cuts into no sound at its start, exactly when there is none, or no negative pad is taken. */
  lemma StartKeepsSoundIff(audio: (int, int) -> Envelope, s: Scale, g: Region, p: Params)
    requires p.window > 0 && g.lo < g.hi
    ensures var env := audio(g.lo, g.hi);
      var k, level := RunLength(p.start.minSoundMs, p.window), s.lin(s.reference(env) - p.start.silenceDb);
      NoneBefore(env, s, g, p, Detected(audio, s, g, p).start)
      <==> FirstRunOf(env, level, k) == -1 || p.start.padMs >= 0 || !StartTaken(env, s, g, p)
  {
    hide LeadIn;
    hide LeadOut;
    hide EndOf;
    var env, start := audio(g.lo, g.hi), Detected(audio, s, g, p).start;
    var level, k := s.lin(s.reference(env) - p.start.silenceDb), RunLength(p.start.minSoundMs, p.window);
    var first := FirstRunOf(env, level, k);
    hide RunLength;
    forall i | RunAt(env, level, i, k) ensures first >= 0 && g.lo + i * p.window >= g.lo + first * p.window >= g.lo {
      WindowsInOrder(first, i, p.window);
      WindowsInOrder(0, first, p.window);
    }
    if first >= 0 {
      assert RunAt(env, level, first, k);
    }
  }

  /** And at its end; there the windows of the last sound must lie in the region as well. */
  lemma EndKeepsSoundIff(audio: (int, int) -> Envelope, s: Scale, g: Region, p: Params)
    requires p.window > 0 && g.lo < g.hi
    ensures var env := audio(g.lo, g.hi);
      var k, level := RunLength(p.end.minSoundMs, p.window), s.lin(s.reference(env) - p.end.silenceDb);
      var last := LastRunOf(env, level, k);
      NoneAfter(env, s, g, p, Detected(audio, s, g, p).end)
      <==> last == -1
           || (g.lo + (last + 1) * p.window <= g.hi && (p.end.padMs >= 0 || !EndTaken(env, s, g, p)))
  {
    hide LeadIn;
    hide LeadOut;
    hide StartOf;
    var env := audio(g.lo, g.hi);
    var level, k := s.lin(s.reference(env) - p.end.silenceDb), RunLength(p.end.minSoundMs, p.window);
    LastRunIsLast(env, level, k);
    var last := LastRunOf(env, level, k);
    hide RunLength;
    hide LastRunOf;
    forall i | RunAt(env, level, i, k) ensures last != -1 && RunEnds(g, p, i, k) <= g.lo + (last + 1) * p.window {
      WindowsInOrder(i + k, last + 1, p.window);
    }
    if last != -1 {
      assert RunAt(env, level, last - k + 1, k) && RunEnds(g, p, last - k + 1, k) == g.lo + (last + 1) * p.window;
    }
  }

  /** Ten loud windows of a tenth of a second. */
  ghost function Loud(): Envelope
  {
    seq(10, _ => 1.0)
  }

  /** Sound all through, and both ends trimmed by a pad. */
  ghost function PadBy(padMs: int): Params
  {
    Params(100, Edge(true, 100, 40.0, padMs), Edge(true, 100, 40.0, padMs),
           Lead(false, 45.0, 40.0, 1000, 10_000), Lead(false, 45.0, 40.0, 1000, 10_000), Fixed, 20, Fixed, 20)
  }

  /** A pad of -50 ms starts a passage within its sound and ends it there. */
  lemma NegativePadCuts(audio: (int, int) -> Envelope, s: Scale)
    requires audio(0, 1000) == Loud() && s.lin(s.reference(Loud()) - 40.0) == 0.5
    ensures var g, p := Region(0, 1000, true, true), PadBy(-50);
      && Detected(audio, s, g, p).start == 50 && Detected(audio, s, g, p).end == 950
      && !NoneBefore(Loud(), s, g, p, 50) && !NoneAfter(Loud(), s, g, p, 950)
  {
    var env, g, p := Loud(), Region(0, 1000, true, true), PadBy(-50);
    assert RunLength(100, 100) == 1 && RunAt(env, 0.5, 0, 1) && RunAt(env, 0.5, 9, 1);
    LastRunIsLast(env, 0.5, 1);
    assert FirstRunOf(env, 0.5, 1) == 0 && LastRunOf(env, 0.5, 1) == 9;
    assert RunEnds(g, p, 9, 1) == 1000;
  }

  // ------------------------------------------------------------ windows and samples

  /** A time's sample, rounded half up. */
  function ToSample(ms: int, t0: int, rate: nat): int
  {
    ((ms - t0) * rate * 2 + 1000) / 2000
  }

  /** How many whole windows of samples lie between two times of some audio. */
  function WindowsBetween(a: int, b: int, t0: int, rate: nat, w: nat, samples: nat): nat
  {
    var window := Greatest(1, rate * w / 1000);
    var (x, y) := (Greatest(0, ToSample(a, t0, rate)), Least(samples, ToSample(b, t0, rate)));
    if y > x then (y - x) / window else 0
  }

  /** Windows of a whole number of samples fit the region they are cut from, at more than 1000 samples a second. */
  lemma WindowsFit(a: int, b: int, t0: int, rate: nat, w: nat, samples: nat)
    requires t0 <= a <= b && rate > 1000 && w > 0 && rate * w % 1000 == 0
    ensures a + WindowsBetween(a, b, t0, rate, w, samples) * w <= b
  {
    var window := rate * w / 1000;
    var n := WindowsBetween(a, b, t0, rate, w, samples);
    var x, y := ToSample(a, t0, rate), ToSample(b, t0, rate);
    hide ToSample;
    assert rate * w == window * 1000;
    PositiveProduct(rate, w);
    SamplesApart(a, b, t0, rate);
    if n > 0 {
      WholeWindows(n, window, Least(samples, y) - x);
      FitsMs(n, w, b - a, rate, window, Least(samples, y) - x);
    }
  }

  /** The windows of every region, of any audio, end within it. */
  ghost predicate AlwaysFit(rate: nat, w: nat)
  {
    forall a, b, t0, samples {:trigger WindowsBetween(a, b, t0, rate, w, samples)} :: t0 <= a <= b ==>
      a + WindowsBetween(a, b, t0, rate, w, samples) * w <= b
  }

  /** At more than 1000 samples a second, windows fit every region exactly when they are whole numbers of samples. */
  lemma WindowsFitIff(rate: nat, w: nat)
    requires rate > 1000 && w > 0
    ensures AlwaysFit(rate, w) <==> rate * w % 1000 == 0
  {
    if rate * w % 1000 == 0 {
      forall a, b, t0, samples: nat | t0 <= a <= b ensures a + WindowsBetween(a, b, t0, rate, w, samples) * w <= b {
        WindowsFit(a, b, t0, rate, w, samples);
      }
    } else {
      WindowsDrift(rate, w);
    }
  }

  /** Windows of no whole number of samples run ahead of the clock: as many as there are samples a second end late. */
  lemma WindowsDrift(rate: nat, w: nat)
    requires rate > 1000 && w > 0 && rate * w % 1000 != 0
    ensures var window := rate * w / 1000;
      && WindowsBetween(0, 1000 * window, 0, rate, w, rate * window) == rate
      && rate * w > 1000 * window
  {
    var window := rate * w / 1000;
    AtLeastOneSample(rate, w);
    WholeSeconds(window, rate);
    hide ToSample;
    assert rate * window / window == rate by {
      Quotient(rate, window);
    }
    PositiveProduct(rate, window);
  }

  lemma AtLeastOneSample(rate: nat, w: nat)
    requires rate > 1000 && w > 0
    ensures rate * w / 1000 >= 1
  {
    WindowsInOrder(1, w, rate);
  }

  lemma WholeSeconds(seconds: nat, rate: nat)
    ensures ToSample(0, 0, rate) == 0 && ToSample(1000 * seconds, 0, rate) == rate * seconds
  {
    assert (1000 * seconds - 0) * rate * 2 == 2000 * (rate * seconds);
  }

  lemma Quotient(n: nat, d: nat)
    requires d > 0
    ensures n * d / d == n
  {
    var x := n * d;
    OnlyQuotient(x, n, d, x / d, x % d);
  }

  lemma OnlyQuotient(x: int, n: nat, d: nat, q: int, r: int)
    requires x == n * d && x == q * d + r && 0 <= r < d
    ensures q == n
  {
    if q < n {
      WindowsInOrder(q + 1, n, d);
      assert false;
    } else if n < q {
      WindowsInOrder(n + 1, q, d);
      assert false;
    }
  }

  /** At 44 100 samples a second, windows of 33 ms drift. */
  lemma DriftAtCdRate()
    ensures !AlwaysFit(44_100, 33)
  {
    WindowsFitIff(44_100, 33);
  }

  lemma PositiveProduct(a: nat, b: nat)
    requires a > 0 && b > 0
    ensures a * b > 0
  {
  }

  lemma SamplesApart(a: int, b: int, t0: int, rate: nat)
    requires t0 <= a <= b
    ensures ToSample(a, t0, rate) >= 0
    ensures (ToSample(b, t0, rate) - ToSample(a, t0, rate)) * 1000 < (b - a) * rate + 1000
  {
    var p, q := (a - t0) * rate, (b - t0) * rate;
    assert q - p == (b - a) * rate;
    assert p >= 0;
    assert ToSample(a, t0, rate) == (p * 2 + 1000) / 2000 && ToSample(b, t0, rate) == (q * 2 + 1000) / 2000;
  }

  lemma WholeWindows(n: nat, window: nat, apart: int)
    requires window > 0 && apart >= 0 && n <= apart / window
    ensures n * window <= apart
  {
    assert apart / window * window <= apart;
    WindowsInOrder(n, apart / window, window);
  }

  lemma FitsMs(n: nat, w: nat, ms: int, rate: nat, window: nat, apart: int)
    requires rate > 1000 && rate * w == window * 1000 && n * window <= apart
    requires apart * 1000 < ms * rate + 1000 && ms >= 0
    ensures n * w <= ms
  {
    assert n * w * rate == n * window * 1000 by {
      assert n * w * rate == n * (rate * w) == n * (window * 1000);
    }
    assert (ms + 1) * rate == ms * rate + rate;
    if n * w >= ms + 1 {
      WindowsInOrder(ms + 1, n * w, rate);
      assert false;
    }
  }
}
