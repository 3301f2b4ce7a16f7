/**
 What the boundary search of tools/analyze_amplitude.py finds, each point said of the audio's windows: the span,
 the leads and the fades.
 */
module BoundaryPoints {
  import opened BoundaryDetect

  ghost predicate IsMin(x: int, a: int, b: int)
  {
    x <= a && x <= b && (x == a || x == b)
  }

  ghost predicate IsMax(x: int, a: int, b: int)
  {
    x >= a && x >= b && (x == a || x == b)
  }

  // ----------------------------------------------------------------------- leads

  /** Every window is below the level. */
  ghost predicate Still(env: Envelope, level: real)
  {
    forall i :: 0 <= i < |env| ==> env[i] < level
  }

  ghost predicate FirstLoud(env: Envelope, level: real, i: int)
  {
    0 <= i < |env| && env[i] >= level && forall j :: 0 <= j < i ==> env[j] < level
  }

  ghost predicate LastLoud(env: Envelope, level: real, i: int)
  {
    0 <= i < |env| && env[i] >= level && forall j :: i < j < |env| ==> env[j] < level
  }

  /**
   The lead-in reaches to the first window at the lead level, up to its longest; there is none where leads are off
   or the audio nowhere has its content level, and none, the ramp being quick, where it has that level soon.
   */
  ghost predicate LeadInIs(env: Envelope, w: nat, l: Lead, lin: real -> real, ref: real, ms: int, quick: bool)
  {
    var content, low := lin(ref - l.contentDb), lin(ref - l.db);
    if !l.on || Still(env, content) then ms == 0 && !quick
    else
      exists c :: FirstLoud(env, content, c)
        && if c * w < l.quickRampMs then ms == 0 && quick
           else
             !quick && if Still(env, low) then ms == 0
                       else exists a :: FirstLoud(env, low, a) && IsMin(ms, a * w, l.maxMs)
  }

  /** The same from the end, where a window counts from its own start. */
  ghost predicate LeadOutIs(env: Envelope, w: nat, l: Lead, lin: real -> real, ref: real, ms: int, quick: bool)
  {
    var content, low := lin(ref - l.contentDb), lin(ref - l.db);
    if !l.on || Still(env, content) then ms == 0 && !quick
    else
      exists c :: LastLoud(env, content, c)
        && if (|env| - c) * w < l.quickRampMs then ms == 0 && quick
           else
             !quick && if Still(env, low) then ms == 0
                       else exists a :: LastLoud(env, low, a) && IsMin(ms, (|env| - a) * w, l.maxMs)
  }

  lemma FirstAtIs(env: Envelope, level: real)
    ensures FirstAt(env, level) == -1 <==> Still(env, level)
    ensures FirstAt(env, level) != -1 ==> FirstLoud(env, level, FirstAt(env, level))
  {
    var i := FirstAt(env, level);
    forall j | 0 <= j < |env| && (i == -1 || j < i) ensures env[j] < level {
      assert !RunAt(env, level, j, 1);
    }
    if i != -1 {
      assert RunAt(env, level, i, 1);
    }
  }

  lemma LastAtIs(env: Envelope, level: real)
    ensures LastAt(env, level) == -1 <==> Still(env, level)
    ensures LastAt(env, level) != -1 ==> LastLoud(env, level, LastAt(env, level))
  {
    var i := LastAt(env, level);
    LastRunIsLast(env, level, 1);
    assert IsLastRun(env, level, 1, i);
    forall j | 0 <= j < |env| && (i == -1 || j > i) ensures env[j] < level {
      assert !RunAt(env, level, j, 1);
    }
    if i != -1 {
      assert RunAt(env, level, i, 1);
    }
  }

  lemma LeadInFound(env: Envelope, w: nat, l: Lead, lin: real -> real, ref: real)
    ensures LeadInIs(env, w, l, lin, ref, LeadIn(env, w, l, lin, ref).0, LeadIn(env, w, l, lin, ref).1)
  {
    FirstAtIs(env, lin(ref - l.contentDb));
    FirstAtIs(env, lin(ref - l.db));
    hide FirstAt;
  }

  lemma LeadOutFound(env: Envelope, w: nat, l: Lead, lin: real -> real, ref: real)
    ensures LeadOutIs(env, w, l, lin, ref, LeadOut(env, w, l, lin, ref).0, LeadOut(env, w, l, lin, ref).1)
  {
    LastAtIs(env, lin(ref - l.contentDb));
    LastAtIs(env, lin(ref - l.db));
    hide LastAt;
  }

  // ------------------------------------------------------------------------ span

  /** k is the least number of windows, and at least one, that last ms. */
  ghost predicate IsCount(k: nat, ms: nat, w: nat)
  {
    k >= 1 && k * w >= ms && (k == 1 || (k - 1) * w < ms)
  }

  /** k windows from i on are all at the level. */
  ghost predicate Sounds(env: Envelope, level: real, i: int, k: nat)
  {
    0 <= i && i + k <= |env| && forall j :: i <= j < i + k ==> env[j] >= level
  }

  ghost predicate NoneSounds(env: Envelope, level: real, k: nat)
  {
    forall i :: !Sounds(env, level, i, k)
  }

  ghost predicate FirstSounds(env: Envelope, level: real, i: int, k: nat)
  {
    Sounds(env, level, i, k) && forall j :: j < i ==> !Sounds(env, level, j, k)
  }

  ghost predicate LastSounds(env: Envelope, level: real, i: int, k: nat)
  {
    Sounds(env, level, i, k) && forall j :: j > i ==> !Sounds(env, level, j, k)
  }

  /** The start: of the first run of sound, less its pad, but within the region; its edge where none is looked for. */
  ghost predicate StartIs(env: Envelope, s: Scale, g: Region, p: Params, t: int)
  {
    exists k: nat :: IsCount(k, p.start.minSoundMs, p.window)
      && var level := s.lin(s.reference(env) - p.start.silenceDb);
         if (!p.start.trim && g.loIsFileEdge) || NoneSounds(env, level, k) then t == g.lo
         else exists i :: FirstSounds(env, level, i, k) && IsMax(t, g.lo, g.lo + i * p.window - p.start.padMs)
  }

  /** The end: of the last run of sound, with its pad, but within the region; its edge where none is looked for. */
  ghost predicate EndIs(env: Envelope, s: Scale, g: Region, p: Params, t: int)
  {
    exists k: nat :: IsCount(k, p.end.minSoundMs, p.window)
      && var level := s.lin(s.reference(env) - p.end.silenceDb);
         if (!p.end.trim && g.hiIsFileEdge) || NoneSounds(env, level, k) then t == g.hi
         else exists i :: LastSounds(env, level, i, k) && IsMin(t, g.hi, g.lo + (i + k) * p.window + p.end.padMs)
  }

  lemma SoundsIsRun(env: Envelope, level: real, k: nat)
    ensures forall i :: Sounds(env, level, i, k) <==> RunAt(env, level, i, k)
  {
  }

  lemma FirstRunSounds(env: Envelope, level: real, k: nat)
    ensures FirstRunOf(env, level, k) == -1 <==> NoneSounds(env, level, k)
    ensures FirstRunOf(env, level, k) != -1 ==> FirstSounds(env, level, FirstRunOf(env, level, k), k)
    ensures FirstRunOf(env, level, k) >= -1
  {
    SoundsIsRun(env, level, k);
    hide Sounds;
    NoRunBefore(env, level, k);
    hide RunAt;
  }

  lemma NoRunBefore(env: Envelope, level: real, k: nat)
    ensures forall j :: j < 0 ==> !RunAt(env, level, j, k)
  {
  }

  lemma StartFound(env: Envelope, s: Scale, g: Region, p: Params)
    requires p.window > 0
    ensures StartIs(env, s, g, p, StartOf(env, s, g, p))
  {
    var k, level := RunLength(p.start.minSoundMs, p.window), s.lin(s.reference(env) - p.start.silenceDb);
    FirstRunSounds(env, level, k);
    CountIs(p.start.minSoundMs, p.window);
    hide FirstRunOf;
    hide RunLength;
    hide FirstSounds;
    hide NoneSounds;
    hide IsCount;
    var i := FirstRunOf(env, level, k);
    if i >= 0 && (p.start.trim || !g.loIsFileEdge) {
      assert IsMax(StartOf(env, s, g, p), g.lo, g.lo + i * p.window - p.start.padMs);
    }
  }

  /** The last run's own first window. */
  lemma LastRunSounds(env: Envelope, level: real, k: nat)
    requires k > 0
    ensures LastRunOf(env, level, k) == -1 <==> NoneSounds(env, level, k)
    ensures LastRunOf(env, level, k) != -1 ==> LastSounds(env, level, LastRunOf(env, level, k) - k + 1, k)
    ensures LastRunOf(env, level, k) >= -1
  {
    SoundsIsRun(env, level, k);
    LastRunIsLast(env, level, k);
    var j := LastRunOf(env, level, k);
    assert IsLastRun(env, level, k, j);
    hide LastRunOf;
    hide Sounds;
    if j != -1 {
      assert RunAt(env, level, j - k + 1, k);
    }
  }

  lemma EndFound(env: Envelope, s: Scale, g: Region, p: Params)
    requires p.window > 0
    ensures EndIs(env, s, g, p, EndOf(env, s, g, p))
  {
    var k, level := RunLength(p.end.minSoundMs, p.window), s.lin(s.reference(env) - p.end.silenceDb);
    LastRunSounds(env, level, k);
    CountIs(p.end.minSoundMs, p.window);
    hide LastRunOf;
    hide RunLength;
    hide LastSounds;
    hide NoneSounds;
    hide IsCount;
    var j := LastRunOf(env, level, k);
    var i := j - k + 1;
    SameEnd(i, j, k, p.window);
    if j >= 0 && (p.end.trim || !g.hiIsFileEdge) {
      assert IsMin(EndOf(env, s, g, p), g.hi, g.lo + (i + k) * p.window + p.end.padMs);
    }
  }

  lemma SameEnd(i: int, j: int, k: nat, w: nat)
    requires i == j - k + 1
    ensures (i + k) * w == (j + 1) * w
  {
    assert i + k == j + 1;
  }

  lemma CountIs(ms: nat, w: nat)
    requires w > 0
    ensures IsCount(RunLength(ms, w), ms, w)
  {
  }

  // ------------------------------------------------------------------- every point

  /** A fade is its own length, or the lead's where that is longer and fades go by leads. */
  ghost predicate FadeIs(mode: FadeMode, fixed: int, lead: int, length: int, fade: int)
  {
    exists m :: IsMin(fade, m, length) && if mode == AsLead then IsMax(m, lead, fixed) else m == fixed
  }

  /** Start and end, or all of the region where they would cross. */
  ghost predicate SpanIs(env: Envelope, s: Scale, g: Region, p: Params, start: int, end: int)
  {
    exists a, b :: StartIs(env, s, g, p, a) && EndIs(env, s, g, p, b)
                   && if a < b then start == a && end == b else start == g.lo && end == g.hi
  }

  ghost predicate LeadInTaken(span: Envelope, s: Scale, p: Params, length: int, leadIn: int)
  {
    exists m, quick ::
      LeadInIs(span, p.window, p.leadIn, s.lin, s.reference(span), m, quick) && IsMin(leadIn, m, length)
  }

  ghost predicate LeadOutTaken(span: Envelope, s: Scale, p: Params, length: int, leadOut: int)
  {
    exists m, quick ::
      LeadOutIs(span, p.window, p.leadOut, s.lin, s.reference(span), m, quick) && IsMin(leadOut, m, length)
  }

  /** The points of a region, each as it should be found. */
  ghost predicate PointsAre(audio: (int, int) -> Envelope, s: Scale, g: Region, p: Params, f: Found)
  {
    var region, span, length := audio(g.lo, g.hi), audio(f.start, f.end), f.end - f.start;
    && SpanIs(region, s, g, p, f.start, f.end)
    && LeadInTaken(span, s, p, length, f.leadIn) && LeadOutTaken(span, s, p, length, f.leadOut)
    && FadeIs(p.fadeInMode, p.fadeInMs, f.leadIn, length, f.fadeIn)
    && FadeIs(p.fadeOutMode, p.fadeOutMs, f.leadOut, length, f.fadeOut)
  }

  lemma FadeFound(mode: FadeMode, fixed: int, lead: int, length: int)
    ensures FadeIs(mode, fixed, lead, length, Least(FadeMs(mode, fixed, lead), length))
  {
    var m := FadeMs(mode, fixed, lead);
    assert IsMin(Least(m, length), m, length);
  }

  lemma SpanFound(env: Envelope, s: Scale, g: Region, p: Params)
    requires p.window > 0
    ensures var (a, b) := SpanOf(env, s, g, p); SpanIs(env, s, g, p, a, b)
  {
    StartFound(env, s, g, p);
    EndFound(env, s, g, p);
    hide StartIs;
    hide EndIs;
    hide StartOf;
    hide EndOf;
  }

  lemma LeadsFound(span: Envelope, s: Scale, p: Params, length: int)
    ensures var ref := s.reference(span);
      && LeadInTaken(span, s, p, length, Least(LeadIn(span, p.window, p.leadIn, s.lin, ref).0, length))
      && LeadOutTaken(span, s, p, length, Least(LeadOut(span, p.window, p.leadOut, s.lin, ref).0, length))
  {
    LeadInFound(span, p.window, p.leadIn, s.lin, s.reference(span));
    LeadOutFound(span, p.window, p.leadOut, s.lin, s.reference(span));
    hide LeadInIs;
    hide LeadOutIs;
    hide LeadIn;
    hide LeadOut;
  }

  /** The search finds every point as it should be. */
  lemma PointsFound(audio: (int, int) -> Envelope, s: Scale, g: Region, p: Params)
    requires p.window > 0
    ensures PointsAre(audio, s, g, p, Detected(audio, s, g, p))
  {
    hide SpanIs;
    hide SpanOf;
    hide LeadInTaken;
    hide LeadOutTaken;
    hide LeadIn;
    hide LeadOut;
    hide FadeIs;
    hide FadeMs;
    hide Least;
    var f := Detected(audio, s, g, p);
    var length := f.end - f.start;
    SpanFound(audio(g.lo, g.hi), s, g, p);
    LeadsFound(audio(f.start, f.end), s, p, length);
    FadeFound(p.fadeInMode, p.fadeInMs, f.leadIn, length);
    FadeFound(p.fadeOutMode, p.fadeOutMs, f.leadOut, length);
  }
}
