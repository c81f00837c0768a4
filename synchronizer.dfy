/**
 * The audio/phoneme timeline synchroniser of `main.js`: one animation-frame
 * tick (`renderFrame`) samples the audio clock, finds the active timing
 * window, fades to neutral when a window disappears or playback stops, and
 * starts the animator when the joined symbol key changes. The clock position
 * and the playing flag are inputs; the effects are returned as an action.
 */
module Synchronizer {
  import opened Wrappers
  import opened Tables
  import opened PhonemeConversion
  import opened PhonemeAnimator

  /** A timing-table timestamp as compared with the clock: multiplied by ten. */
  function Scale(t: real): real { t * 10.0 }

  /** One entry of the timing table: a window and its space-separated phoneme symbols. */
  datatype TimingWindow = TimingWindow(start: real, end: real, phoneme: string)

  predicate Contains(w: TimingWindow, p: real) {
    p >= Scale(w.start) && p <= Scale(w.end)
  }

  /** The index of the first window at or after `from` that contains `p`. */
  function FirstActiveFrom(table: seq<TimingWindow>, p: real, from: nat): (r: Option<nat>)
    requires from <= |table|
    ensures r.None? <==> forall j :: from <= j < |table| ==> !Contains(table[j], p)
    ensures r.Some? ==> (from <= r.value < |table| && Contains(table[r.value], p)
      && forall j :: from <= j < r.value ==> !Contains(table[j], p))
    decreases |table| - from
  {
    if from == |table| then None
    else if Contains(table[from], p) then Some(from)
    else FirstActiveFrom(table, p, from + 1)
  }

  /** The active window: the first one, in table order, whose scaled span contains `p`. */
  function FirstActive(table: seq<TimingWindow>, p: real): (r: Option<nat>)
    ensures r.None? <==> forall j :: 0 <= j < |table| ==> !Contains(table[j], p)
    ensures r.Some? ==> (r.value < |table| && Contains(table[r.value], p)
      && forall j :: 0 <= j < r.value ==> !Contains(table[j], p))
  {
    FirstActiveFrom(table, p, 0)
  }

  /** The scan of `renderFrame`: the first window containing the position, with an early exit. */
  method FindActiveWindow(table: seq<TimingWindow>, p: real) returns (found: Option<nat>)
    ensures found == FirstActive(table, p)
  {
    found := None;
    for i := 0 to |table|
      invariant found.None? ==> forall j :: 0 <= j < i ==> !Contains(table[j], p)
      invariant found == None
    {
      var wordData := table[i];
      if p >= Scale(wordData.start) && p <= Scale(wordData.end) {
        found := Some(i);
        break;
      }
    }
  }

  /** The active window's symbol key, the value `lastPhoneme` is compared against; `None` when no window is active. */
  function KeyAt(table: seq<TimingWindow>, p: real): Option<string> {
    match ActiveWindow(table, p)
    case None => None
    case Some(w) => Some(w.phoneme)
  }

  /** The active window itself. */
  function ActiveWindow(table: seq<TimingWindow>, p: real): (r: Option<TimingWindow>)
    ensures r.None? <==> FirstActive(table, p).None?
    ensures r.Some? ==> r.value == table[FirstActive(table, p).value] && Contains(r.value, p)
  {
    match FirstActive(table, p)
    case None => None
    case Some(k) => Some(table[k])
  }

  // ---------------------------------------------------------------------------
  // Splitting and joining on a single space, with the semantics of JavaScript's
  // `String.prototype.split(" ")` and `Array.prototype.join(" ")`.
  // ---------------------------------------------------------------------------

  /** The pieces between spaces; an empty string and every pair of adjacent spaces give an empty piece. */
  function Split(s: string): (parts: seq<string>)
    ensures |parts| >= 1
    ensures forall i :: 0 <= i < |parts| ==> ' ' !in parts[i]
  {
    if s == [] then [""]
    else
      var rest := Split(s[1..]);
      if s[0] == ' ' then [""] + rest
      else [[s[0]] + rest[0]] + rest[1..]
  }

  function Join(parts: seq<string>): string {
    if |parts| == 0 then ""
    else if |parts| == 1 then parts[0]
    else parts[0] + " " + Join(parts[1..])
  }

  /** Joining the pieces restores the original string, so the joined key of a window is its phoneme text. */
  lemma {:induction false} JoinSplit(s: string)
    ensures Join(Split(s)) == s
  {
    if s != [] {
      var rest := Split(s[1..]);
      JoinSplit(s[1..]);
      if s[0] == ' ' {
        assert Split(s) == [""] + rest;
        assert (Split(s))[1..] == rest;
        assert Join(Split(s)) == "" + " " + Join(rest);
      } else if |rest| == 1 {
        assert Split(s) == [[s[0]] + rest[0]];
        assert Join(rest) == rest[0];
      } else {
        assert Split(s) == [[s[0]] + rest[0]] + rest[1..];
        assert (Split(s))[1..] == rest[1..];
        assert Join(rest) == rest[0] + " " + Join(rest[1..]);
        assert Join(Split(s)) == [s[0]] + rest[0] + " " + Join(rest[1..]);
      }
    }
  }

  /** Splitting the join of space-free pieces gives the pieces back. */
  lemma {:induction false} SplitJoin(parts: seq<string>)
    requires |parts| >= 1
    requires forall i :: 0 <= i < |parts| ==> ' ' !in parts[i]
    ensures Split(Join(parts)) == parts
  {
    if |parts| == 1 {
      SplitWord(parts[0], []);
      assert parts[0] + [] == parts[0] && Join(parts) == parts[0];
      assert [parts[0] + ""] + [] == parts;
    } else {
      SplitJoin(parts[1..]);
      assert Join(parts) == parts[0] + (" " + Join(parts[1..]));
      SplitWord(parts[0], " " + Join(parts[1..]));
      assert Split(" " + Join(parts[1..])) == [""] + parts[1..] by {
        assert (" " + Join(parts[1..]))[1..] == Join(parts[1..]);
      }
      assert parts[0] + "" == parts[0];
      assert [parts[0]] + parts[1..] == parts;
    }
  }

  /** A space-free prefix is absorbed into the first piece of what follows it. */
  lemma {:induction false} SplitWord(w: string, tail: string)
    requires ' ' !in w
    ensures Split(w + tail) == [w + Split(tail)[0]] + Split(tail)[1..]
  {
    if w != [] {
      SplitWord(w[1..], tail);
      assert (w + tail)[0] == w[0];
      assert (w + tail)[1..] == w[1..] + tail;
      assert [w[0]] + (w[1..] + Split(tail)[0]) == w + Split(tail)[0];
    } else {
      assert w + tail == tail;
      assert w + Split(tail)[0] == Split(tail)[0];
      assert [Split(tail)[0]] + Split(tail)[1..] == Split(tail);
    }
  }

  /** A string without spaces is a single symbol. */
  lemma SplitSingle(w: string)
    requires ' ' !in w
    ensures Split(w) == [w]
  {
    SplitWord(w, "");
    assert w + "" == w;
  }

  // ---------------------------------------------------------------------------
  // Progress through the active window.
  // ---------------------------------------------------------------------------

  /** A JavaScript number as far as progress needs it: `0/0` and anything computed from it is NaN. */
  datatype Progress = Value(v: real) | NaN

  function MinReal(a: real, b: real): real { if a <= b then a else b }
  function MaxReal(a: real, b: real): real { if a >= b then a else b }

  /**
   * The smoothed progress of a tick: the raw fraction of the window elapsed, held
   * to at least 85% of the previous progress and capped at 1. A zero-length
   * window gives `0/0`, and NaN propagates through `Math.max` and `Math.min`.
   */
  function ProgressOf(p: real, cs: real, ce: real, last: Progress): (r: Progress)
    requires cs <= p <= ce
    ensures r.NaN? <==> cs == ce || last.NaN?
  {
    if cs == ce || last.NaN? then NaN
    else Value(MinReal(MaxReal((p - cs) / (ce - cs), last.v * 0.85), 1.0))
  }

  /** The raw fraction of a non-empty window lies in [0, 1]. */
  lemma FractionInUnit(a: real, b: real)
    requires 0.0 <= a <= b && 0.0 < b
    ensures 0.0 <= a / b <= 1.0
  {
    var q := a / b;
    assert q * b == a;
  }

  /**
   * Smoothed progress is never below the raw fraction, never above 1, never
   * below 85% of the previous progress (or 1), and always one of the three
   * candidates; it stays in [0, 1] when the previous value did.
   */
  lemma ProgressBounds(p: real, cs: real, ce: real, last: Progress)
    requires cs <= p <= ce
    ensures var r := ProgressOf(p, cs, ce, last);
      r.Value? ==> ((p - cs) / (ce - cs) <= r.v <= 1.0 && r.v >= MinReal(last.v * 0.85, 1.0)
        && (r.v == (p - cs) / (ce - cs) || r.v == last.v * 0.85 || r.v == 1.0))
    ensures cs < ce && last.Value? && 0.0 <= last.v <= 1.0 ==>
      ProgressOf(p, cs, ce, last).Value? && 0.0 <= ProgressOf(p, cs, ce, last).v <= 1.0
  {
    if cs < ce {
      FractionInUnit(p - cs, ce - cs);
    }
  }

  /** Once NaN, the session's progress stays NaN: every later value is computed from it. */
  lemma NaNSticky(p: real, cs: real, ce: real)
    requires cs <= p <= ce
    ensures ProgressOf(p, cs, ce, NaN) == NaN
  {
  }

  // ---------------------------------------------------------------------------
  // One tick of the render loop.
  // ---------------------------------------------------------------------------

  /** What a tick asks of the rest of the program in reaction to the active window. */
  datatype Action = NoOp | FadeOut | Animate(visemes: seq<Viseme>, duration: real)

  /** Whether the loop schedules another frame, or fades to neutral and ends. */
  datatype Control = Continue | Stop

  /** The closure variables `lastPhoneme`, `lastTimestamp` and `lastProgress`. */
  datatype SessionState = SessionState(lastPhoneme: Option<string>, lastTimestamp: real, lastProgress: Progress)

  const Initial: SessionState := SessionState(None, 0.0, Value(0.0))

  datatype Reaction = Reaction(state: SessionState, action: Action)

  datatype Outcome = Outcome(state: SessionState, action: Action, control: Control)

  /** The duration handed to the animator for each symbol of a window. */
  function PhonemeDuration(w: TimingWindow): real {
    PerSymbol(Scale(w.start), Scale(w.end), |Split(w.phoneme)|)
  }

  /**
   * A window's length shared equally among its `count` symbols: the arithmetic
   * of `phonemeDuration` on the loop's `currentStart`/`currentEnd`. `Tick`
   * computes it from those locals, `React` through `PhonemeDuration` from the
   * window, and both name this one function so that they agree by definition.
   */
  function PerSymbol(currentStart: real, currentEnd: real, count: nat): real
    requires count >= 1
  {
    (currentEnd - currentStart) / count as real
  }

  /**
   * The reaction of a tick to the position `p` while audio plays: fade out when
   * the active window disappears, and when its key changes record it and start
   * the animator unless the window ends exactly at `p`.
   */
  function React(table: seq<TimingWindow>, s: SessionState, p: real): (r: Reaction)
    ensures r.state.lastPhoneme == KeyAt(table, p)
    ensures s.lastPhoneme == KeyAt(table, p) ==> r == Reaction(s, NoOp)
    ensures r.action.FadeOut? <==> KeyAt(table, p).None? && s.lastPhoneme.Some?
    ensures KeyAt(table, p).None? ==> r.state == s.(lastPhoneme := None)
    ensures r.action.Animate? ==> ActiveWindow(table, p).Some?
  {
    match ActiveWindow(table, p)
    case None =>
      if s.lastPhoneme.Some? then Reaction(s.(lastPhoneme := None), FadeOut) else Reaction(s, NoOp)
    case Some(w) =>
      var symbols := Split(w.phoneme);
      var cs := Scale(w.start);
      var ce := Scale(w.end);
      var key := Join(symbols);
      JoinSplit(w.phoneme);
      if s.lastPhoneme != Some(key) then
        var next := SessionState(Some(key), p, ProgressOf(p, cs, ce, s.lastProgress));
        if ce > p then Reaction(next, Animate(ConvertPhonemes(symbols), PhonemeDuration(w)))
        else Reaction(next, NoOp)
      else Reaction(s, NoOp)
  }

  /**
   * When the key changes to that of an active window, the session records the
   * key, the position and the smoothed progress, and the animator is asked for
   * the window's visemes at the per-symbol duration unless the window ends at `p`.
   */
  lemma ReactOnNewKey(table: seq<TimingWindow>, s: SessionState, p: real)
    requires ActiveWindow(table, p).Some? && s.lastPhoneme != KeyAt(table, p)
    ensures var w := ActiveWindow(table, p).value; var r := React(table, s, p);
      r.state == SessionState(Some(w.phoneme), p, ProgressOf(p, Scale(w.start), Scale(w.end), s.lastProgress))
      && (r.action.Animate? <==> p < Scale(w.end))
      && (r.action.Animate? ==>
            r.action.visemes == ConvertPhonemes(Split(w.phoneme)) && r.action.duration == PhonemeDuration(w))
  {
  }

  /**
   * One `renderFrame` call. `playing` is the audio state sampled on entry and
   * `stillPlaying` the one sampled after rendering; either being false ends the
   * loop with a fade to neutral.
   */
  function Step(table: seq<TimingWindow>, s: SessionState, p: real, playing: bool, stillPlaying: bool): (o: Outcome)
    ensures o.control == (if playing && stillPlaying then Continue else Stop)
    ensures !playing ==> o.state == s && o.action == NoOp
    ensures playing ==> Reaction(o.state, o.action) == React(table, s, p)
  {
    if !playing then Outcome(s, NoOp, Stop)
    else
      var r := React(table, s, p);
      Outcome(r.state, r.action, if stillPlaying then Continue else Stop)
  }

  /** Ticking twice at the same position: the second tick changes nothing and asks for nothing. */
  lemma ReactIdempotent(table: seq<TimingWindow>, s: SessionState, p: real)
    ensures var r := React(table, s, p); React(table, r.state, p) == Reaction(r.state, NoOp)
  {
  }

  /** The actions of consecutive ticks at positions `ps` while audio plays. */
  function Ticks(table: seq<TimingWindow>, s: SessionState, ps: seq<real>): (acts: seq<Action>)
    ensures |acts| == |ps|
    decreases |ps|
  {
    if ps == [] then [] else
      var r := React(table, s, ps[0]);
      [r.action] + Ticks(table, r.state, ps[1..])
  }

  /** Indexing into a sequence with one element put in front. */
  lemma ConsAt<T>(x: T, xs: seq<T>, i: nat)
    requires i <= |xs|
    ensures ([x] + xs)[i] == if i == 0 then x else xs[i - 1]
  {
  }

  /**
   * A tick asks for something only when the active window's key differs from
   * the one seen at the previous tick (or from the session's key, for the
   * first tick): fading out and animating happen once per change of key.
   */
  lemma {:induction false} ActionsOnlyOnKeyChange(table: seq<TimingWindow>, s: SessionState, ps: seq<real>, i: nat)
    requires i < |ps|
    ensures Ticks(table, s, ps)[i] != NoOp ==>
      (if i == 0 then s.lastPhoneme else KeyAt(table, ps[i - 1])) != KeyAt(table, ps[i])
    decreases i
  {
    var r := React(table, s, ps[0]);
    var rest := Ticks(table, r.state, ps[1..]);
    assert Ticks(table, s, ps) == [r.action] + rest;
    ConsAt(r.action, rest, i);
    if i > 0 {
      ActionsOnlyOnKeyChange(table, r.state, ps[1..], i - 1);
      assert ps[1..][i - 1] == ps[i];
      if i == 1 {
        assert r.state.lastPhoneme == KeyAt(table, ps[0]);
      } else {
        assert ps[1..][i - 2] == ps[i - 1];
      }
    }
  }

  /** While every position keeps the session's key, ticks ask for nothing and the key is kept. */
  lemma {:induction false} QuietWhileKeyHeld(table: seq<TimingWindow>, s: SessionState, ps: seq<real>)
    requires forall i :: 0 <= i < |ps| ==> KeyAt(table, ps[i]) == s.lastPhoneme
    ensures forall i :: 0 <= i < |ps| ==> Ticks(table, s, ps)[i] == NoOp
  {
    if ps != [] {
      var r := React(table, s, ps[0]);
      assert r == Reaction(s, NoOp);
      QuietWhileKeyHeld(table, s, ps[1..]);
      assert forall i :: 1 <= i < |ps| ==> Ticks(table, s, ps)[i] == Ticks(table, s, ps[1..])[i - 1];
    }
  }

  /**
   * Whatever the timing data, an animation request names at least one viseme,
   * every one of which has its own animation entry, and has a positive duration
   * per symbol, so the division by the symbol count never sees zero.
   */
  lemma AnimateWellFormed(table: seq<TimingWindow>, s: SessionState, p: real)
    ensures var r := React(table, s, p);
      r.action.Animate? ==>
        (|r.action.visemes| >= 1 && r.action.duration > 0.0
         && forall i :: 0 <= i < |r.action.visemes| ==> HasKey(PhonemeAnimations, r.action.visemes[i].Name()))
  {
    var r := React(table, s, p);
    if r.action.Animate? {
      var w := ActiveWindow(table, p).value;
      ReactOnNewKey(table, s, p);
      PhonemeDurationPositive(w, p);
      forall i | 0 <= i < |r.action.visemes|
        ensures HasKey(PhonemeAnimations, r.action.visemes[i].Name())
      {
        VisemeHasEntry(r.action.visemes[i]);
      }
    }
  }

  lemma PhonemeDurationPositive(w: TimingWindow, p: real)
    requires Scale(w.start) <= p < Scale(w.end)
    ensures PhonemeDuration(w) > 0.0
  {
    PositiveQuotient(Scale(w.end) - Scale(w.start), |Split(w.phoneme)| as real);
  }

  lemma PositiveQuotient(a: real, b: real)
    requires a > 0.0 && b >= 1.0
    ensures a / b > 0.0
  {
    assert (a / b) * b == a;
  }

  /** The session of one audio playback: the timing table and the closure variables `renderFrame` updates. */
  class Session {
    const table: seq<TimingWindow>
    var lastPhoneme: Option<string>
    var lastTimestamp: real
    var lastProgress: Progress

    function State(): SessionState
      reads this
    {
      SessionState(lastPhoneme, lastTimestamp, lastProgress)
    }

    constructor (table: seq<TimingWindow>)
      ensures this.table == table && State() == Initial
    {
      this.table := table;
      lastPhoneme := None;
      lastTimestamp := 0.0;
      lastProgress := Value(0.0);
    }

    /** The body of `renderFrame` apart from rendering and the effects, which it returns. */
    method Tick(p: real, playing: bool, stillPlaying: bool) returns (action: Action, control: Control)
      modifies this
      ensures Outcome(State(), action, control) == Step(table, old(State()), p, playing, stillPlaying)
    {
      if !playing {
        return NoOp, Stop;
      }
      ghost var s0 := State();
      var found := FindActiveWindow(table, p);
      var currentPhoneme: Option<seq<string>> := None;
      var currentStart, currentEnd := 0.0, 0.0;
      if found.Some? {
        var wordData := table[found.value];
        currentPhoneme := Some(Split(wordData.phoneme));
        currentStart := Scale(wordData.start);
        currentEnd := Scale(wordData.end);
        assert ActiveWindow(table, p) == Some(wordData);
        JoinSplit(wordData.phoneme);
      }
      action := NoOp;
      if currentPhoneme.None? || p > currentEnd {
        if lastPhoneme.Some? {
          action := FadeOut;
          lastPhoneme := None;
        }
        currentPhoneme := None;
        assert Reaction(State(), action) == React(table, s0, p);
      }
      assert currentPhoneme.Some? ==>
        found.Some? && currentPhoneme.value == Split(table[found.value].phoneme)
        && currentStart == Scale(table[found.value].start) && currentEnd == Scale(table[found.value].end)
        && currentStart <= p <= currentEnd && lastPhoneme == s0.lastPhoneme;
      if currentPhoneme.Some? {
        var symbols := currentPhoneme.value;
        var animatablePhonemes := ConvertPhonemes(symbols);
        var progress := ProgressOf(p, currentStart, currentEnd, lastProgress);
        var phonemeDuration := PerSymbol(currentStart, currentEnd, |symbols|);
        ghost var w := table[found.value];
        assert KeyAt(table, p) == Some(w.phoneme);
        if s0.lastPhoneme != Some(w.phoneme) {
          ReactOnNewKey(table, s0, p);
        }
        if lastPhoneme != Some(Join(symbols)) {
          if currentEnd > p {
            action := Animate(animatablePhonemes, phonemeDuration);
          }
          lastPhoneme := Some(Join(symbols));
          lastTimestamp := p;
          lastProgress := progress;
        }
        assert Reaction(State(), action) == React(table, s0, p);
      }
      control := if stillPlaying then Continue else Stop;
    }
  }

  /** The influence array of a mesh, when there is one: what a fade may write. */
  function Influences(mesh: Mesh?): set<array<real>>
    reads mesh
  {
    if mesh != null && mesh.morphTargetInfluences != null then {mesh.morphTargetInfluences} else {}
  }

  /**
   * The fade to neutral: nothing without a mesh or influence array, otherwise
   * every influence is set to zero, which is what each update of the tween does.
   */
  method FadeOutToNeutralPose(mesh: Mesh?)
    modifies Influences(mesh)
    ensures mesh != null && mesh.morphTargetInfluences != null ==>
      mesh.morphTargetInfluences[..] == Neutral(mesh.morphTargetInfluences.Length)
  {
    if mesh == null || mesh.morphTargetInfluences == null {
      return;
    }
    var influences := mesh.morphTargetInfluences;
    for i := 0 to influences.Length
      invariant forall j :: 0 <= j < i ==> influences[j] == 0.0
    {
      influences[i] := 0.0;
    }
  }

  /**
   * One `renderFrame` call with its effects: the session advances by `Step`,
   * the animator is started on an `Animate` action, and a fade-out (for a
   * vanished window or for the end of playback) leaves every influence at zero.
   */
  method RenderFrame(session: Session, mesh: Mesh?, p: real, playing: bool, stillPlaying: bool)
    returns (control: Control, tl: Option<Timeline>)
    modifies session, Influences(mesh)
    ensures var o := Step(session.table, old(session.State()), p, playing, stillPlaying);
      session.State() == o.state && control == o.control
      && (tl.Some? <==> o.action.Animate? && Influences(mesh) != {})
      && (tl.Some? ==>
            mesh != null && tl.value.weights == mesh.morphTargetInfluences
            && tl.value.targets == MorphTargets(Names(o.action.visemes))
            && tl.value.attackSeconds == AttackSeconds(o.action.duration)
            && tl.value.decaySeconds == DecaySeconds(o.action.duration))
    ensures var o := Step(session.table, old(session.State()), p, playing, stillPlaying);
      mesh != null && mesh.morphTargetInfluences != null ==>
        mesh.morphTargetInfluences[..] ==
          (if o.action.FadeOut? || o.control == Stop then Neutral(mesh.morphTargetInfluences.Length)
           else old(mesh.morphTargetInfluences[..]))
  {
    var action;
    action, control := session.Tick(p, playing, stillPlaying);
    tl := None;
    if action.FadeOut? {
      FadeOutToNeutralPose(mesh);
    } else if action.Animate? {
      tl := AnimatePhonemes(mesh, Names(action.visemes), action.duration);
    }
    if control == Stop {
      FadeOutToNeutralPose(mesh);
    }
  }

  // ---------------------------------------------------------------------------
  // Worked examples on a two-window table: "AA" over [0, 50] and "M" over
  // [50, 120], that is [0, 500] and [500, 1200] on the clock.
  // ---------------------------------------------------------------------------

  predicate IsExampleTable(table: seq<TimingWindow>) {
    table == [TimingWindow(0.0, 50.0, "AA"), TimingWindow(50.0, 120.0, "M")]
  }

  /** The first tick at 30 starts the "AA" animation with the whole window as its duration. */
  lemma ExampleFirstTick(table: seq<TimingWindow>)
    requires IsExampleTable(table)
    ensures Step(table, Initial, 30.0, true, true)
      == Outcome(SessionState(Some("AA"), 30.0, Value(0.06)), Animate([AA], 500.0), Continue)
  {
    var w := table[0];
    assert FirstActive(table, 30.0) == Some(0);
    SplitSingle(w.phoneme);
    ConvertListed(["AA"], [0]);
    ReactOnNewKey(table, Initial, 30.0);
  }

  /** At 200 the first window is still active (its clock span ends at 500), so a session on "AA" does nothing. */
  lemma ExampleInsideWindow(table: seq<TimingWindow>, s: SessionState)
    requires IsExampleTable(table) && s.lastPhoneme == Some("AA")
    ensures Step(table, s, 200.0, true, true) == Outcome(s, NoOp, Continue)
  {
    assert FirstActive(table, 200.0) == Some(0);
  }

  /** At 500 both windows contain the position; the earlier one wins, and it ends there, so it is recorded but not animated. */
  lemma ExampleSharedBoundary(table: seq<TimingWindow>)
    requires IsExampleTable(table)
    ensures ActiveWindow(table, 500.0) == Some(table[0])
    ensures var o := Step(table, Initial, 500.0, true, true); o.action == NoOp && o.state.lastPhoneme == Some("AA")
  {
    assert FirstActive(table, 500.0) == Some(0);
    ReactOnNewKey(table, Initial, 500.0);
  }

  /** Past every window, a session still on "AA" fades out once and forgets its key. */
  lemma ExamplePastAllWindows(table: seq<TimingWindow>, s: SessionState)
    requires IsExampleTable(table) && s.lastPhoneme == Some("AA")
    ensures Step(table, s, 1300.0, true, true) == Outcome(s.(lastPhoneme := None), FadeOut, Continue)
    ensures var o := Step(table, s, 1300.0, true, true); Step(table, o.state, 1300.0, true, true).action == NoOp
  {
    assert FirstActive(table, 1300.0) == None;
  }

  /** Audio that has stopped ends the loop with a fade whatever the position. */
  lemma ExampleStopped(table: seq<TimingWindow>, s: SessionState, p: real)
    requires IsExampleTable(table)
    ensures Step(table, s, p, false, false) == Outcome(s, NoOp, Stop)
  {
  }
}
