/**
 * The blend-weight animator: a viseme name selects morph channels, and three
 * callbacks of a two-phase timeline update the mesh's weight array in place.
 * The timeline library only decides when the callbacks run; here each one is
 * a method that may be called any number of times, in any order.
 */
module PhonemeAnimator {
  import opened Wrappers
  import opened Tables
  import PhonemeConversion

  /** `phonemeAnimations`: viseme name to morph channel indices, in source order. */
  const PhonemeAnimations: seq<(string, seq<int>)> := [
    ("AA", [1, 1, 1]),
    ("EE", [2]),
    ("OO", [3]),
    ("F/V", [4]),
    ("TH", [1, 5, 1]),
    ("M/B/P", [6]),
    ("S/SH", [7]),
    ("R", [8]),
    ("L", [9]),
    ("D", [10]),
    ("T", [11]),
    ("N", [12]),
    ("G", [10]),
    ("K", [14]),
    ("Y", [15])
  ]

  /** The channels used for a name the table does not list (the closed-lips channel). */
  const FallbackTargets: seq<int> := [6]

  /** `phonemeAnimations[name] || [6]`. */
  function TargetsFor(name: string): (channels: seq<int>)
    ensures HasKey(PhonemeAnimations, name) ==>
      exists i :: 0 <= i < |PhonemeAnimations| && PhonemeAnimations[i].0 == name && channels == PhonemeAnimations[i].1
    ensures !HasKey(PhonemeAnimations, name) ==> channels == [6]
  {
    match Lookup(PhonemeAnimations, name)
    case Some(channels) => channels
    case None => FallbackTargets
  }

  /** `flatMap` of `TargetsFor` over the names, in order. */
  function MorphTargets(names: seq<string>): seq<int>
    decreases |names|
  {
    if |names| == 0 then [] else TargetsFor(names[0]) + MorphTargets(names[1..])
  }

  /** The keys of the table have distinct codes. */
  lemma CodesDistinct()
    ensures forall i, j :: 0 <= i < j < 15 ==> KeyCode(PhonemeAnimations[i].0) != KeyCode(PhonemeAnimations[j].0)
  {
  }

  lemma AnimationTableWellFormed()
    ensures DistinctKeys(PhonemeAnimations)
    ensures forall i :: 0 <= i < |PhonemeAnimations| ==> |PhonemeAnimations[i].1| >= 1
  {
    CodesDistinct();
  }

  /** Every name gets at least one channel. */
  lemma TargetsForNonEmpty(name: string)
    ensures |TargetsFor(name)| >= 1
  {
    AnimationTableWellFormed();
  }

  /** The target list of a concatenation is the concatenation of the target lists. */
  lemma {:induction false} MorphTargetsAppend(a: seq<string>, b: seq<string>)
    ensures MorphTargets(a + b) == MorphTargets(a) + MorphTargets(b)
    decreases |a|
  {
    if |a| == 0 {
      assert a + b == b;
    } else {
      assert (a + b)[1..] == a[1..] + b;
      MorphTargetsAppend(a[1..], b);
    }
  }

  /** A channel is targeted exactly when some name in the sequence selects it. */
  lemma {:induction false} MorphTargetsMember(names: seq<string>, c: int)
    ensures c in MorphTargets(names) <==> exists k :: 0 <= k < |names| && c in TargetsFor(names[k])
    decreases |names|
  {
    if |names| > 0 {
      MorphTargetsMember(names[1..], c);
      if c in TargetsFor(names[0]) {
        assert 0 < |names| && c in TargetsFor(names[0]);
      }
      forall k | 1 <= k < |names| && c in TargetsFor(names[k])
        ensures c in MorphTargets(names[1..])
      {
        assert names[1..][k - 1] == names[k];
      }
    }
  }

  /** There are at least as many targets as names. */
  lemma {:induction false} MorphTargetsLength(names: seq<string>)
    ensures |MorphTargets(names)| >= |names|
    decreases |names|
  {
    if |names| > 0 {
      TargetsForNonEmpty(names[0]);
      MorphTargetsLength(names[1..]);
    }
  }

  /** Every viseme the classifier can produce has its own entry, so the fallback never fires on its output. */
  lemma VisemeHasEntry(v: PhonemeConversion.Viseme)
    ensures HasKey(PhonemeAnimations, v.Name())
  {
    match v
    case AA => assert PhonemeAnimations[0].0 == v.Name();
    case EE => assert PhonemeAnimations[1].0 == v.Name();
    case OO => assert PhonemeAnimations[2].0 == v.Name();
    case FV => assert PhonemeAnimations[3].0 == v.Name();
    case TH => assert PhonemeAnimations[4].0 == v.Name();
    case MBP => assert PhonemeAnimations[5].0 == v.Name();
    case SSH => assert PhonemeAnimations[6].0 == v.Name();
    case R => assert PhonemeAnimations[7].0 == v.Name();
    case L => assert PhonemeAnimations[8].0 == v.Name();
    case D => assert PhonemeAnimations[9].0 == v.Name();
    case T => assert PhonemeAnimations[10].0 == v.Name();
    case N => assert PhonemeAnimations[11].0 == v.Name();
    case G => assert PhonemeAnimations[12].0 == v.Name();
    case K => assert PhonemeAnimations[13].0 == v.Name();
    case Y => assert PhonemeAnimations[14].0 == v.Name();
  }

  // ---------------------------------------------------------------------------
  // Timeline lengths

  /** Length of the attack phase in seconds: 80% of the duration, divided by 100. */
  function AttackSeconds(duration: real): real {
    duration * 0.8 / 100.0
  }

  /** Length of the decay phase in seconds: 20% of the duration, divided by 100. */
  function DecaySeconds(duration: real): real {
    duration * 0.2 / 100.0
  }

  lemma PhasesSplitDuration(duration: real)
    ensures AttackSeconds(duration) + DecaySeconds(duration) == duration / 100.0
    ensures AttackSeconds(duration) == 4.0 * DecaySeconds(duration)
    ensures duration >= 0.0 ==> AttackSeconds(duration) >= 0.0 && DecaySeconds(duration) >= 0.0
  {
  }

  // ---------------------------------------------------------------------------
  // The weight updates, as functions of the weight sequence

  /** `gsap.utils.clamp(lo, hi, v)`. */
  function Clamp(lo: real, hi: real, v: real): (r: real)
    ensures lo <= hi ==> lo <= r <= hi
    ensures lo <= v <= hi ==> r == v
  {
    if v < lo then lo else if v > hi then hi else v
  }

  /** One attack update: target channels build up by 0.1 (clamped), the others fade to a fifth. */
  function AttackStep(w: seq<real>, targets: seq<int>): seq<real> {
    seq(|w|, i requires 0 <= i < |w| => if i in targets then Clamp(0.0, 1.0, w[i] + 0.1) else w[i] * 0.2)
  }

  /** One decay update: every channel is scaled by 0.6. */
  function DecayStep(w: seq<real>): seq<real> {
    seq(|w|, i requires 0 <= i < |w| => w[i] * 0.6)
  }

  /** The neutral pose: every channel exactly 0. */
  function Neutral(n: nat): seq<real> {
    seq(n, i => 0.0)
  }

  predicate InUnit(w: seq<real>) {
    forall i :: 0 <= i < |w| ==> 0.0 <= w[i] <= 1.0
  }

  /** An attack update keeps the length and the unit interval; targets never drop, the rest never rise. */
  lemma AttackStepProperties(w: seq<real>, targets: seq<int>)
    ensures |AttackStep(w, targets)| == |w|
    ensures InUnit(w) ==> InUnit(AttackStep(w, targets))
    ensures forall i :: 0 <= i < |w| && i in targets && w[i] <= 1.0 ==> w[i] <= AttackStep(w, targets)[i]
    ensures forall i :: 0 <= i < |w| && i !in targets && w[i] >= 0.0 ==> AttackStep(w, targets)[i] <= w[i]
  {
  }

  /**
   * Only which in-range channels are targeted matters: repeated indices such
   * as the `[1, 1, 1]` of "AA", and indices past the array, change nothing.
   */
  lemma AttackStepSeesOnlyTargetSet(w: seq<real>, t1: seq<int>, t2: seq<int>)
    requires forall i :: 0 <= i < |w| ==> (i in t1 <==> i in t2)
    ensures AttackStep(w, t1) == AttackStep(w, t2)
  {
  }

  /** A decay update keeps the length and the unit interval, and no non-negative weight grows. */
  lemma DecayStepProperties(w: seq<real>)
    ensures |DecayStep(w)| == |w|
    ensures InUnit(w) ==> InUnit(DecayStep(w))
    ensures forall i :: 0 <= i < |w| && w[i] >= 0.0 ==> DecayStep(w)[i] <= w[i]
  {
  }

  /** `n` attack updates in a row. */
  function Attacks(w: seq<real>, targets: seq<int>, n: nat): seq<real>
    decreases n
  {
    if n == 0 then w else AttackStep(Attacks(w, targets, n - 1), targets)
  }

  function Pow(x: real, n: nat): real
    decreases n
  {
    if n == 0 then 1.0 else x * Pow(x, n - 1)
  }

  /**
   * After `n` attack updates a targeted channel that started in [0, 1] is at
   * min(1, v + 0.1 n), so ten updates saturate it; any other channel is at
   * v * 0.2^n.
   */
  lemma {:induction false} AttacksClosedForm(w: seq<real>, targets: seq<int>, n: nat, i: nat)
    requires i < |w| && 0.0 <= w[i] <= 1.0
    ensures |Attacks(w, targets, n)| == |w|
    ensures i in targets ==> Attacks(w, targets, n)[i] == Clamp(0.0, 1.0, w[i] + 0.1 * n as real)
    ensures i !in targets ==> Attacks(w, targets, n)[i] == w[i] * Pow(0.2, n)
    decreases n
  {
    if n > 0 {
      AttacksClosedForm(w, targets, n - 1, i);
    }
  }

  // ---------------------------------------------------------------------------
  // Arbitrary interleavings of callbacks

  /** One callback run against the weights; two overlapping timelines interleave theirs. */
  datatype Callback = Attack(targets: seq<int>) | Decay | Complete | Reset

  function Apply(w: seq<real>, c: Callback): seq<real> {
    match c
    case Attack(targets) => AttackStep(w, targets)
    case Decay => DecayStep(w)
    case Complete => Neutral(|w|)
    case Reset => Neutral(|w|)
  }

  function Replay(w: seq<real>, cs: seq<Callback>): seq<real>
    decreases |cs|
  {
    if |cs| == 0 then w else Replay(Apply(w, cs[0]), cs[1..])
  }

  /**
   * Whatever callbacks run, in whatever order, including a new animation
   * started before the last one finished: the length is kept and every weight
   * stays in [0, 1].
   */
  lemma {:induction false} ReplayStaysInUnit(w: seq<real>, cs: seq<Callback>)
    requires InUnit(w)
    ensures |Replay(w, cs)| == |w|
    ensures InUnit(Replay(w, cs))
    decreases |cs|
  {
    if |cs| > 0 {
      var next := Apply(w, cs[0]);
      match cs[0] {
        case Attack(targets) => AttackStepProperties(w, targets);
        case Decay => DecayStepProperties(w);
        case Complete =>
        case Reset =>
      }
      ReplayStaysInUnit(next, cs[1..]);
    }
  }

  /** If the last callback to run is a completion (or a reset), the pose is exactly neutral. */
  lemma {:induction false} ReplayEndingNeutral(w: seq<real>, cs: seq<Callback>)
    requires |cs| > 0 && (cs[|cs| - 1] == Complete || cs[|cs| - 1] == Reset)
    ensures Replay(w, cs) == Neutral(|w|)
    decreases |cs|
  {
    if |cs| > 1 {
      var next := Apply(w, cs[0]);
      assert |next| == |w|;
      assert cs[1..][|cs[1..]| - 1] == cs[|cs| - 1];
      ReplayEndingNeutral(next, cs[1..]);
    }
  }

  // ---------------------------------------------------------------------------
  // The mesh and the timeline's callbacks

  /** The part of a Three.js mesh the animator touches: its morph weight array, possibly absent. */
  class Mesh {
    var morphTargetInfluences: array?<real>

    constructor (influences: array?<real>)
      ensures morphTargetInfluences == influences
    {
      morphTargetInfluences := influences;
    }
  }

  /** A scheduled two-phase animation: the array its callbacks write and what they were built from. */
  datatype Timeline = Timeline(weights: array<real>, targets: seq<int>, attackSeconds: real, decaySeconds: real)

  /**
   * `animatePhonemes`: nothing happens without a mesh or a weight array;
   * otherwise the target list is built and the two phases are scheduled.
   */
  method AnimatePhonemes(mesh: Mesh?, names: seq<string>, duration: real) returns (tl: Option<Timeline>)
    ensures tl.None? <==> mesh == null || mesh.morphTargetInfluences == null
    ensures tl.Some? ==> mesh != null && tl.value.weights == mesh.morphTargetInfluences
    ensures tl.Some? ==> tl.value.targets == MorphTargets(names)
    ensures tl.Some? ==> tl.value.attackSeconds == AttackSeconds(duration) && tl.value.decaySeconds == DecaySeconds(duration)
  {
    if mesh == null || mesh.morphTargetInfluences == null {
      return None;
    }
    var morphTargets := MorphTargets(names);
    tl := Some(Timeline(mesh.morphTargetInfluences, morphTargets, duration * 0.8 / 100.0, duration * 0.2 / 100.0));
  }

  /** The attack phase's `onUpdate`. */
  method AttackTick(tl: Timeline)
    modifies tl.weights
    ensures tl.weights[..] == AttackStep(old(tl.weights[..]), tl.targets)
  {
    var w := tl.weights;
    for i := 0 to w.Length
      invariant forall k :: 0 <= k < i ==> w[k] == AttackStep(old(w[..]), tl.targets)[k]
      invariant forall k :: i <= k < w.Length ==> w[k] == old(w[k])
    {
      if i in tl.targets {
        w[i] := Clamp(0.0, 1.0, w[i] + 0.1);
      } else {
        w[i] := w[i] * 0.2;
      }
    }
  }

  /** The decay phase's `onUpdate`. */
  method DecayTick(tl: Timeline)
    modifies tl.weights
    ensures tl.weights[..] == DecayStep(old(tl.weights[..]))
  {
    var w := tl.weights;
    for i := 0 to w.Length
      invariant forall k :: 0 <= k < i ==> w[k] == old(w[k]) * 0.6
      invariant forall k :: i <= k < w.Length ==> w[k] == old(w[k])
    {
      w[i] := w[i] * 0.6;
    }
  }

  /** The decay phase's `onComplete`: back to the exact neutral pose. */
  method CompleteTick(tl: Timeline)
    modifies tl.weights
    ensures tl.weights[..] == Neutral(tl.weights.Length)
  {
    var w := tl.weights;
    for i := 0 to w.Length
      invariant forall k :: 0 <= k < i ==> w[k] == 0.0
    {
      w[i] := 0.0;
    }
  }
}
