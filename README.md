# Lip-sync core of a talking 3D avatar, in Dafny

The avatar moves its mouth in time with speech audio. A timing table lists
windows of the audio, each with a space-separated string of ARPAbet/CMU
phoneme symbols. On every animation frame the render loop reads the audio
clock and finds the active window. When the window's key changes, it
classifies the symbols into visemes (mouth shapes) and asks the animator to
drive the mesh's blend-shape influences toward those shapes. When no window
is active any more, or the audio stops, it fades the mesh back to neutral.

The project has four modules, one per part of the core:

- `common.dfy` (`Wrappers`, `Tables`): `Option`, and ordered string-keyed
  tables with first-match lookup. These model the source's object literals as
  lists in insertion order.
- `phoneme_conversion.dfy` (`PhonemeConversion`), for
  `utility/phoneme_converson.js`:
  - the fixed viseme alphabet;
  - the 31-entry phoneme table;
  - the dynamic-programming Levenshtein distance, proved equal to the
    recursive edit distance;
  - the nearest-key classifier as a loop, proved equal to a specification
    function;
  - `convertPhonemes`.
- `phoneme_animator.dfy` (`PhonemeAnimator`), for
  `utility/phonemeAnimator.js`:
  - the viseme-to-channel table and the `flatMap` with its fallback channel;
  - the split of the duration into an attack phase and a decay phase;
  - the three tween callbacks (attack update, decay update, completion) as
    in-place loops over the influence array.
- `synchronizer.dfy` (`Synchronizer`), for the `renderFrame` loop of
  `main.js`:
  - the active-window scan;
  - JavaScript's `split(" ")`/`join(" ")`;
  - the smoothed progress, including the NaN a zero-length window produces;
  - the session variables as a class whose `Tick` method carries out one
    frame;
  - `fadeOutToNeutralPose`;
  - `RenderFrame`, which wires a tick to the animator and the fade.

Mapping of the source's inputs and outputs:

- The audio clock position (already in milliseconds) and the two readings of
  `sound.playing()` are parameters of a tick.
- The effects of a tick come back as an `Action`: no-op, fade out, or animate
  these visemes for this duration. A `Control` says whether another frame is
  scheduled.
- A gsap tween is modelled by the effect of its callbacks:
  - `Timeline` records the array and the phase durations;
  - `AttackTick`, `DecayTick` and `CompleteTick` are the `onUpdate` and
    `onComplete` bodies;
  - `Replay` applies any interleaving of callbacks from any number of
    overlapping animations and fades.

Points where the code's behaviour is easy to misread:

- **Time scale.** Window timestamps are multiplied by ten before being
  compared with the clock (`Synchronizer.Scale`). With the two-window table
  `AA` over [0, 50] and `M` over [50, 120], position 200 is therefore inside
  the first window (clock span [0, 500]). It is not past all windows, and a
  session on "AA" does nothing there (`ExampleInsideWindow`). A fade happens
  only past 1200 (`ExamplePastAllWindows`).
- **Zero-length windows.** They get no minimum duration. Their progress is
  `0/0`, which is NaN and stays NaN for the session (`ProgressOf`,
  `NaNSticky`). They are never animated, because the window ends at the
  position itself. Progress is computed and stored but never read by
  anything else.
- **Overlapping tweens.** A new animation does not cancel one still in
  flight. The model instead proves that every interleaving of callbacks keeps
  the weights in [0, 1] (`ReplayStaysInUnit`).
- **Duration units.** The comment beside `duration * 0.8 / 100` speaks of
  converting milliseconds to seconds, but `/100` is not that conversion. The
  constants are modelled as written (`AttackSeconds`, `DecaySeconds`).
- **Stopping.** When audio stops, the fade is a 0.2 s tween. Each of its
  updates sets every influence to zero, which is what `FadeOutToNeutralPose`
  does.

## Model

| member | source | states |
|---|---|---|
| Tables.Lookup | utility/phoneme_converson.js:21-23 | `obj[key]` on an own-key table: absent exactly when no entry has the key; a hit names an entry with that key and that value |
| Tables.LookupDistinct | utility/phoneme_converson.js:1-18 | with distinct keys, looking up the key of entry i gives entry i's value |
| PhonemeConversion.PhonemeMap | utility/phoneme_converson.js:1-18 | the 31 symbol-to-viseme entries in source order (checked by `PhonemeMapWellFormed`) |
| PhonemeConversion.PhonemeMapWellFormed | utility/phoneme_converson.js:1-18 | the phoneme table has 31 entries, distinct keys, all non-empty |
| PhonemeConversion.Levenshtein | utility/phoneme_converson.js:52-70 | the dynamic-programming table's last cell is the edit distance over deletion, insertion and substitution; an empty side gives the other's length |
| PhonemeConversion.FillRow | utility/phoneme_converson.js:59-66 | filling row i from the finished row above makes every cell of row i the edit distance of the two prefixes, and leaves every other row as it was |
| PhonemeConversion.FillCell | utility/phoneme_converson.js:60-65 | with its three neighbours holding prefix distances, cell (i, j) becomes the distance of the prefixes of lengths i and j, and no other cell changes |
| PhonemeConversion.DistSelf | utility/phoneme_converson.js:52-70 | a string is at distance 0 from itself |
| PhonemeConversion.DistZeroIffEqual | utility/phoneme_converson.js:52-70 | the distance is 0 if and only if the strings are equal |
| PhonemeConversion.DistAtMostLonger | utility/phoneme_converson.js:52-70 | the distance never exceeds the longer length |
| PhonemeConversion.DistAtLeastLengthGap | utility/phoneme_converson.js:52-70 | the distance is at least the difference of the lengths |
| PhonemeConversion.DistDisjoint | utility/phoneme_converson.js:52-70 | strings with no common character are at distance equal to the longer length |
| PhonemeConversion.FirstMin | utility/phoneme_converson.js:29-35 | the strict `<` update keeps the first index of minimal distance: no later entry is smaller, every earlier one is larger |
| PhonemeConversion.FindClosestPhoneme | utility/phoneme_converson.js:20-38 | the direct hit, or else the scan from seed "AA" at Infinity, returns the classifier's value |
| PhonemeConversion.ClosestIn | utility/phoneme_converson.js:20-38 | what `findClosestPhoneme` returns over a table: the stored viseme on a direct hit, else that of the first key at minimal distance, else "AA" for an empty table (properties in `ClosestListed`, `ClosestUnlisted`, `ClosestIsTableValue`) |
| PhonemeConversion.Classify | utility/phoneme_converson.js:20-38 | `findClosestPhoneme` over the source's own table (properties in `ClassifyUnlistedAt` and the examples) |
| PhonemeConversion.ClosestListed | utility/phoneme_converson.js:21-23 | a listed symbol gets its own entry's viseme |
| PhonemeConversion.ClosestUnlisted | utility/phoneme_converson.js:25-37 | an unlisted symbol gets the viseme of a key at minimal distance that is strictly closer than every earlier key |
| PhonemeConversion.ClosestIsTableValue | utility/phoneme_converson.js:26-37 | the result is always a value of the table; the "AA" seed survives only an empty table |
| PhonemeConversion.ClassifyUnlistedAt | utility/phoneme_converson.js:25-37 | any first strictly-minimal key of the source's table decides an unlisted symbol |
| PhonemeConversion.ClassifyEmptySymbol | utility/phoneme_converson.js:20-38 | the empty symbol (from a doubled space) is classified F/V, through the first one-letter key "F" |
| PhonemeConversion.ClassifyZZZ | utility/phoneme_converson.js:46-48 | the unknown "ZZZ" is classified, deterministically, S/SH through "Z" at distance 2 |
| PhonemeConversion.ConvertPhonemes | utility/phoneme_converson.js:41-43 | conversion yields one viseme per symbol |
| PhonemeConversion.ConvertListed | utility/phoneme_converson.js:41-43 | symbols that are all table keys convert to their entries' visemes |
| PhonemeConversion.ConvertExample | utility/phoneme_converson.js:46-48 | DH, AH, F, IH, SH convert to TH, AA, F/V, EE, S/SH |
| PhonemeConversion.ConvertSourceExample | utility/phoneme_converson.js:46-48 | the whole example, with "ZZZ", converts to TH, AA, F/V, EE, S/SH, S/SH |
| PhonemeConversion.Names | utility/phoneme_converson.js:1-18 | one viseme name per viseme, as the strings the table stores |
| PhonemeAnimator.PhonemeAnimations | utility/phonemeAnimator.js:4-20 | the 15 name-to-channel entries in source order (checked by `AnimationTableWellFormed`) |
| PhonemeAnimator.TargetsFor | utility/phonemeAnimator.js:34 | a listed name gets its entry's channels, an unlisted one the fallback [6] |
| PhonemeAnimator.MorphTargets | utility/phonemeAnimator.js:34 | the `flatMap` of `TargetsFor` over the names, in order (properties in `MorphTargetsAppend`, `MorphTargetsMember`, `MorphTargetsLength`) |
| PhonemeAnimator.AnimationTableWellFormed | utility/phonemeAnimator.js:4-20 | the channel table has distinct keys and every entry lists at least one channel |
| PhonemeAnimator.TargetsForNonEmpty | utility/phonemeAnimator.js:34 | every name, listed or not (fallback [6]), contributes at least one channel |
| PhonemeAnimator.MorphTargetsAppend | utility/phonemeAnimator.js:34 | the `flatMap` distributes over concatenation of the name sequence |
| PhonemeAnimator.MorphTargetsMember | utility/phonemeAnimator.js:34 | a channel is targeted if and only if some name's entry (or the fallback) lists it |
| PhonemeAnimator.MorphTargetsLength | utility/phonemeAnimator.js:34 | there are at least as many targets as names |
| PhonemeAnimator.VisemeHasEntry | utility/phonemeAnimator.js:4-20 | every viseme the classifier can produce has its own entry, so the fallback never fires on its output |
| PhonemeAnimator.AttackSeconds | utility/phonemeAnimator.js:40 | the attack phase lasts `duration * 0.8 / 100` (see `PhasesSplitDuration`) |
| PhonemeAnimator.DecaySeconds | utility/phonemeAnimator.js:55 | the decay phase lasts `duration * 0.2 / 100` (see `PhasesSplitDuration`) |
| PhonemeAnimator.PhasesSplitDuration | utility/phonemeAnimator.js:40-55 | attack and decay take 80% and 20% of `duration / 100`, attack is four times decay, both non-negative for a non-negative duration |
| PhonemeAnimator.Clamp | utility/phonemeAnimator.js:45 | `gsap.utils.clamp`: the result lies in [lo, hi] and is the value itself when already inside |
| PhonemeAnimator.AttackStep | utility/phonemeAnimator.js:43-49 | one attack update of the weights: targets rise by 0.1 clamped to [0, 1], the rest are multiplied by 0.2 (properties in `AttackStepProperties`, `AttacksClosedForm`) |
| PhonemeAnimator.DecayStep | utility/phonemeAnimator.js:58-60 | one decay update: every weight multiplied by 0.6 (properties in `DecayStepProperties`) |
| PhonemeAnimator.Neutral | utility/phonemeAnimator.js:63-65 | the pose the completion callback leaves: every weight 0 (reached by `ReplayEndingNeutral`) |
| PhonemeAnimator.AttackStepProperties | utility/phonemeAnimator.js:42-49 | an attack update keeps the length and the unit interval; targeted channels never drop, the others never rise |
| PhonemeAnimator.AttackStepSeesOnlyTargetSet | utility/phonemeAnimator.js:44 | repeated or reordered target channels do not change the update (`includes` only) |
| PhonemeAnimator.DecayStepProperties | utility/phonemeAnimator.js:57-60 | a decay update keeps the length and the unit interval and never raises a weight |
| PhonemeAnimator.AttacksClosedForm | utility/phonemeAnimator.js:42-49 | after n attack updates a targeted channel is clamp(0, 1, w + 0.1n) and any other channel is w * 0.2^n |
| PhonemeAnimator.ReplayStaysInUnit | utility/phonemeAnimator.js:39-67 | any interleaving of attack, decay, completion and fade callbacks keeps every weight in [0, 1] |
| PhonemeAnimator.ReplayEndingNeutral | utility/phonemeAnimator.js:62-66 | a sequence ending in a completion or fade leaves the neutral pose, all zeros |
| PhonemeAnimator.AnimatePhonemes | utility/phonemeAnimator.js:28-51 | no animation without a mesh or influence array; otherwise the timeline holds that array, the flattened targets and the 80/20 phase durations |
| PhonemeAnimator.AttackTick | utility/phonemeAnimator.js:42-49 | one attack update in place: the array becomes the attack step of its old contents |
| PhonemeAnimator.DecayTick | utility/phonemeAnimator.js:57-60 | one decay update in place: every weight is multiplied by 0.6 |
| PhonemeAnimator.CompleteTick | utility/phonemeAnimator.js:62-66 | completion sets every weight to 0 |
| Synchronizer.Scale | main.js:364 | a timing-table timestamp is multiplied by 10 before it is compared with the clock |
| Synchronizer.Contains | main.js:364 | a window is active at a position inside its scaled span, both ends included |
| Synchronizer.FirstActive | main.js:363-370 | the first window in table order whose scaled span contains the position; none when no window contains it |
| Synchronizer.FindActiveWindow | main.js:363-370 | the scan with its early `break` finds exactly that window |
| Synchronizer.ActiveWindow | main.js:363-368 | the active window is the table entry at the found index and contains the position |
| Synchronizer.KeyAt | main.js:392-396 | the key compared with and stored in `lastPhoneme`: the active window's text, none without one (equal to `join(" ")` of its symbols by `JoinSplit`) |
| Synchronizer.Join | main.js:392-396 | `join(" ")`: the pieces with one space between neighbours (inverse of `Split` by `JoinSplit`, `SplitJoin`) |
| Synchronizer.Split | main.js:365 | `split(" ")` gives at least one piece and no piece holds a space |
| Synchronizer.JoinSplit | main.js:392-395 | `join(" ")` after `split(" ")` restores the phoneme text, so the session key is the window's text |
| Synchronizer.SplitJoin | main.js:365 | splitting the join of space-free pieces gives the pieces back |
| Synchronizer.SplitSingle | main.js:365 | a text without spaces is a single symbol |
| Synchronizer.ProgressOf | main.js:383-384 | progress is NaN exactly for a zero-length window or a NaN previous progress |
| Synchronizer.ProgressBounds | main.js:383-384 | smoothed progress lies between the raw fraction and 1, never below 85% of the previous value (or 1), is one of the three candidates, and stays in [0, 1] |
| Synchronizer.NaNSticky | main.js:383-384 | once NaN, progress stays NaN |
| Synchronizer.React | main.js:358-399 | the session key becomes the active window's key (none without a window); an unchanged key means no action and no change; fade out exactly when a window disappears |
| Synchronizer.ReactOnNewKey | main.js:381-399 | on a new key the session records key, position and smoothed progress, and animates the window's visemes at the per-symbol duration exactly when the window ends after the position |
| Synchronizer.Step | main.js:351-410 | another frame exactly when audio plays on entry and after rendering; not playing on entry changes nothing else |
| Synchronizer.ReactIdempotent | main.js:392-399 | a second tick at the same position asks for nothing and changes nothing |
| Synchronizer.Ticks | main.js:351-410 | one action per tick over a run of positions |
| Synchronizer.ActionsOnlyOnKeyChange | main.js:372-399 | over a run of ticks, a fade or animation happens only where the active key differs from the previous tick's |
| Synchronizer.QuietWhileKeyHeld | main.js:392-399 | while every position keeps the session's key, no tick asks for anything |
| Synchronizer.AnimateWellFormed | main.js:381-396 | an animation request has at least one viseme, each with its own channel entry, and a positive per-symbol duration |
| Synchronizer.PhonemeDuration | main.js:386-387 | a window's scaled length divided by its number of symbols (positive by `PhonemeDurationPositive`) |
| Synchronizer.PerSymbol | main.js:387 | the division of `currentEnd - currentStart` by the symbol count, shared by `Tick` and `PhonemeDuration` |
| Synchronizer.PhonemeDurationPositive | main.js:386-387 | a window that ends after the position gives a positive per-symbol duration |
| Synchronizer.Session.constructor | main.js:347-349 | a session starts with no key, timestamp 0 and progress 0 |
| Synchronizer.Session.Tick | main.js:351-410 | one frame in place: the new session variables, the action and the control are those of `Step` on the old ones |
| Synchronizer.FadeOutToNeutralPose | main.js:417-432 | nothing without a mesh or influence array; otherwise every influence becomes 0 |
| Synchronizer.RenderFrame | main.js:351-410 | a frame with its effects: the session advances by `Step`, an animation starts on `Animate` with the viseme names, and a fade or stop leaves all influences at 0, otherwise they are untouched |
| Synchronizer.ExampleFirstTick | main.js:351-399 | on the two-window table, the first tick at 30 records "AA" with progress 0.06 and animates AA for 500 |
| Synchronizer.ExampleInsideWindow | main.js:363-370 | at 200 the first window is still active, so a session on "AA" does nothing |
| Synchronizer.ExampleSharedBoundary | main.js:363-396 | at 500 the earlier window wins the tie; it ends there, so it is recorded but not animated |
| Synchronizer.ExamplePastAllWindows | main.js:372-379 | past all windows a session on "AA" fades out once; the next tick does nothing |
| Synchronizer.ExampleStopped | main.js:352-356 | with audio stopped the loop ends with a fade and nothing else changes |

## Left out

- Timing, easing and frame rate of gsap tweens are not modelled. Each
  `onUpdate` is one callback application. How many updates a tween gets, and
  when, is left open: `Replay` covers every order.
- Howler is not modelled. `sound.seek() * 1000` and `sound.playing()` are
  tick parameters, and the `onplay`/`onend` events are not modelled.
- Three.js rendering (`renderer.render`) is not modelled.
  `requestAnimationFrame` becomes `Control.Continue`.
- Console logging is not modelled.
- Floating point is modelled with exact reals, and number rounding is left
  out. `Infinity` is modelled only as the seed of the nearest-key scan
  (`Distance.Infinity`). NaN is modelled only as the progress of a
  zero-length window.
- Strings are sequences of Unicode scalar values. JavaScript's `length` and
  indexing count UTF-16 code units, so a symbol with a character outside the
  Basic Multilingual Plane (stored by JavaScript as two code units) is
  measured differently. For "😀" the source sees length 2, every key is at
  distance 2 and "AA" wins. The model sees length 1, so "F" wins and the
  result is F/V. Symbols are taken to be ARPAbet text.
- JavaScript property lookup also sees `Object.prototype` names such as
  "toString". Those are not modelled: lookups see the tables' own keys only.
  A timing table whose symbols include such names is outside the model.
- `wordData.phoneme` is taken to be a string. A missing field, which makes
  `split` throw, is not modelled.
- PhonemeAnimator.AttackTick, DecayTick and CompleteTick act on the array
  captured when the animation started. The source re-reads
  `mesh.morphTargetInfluences` on every update, so a mesh whose array is
  replaced mid-tween is not modelled.
- Asset loading, the emotion animation, the audio queue in `main.js` outside
  `renderFrame`/`fadeOutToNeutralPose`, the GUI and the OBJ-to-morph
  converter are not part of this model.
