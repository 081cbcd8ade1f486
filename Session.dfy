/**
  One game session: the score, the choice of the next target pitch, and the
  `state` and `score` records that the game's handlers update in place.
  `Math.random` is an oracle: every operation that draws random numbers takes
  the sequence of draws as a parameter.
 */
module Session {
  import opened JsRuntime
  import opened ScaleTheory
  import opened Pitch

  // ---------------------------------------------------------------------------
  // Score

  /** `scoreTotal`. */
  function ScoreTotal(correct: nat, incorrect: nat): nat {
    correct + incorrect
  }

  /** `scoreAccuracy`: the percentage of answers that were correct, 0 before
      any answer. */
  function ScoreAccuracy(correct: nat, incorrect: nat): (a: real)
    ensures 0.0 <= a <= 100.0
    ensures a == 0.0 <==> correct == 0
    ensures ScoreTotal(correct, incorrect) > 0 ==>
              a * ScoreTotal(correct, incorrect) as real == 100.0 * correct as real
  {
    var t := ScoreTotal(correct, incorrect);
    if t == 0 then 0.0
    else
      var c, tr := correct as real, t as real;
      assert c <= tr;
      assert c / tr <= 1.0 by {
        assert c / tr * tr == c;
      }
      (c / tr) * 100.0
  }

  /** A product of positive reals is positive. */
  lemma ProductPositive(x: real, y: real)
    requires x > 0.0 && y > 0.0
    ensures x * y > 0.0
  {
  }

  /** With `a * t` fixed, raising `a * (t + 1)` by the most `a` can be
      (100) cannot lower the ratio. */
  lemma RatioRises(a: real, b: real, t: real, c: real)
    requires t > 0.0 && a <= 100.0
    requires a * t == 100.0 * c && b * (t + 1.0) == 100.0 * c + 100.0
    ensures a <= b
  {
    if b < a {
      ProductPositive(a - b, t + 1.0);
    }
  }

  /** With `b * (t + 1)` equal to `a * t` and `a` not negative, `b` is at
      most `a`. */
  lemma RatioFalls(a: real, b: real, t: real, c: real)
    requires t > 0.0 && a >= 0.0
    requires a * t == 100.0 * c && b * (t + 1.0) == 100.0 * c
    ensures b <= a
  {
    if a < b {
      ProductPositive(b - a, t + 1.0);
    }
  }

  /** A correct answer never lowers the accuracy. */
  lemma AccuracyAfterCorrect(correct: nat, incorrect: nat)
    ensures ScoreAccuracy(correct + 1, incorrect) >= ScoreAccuracy(correct, incorrect)
  {
    var a, b := ScoreAccuracy(correct, incorrect), ScoreAccuracy(correct + 1, incorrect);
    var t := (correct + incorrect) as real;
    if correct + incorrect > 0 {
      RatioRises(a, b, t, correct as real);
    }
  }

  /** An incorrect answer never raises the accuracy. */
  lemma AccuracyAfterIncorrect(correct: nat, incorrect: nat)
    ensures ScoreAccuracy(correct, incorrect + 1) <= ScoreAccuracy(correct, incorrect)
  {
    var a, b := ScoreAccuracy(correct, incorrect), ScoreAccuracy(correct, incorrect + 1);
    var t := (correct + incorrect) as real;
    if correct + incorrect > 0 {
      RatioFalls(a, b, t, correct as real);
    } else {
      assert b == 0.0;
    }
  }

  /** The answer `pc` is right when it names the target's pitch class. */
  predicate IsCorrectAnswer(pc: int, targetPc: int) {
    Mod12(pc) == Mod12(targetPc)
  }

  /** An answer is right exactly when it differs from the target's pitch
      class by a multiple of 12. */
  lemma IsCorrectAnswerSpec(pc: int, targetPc: int)
    ensures IsCorrectAnswer(pc, targetPc) <==> (pc - targetPc) % 12 == 0
  {
    Mod12IsMod(pc);
    Mod12IsMod(targetPc);
    if (pc - targetPc) % 12 == 0 {
      Mod12Congruent(pc, targetPc);
    } else {
      var a, b := pc / 12, targetPc / 12;
      assert pc == 12 * a + pc % 12 && targetPc == 12 * b + targetPc % 12;
    }
  }

  // ---------------------------------------------------------------------------
  // Choosing a target

  /** A target choice: a pitch and its pitch class. */
  datatype Pick = Pick(pitch: int, pc: int)

  /** The note being asked for, with the name it is shown under. */
  datatype Target = Target(pitch: int, pc: int, name: string)

  /** Tries before `pickRandomTargetPitch` gives up and falls back. */
  const MaxTries: nat := 14

  /** The name shown for a pitch class the scale does not hold (the source's
      literal, three code points). */
  const NoName: string := "\U{201A}\U{00C4}\U{00EE}"

  /** The draws of `Math.random` each operation may consume: two per try,
      each in [0, 1). */
  predicate ValidRolls(rolls: seq<real>) {
    |rolls| >= 2 * MaxTries && forall i :: 0 <= i < |rolls| ==> 0.0 <= rolls[i] < 1.0
  }

  /** `randomInt(0, n - 1)` on the draw `u`: `Math.floor(u * n)`. */
  function RandomIndex(u: real, n: int): (r: int)
    requires 0.0 <= u < 1.0 && n >= 1
    ensures 0 <= r < n
  {
    var x := u * n as real;
    assert x < n as real;
    x.Floor
  }

  /** The octaves targets are drawn from: three of them in "multi" mode,
      octave 3 otherwise. */
  function Octaves(rangeMode: string): (octs: seq<int>)
    ensures |octs| > 0
  {
    if rangeMode == "multi" then [3, 4, 5] else [3]
  }

  /** The pitch classes of the degrees, in order. */
  function DegreePcs(degrees: seq<Degree>): (pcs: seq<int>)
    ensures |pcs| == |degrees| && forall i :: 0 <= i < |pcs| ==> pcs[i] == degrees[i].pc
  {
    seq(|degrees|, i requires 0 <= i < |degrees| => degrees[i].pc)
  }

  /** The candidate of try `t`: a pitch class and an octave, each chosen by
      its own draw. */
  function Candidate(pcs: seq<int>, octs: seq<int>, rolls: seq<real>, t: int): (p: Pick)
    requires |pcs| > 0 && |octs| > 0 && ValidRolls(rolls) && 0 <= t < MaxTries
  {
    var pc := pcs[RandomIndex(rolls[2 * t], |pcs|)];
    var oct := octs[RandomIndex(rolls[2 * t + 1], |octs|)];
    Pick(PitchFromPcOct(pc, oct), pc)
  }

  /** Each candidate is one of the pitch classes in one of the octaves. */
  lemma CandidateShape(pcs: seq<int>, octs: seq<int>, rolls: seq<real>, t: int)
    requires |pcs| > 0 && |octs| > 0 && ValidRolls(rolls) && 0 <= t < MaxTries
    ensures var p := Candidate(pcs, octs, rolls, t);
      && (exists i :: 0 <= i < |pcs| && pcs[i] == p.pc)
      && (exists j :: 0 <= j < |octs| && p.pitch == PitchFromPcOct(p.pc, octs[j]))
  {
    var p := Candidate(pcs, octs, rolls, t);
    var i, j := RandomIndex(rolls[2 * t], |pcs|), RandomIndex(rolls[2 * t + 1], |octs|);
    assert pcs[i] == p.pc && p.pitch == PitchFromPcOct(p.pc, octs[j]);
  }

  /** A candidate equal to the last pitch played is rejected. */
  predicate Repeats(lastPitch: Option<int>, p: Pick) {
    lastPitch == Some(p.pitch)
  }

  /** What is chosen when every try repeated the last pitch: the first
      degree in octave 4, whatever the range mode. */
  function Fallback(pcs: seq<int>): Pick
    requires |pcs| > 0
  {
    Pick(PitchFromPcOct(pcs[0], 4), pcs[0])
  }

  /** The retry loop of `pickRandomTargetPitch` from try `tries` on. */
  function TryPick(pcs: seq<int>, octs: seq<int>, lastPitch: Option<int>, rolls: seq<real>,
                   tries: nat): Pick
    requires |pcs| > 0 && |octs| > 0 && ValidRolls(rolls) && tries <= MaxTries
    decreases MaxTries - tries
  {
    if tries == MaxTries then Fallback(pcs)
    else
      var p := Candidate(pcs, octs, rolls, tries);
      if Repeats(lastPitch, p) then TryPick(pcs, octs, lastPitch, rolls, tries + 1) else p
  }

  /** The loop picks the first candidate from try `tries` on that does not
      repeat the last pitch, or the fallback when every one of them does. */
  lemma {:induction false} TryPickFirstFresh(pcs: seq<int>, octs: seq<int>, lastPitch: Option<int>,
                                             rolls: seq<real>, tries: nat)
    requires |pcs| > 0 && |octs| > 0 && ValidRolls(rolls) && tries <= MaxTries
    decreases MaxTries - tries
    ensures var r := TryPick(pcs, octs, lastPitch, rolls, tries);
      || (exists t :: tries <= t < MaxTries && r == Candidate(pcs, octs, rolls, t) && !Repeats(lastPitch, r) &&
           forall u :: tries <= u < t ==> Repeats(lastPitch, Candidate(pcs, octs, rolls, u)))
      || (r == Fallback(pcs) &&
           forall u :: tries <= u < MaxTries ==> Repeats(lastPitch, Candidate(pcs, octs, rolls, u)))
  {
    if tries < MaxTries {
      var p := Candidate(pcs, octs, rolls, tries);
      if Repeats(lastPitch, p) {
        TryPickFirstFresh(pcs, octs, lastPitch, rolls, tries + 1);
        var r := TryPick(pcs, octs, lastPitch, rolls, tries);
        if exists t :: tries + 1 <= t < MaxTries && r == Candidate(pcs, octs, rolls, t) &&
             !Repeats(lastPitch, r) &&
             forall u :: tries + 1 <= u < t ==> Repeats(lastPitch, Candidate(pcs, octs, rolls, u)) {
          var t :| tries + 1 <= t < MaxTries && r == Candidate(pcs, octs, rolls, t) &&
             !Repeats(lastPitch, r) &&
             forall u :: tries + 1 <= u < t ==> Repeats(lastPitch, Candidate(pcs, octs, rolls, u));
          assert forall u :: tries <= u < t ==> Repeats(lastPitch, Candidate(pcs, octs, rolls, u));
        }
      } else {
        assert TryPick(pcs, octs, lastPitch, rolls, tries) == Candidate(pcs, octs, rolls, tries);
      }
    }
  }

  /** `pickRandomTargetPitch` as a function of the state it reads and the
      draws: None without a scale or without degrees. */
  function PickTarget(scale: Option<Scale>, rangeMode: string, lastPitch: Option<int>,
                      rolls: seq<real>): Option<Pick>
    requires ValidRolls(rolls)
  {
    if scale.None? then None
    else
      var pcs := DegreePcs(scale.value.degrees);
      if |pcs| == 0 then None
      else Some(TryPick(pcs, Octaves(rangeMode), lastPitch, rolls, 0))
  }

  /** The octaves of the range mode, as a set: {3, 4, 5} for "multi",
      {3} otherwise. */
  function OctaveSet(rangeMode: string): set<int> {
    if rangeMode == "multi" then {3, 4, 5} else {3}
  }

  /** A pick is made exactly when there is a scale with degrees. It has the
      pitch class of a degree, and either lies in an octave of the range mode
      (`OctaveSet`) and differs from the last pitch, or is
      the first degree in octave 4. */
  lemma PickTargetSpec(scale: Option<Scale>, rangeMode: string, lastPitch: Option<int>,
                       rolls: seq<real>)
    requires ValidRolls(rolls)
    ensures var r := PickTarget(scale, rangeMode, lastPitch, rolls);
      && (r.Some? <==> scale.Some? && |scale.value.degrees| > 0)
      && (r.Some? ==>
            && (exists i :: 0 <= i < |scale.value.degrees| && scale.value.degrees[i].pc == r.value.pc)
            && ((&& lastPitch != Some(r.value.pitch)
                 && exists o :: o in OctaveSet(rangeMode) && r.value.pitch == PitchFromPcOct(r.value.pc, o))
                || r.value == Pick(PitchFromPcOct(scale.value.degrees[0].pc, 4), scale.value.degrees[0].pc)))
  {
    var r := PickTarget(scale, rangeMode, lastPitch, rolls);
    if r.Some? {
      var pcs, octs := DegreePcs(scale.value.degrees), Octaves(rangeMode);
      TryPickFirstFresh(pcs, octs, lastPitch, rolls, 0);
      if r.value != Fallback(pcs) {
        var t :| 0 <= t < MaxTries && r.value == Candidate(pcs, octs, rolls, t) && !Repeats(lastPitch, r.value);
        CandidateShape(pcs, octs, rolls, t);
        var i :| 0 <= i < |pcs| && pcs[i] == r.value.pc;
        assert scale.value.degrees[i].pc == r.value.pc;
        var j :| 0 <= j < |octs| && r.value.pitch == PitchFromPcOct(r.value.pc, octs[j]);
        assert octs[j] in OctaveSet(rangeMode);
      } else {
        assert scale.value.degrees[0].pc == r.value.pc;
      }
    }
  }

  /** What the game relies on in a spelled scale: seven degrees, each with
      a pitch class in 0..11 and a non-empty name. */
  predicate WellSpelled(sc: Scale) {
    && |sc.degrees| == 7
    && forall i :: 0 <= i < |sc.degrees| ==> 0 <= sc.degrees[i].pc < 12 && sc.degrees[i].name != []
  }

  /** Every name of the scale reads back as the pitch class of its degree. */
  predicate NamesReadBack(sc: Scale) {
    forall i :: 0 <= i < |sc.degrees| ==> NameToPc(sc.degrees[i].name) == Some(sc.degrees[i].pc)
  }

  lemma SpellScaleWellSpelled(key: string)
    requires SpellScale(key).Some?
    ensures WellSpelled(SpellScale(key).value)
  {
    SpellScaleShape(key);
  }

  lemma SpellScaleReadsBack(key: string)
    requires SpellScale(key).Some?
    ensures NamesReadBack(SpellScale(key).value)
  {
    SpellScaleNamesParse(key);
    var sc := SpellScale(key).value;
    forall i | 0 <= i < |sc.degrees|
      ensures NameToPc(sc.degrees[i].name) == Some(sc.degrees[i].pc)
    {
      assert sc.degrees[i] in sc.degrees;
    }
  }

  /** `pitch` is pitch class `pc` in octave 3, 4 or 5. */
  predicate InOctaves3To5(pc: int, pitch: int) {
    pitch == PitchFromPcOct(pc, 3) || pitch == PitchFromPcOct(pc, 4) || pitch == PitchFromPcOct(pc, 5)
  }

  /** A pick from a well-spelled scale is made; it is the pitch class of a
      degree in octave 3, 4 or 5, and the scale names it. */
  lemma PickFromScale(sc: Scale, rangeMode: string, lastPitch: Option<int>, rolls: seq<real>)
    requires ValidRolls(rolls) && WellSpelled(sc)
    ensures var r := PickTarget(Some(sc), rangeMode, lastPitch, rolls);
      && r.Some?
      && 0 <= r.value.pc < 12
      && InOctaves3To5(r.value.pc, r.value.pitch)
      && NameForPc(Some(sc), r.value.pc).Some?
  {
    PickTargetSpec(Some(sc), rangeMode, lastPitch, rolls);
    var r := PickTarget(Some(sc), rangeMode, lastPitch, rolls).value;
    var i :| 0 <= i < |sc.degrees| && sc.degrees[i].pc == r.pc;
    assert sc.degrees[i] in sc.degrees;
    if r != Pick(PitchFromPcOct(sc.degrees[0].pc, 4), sc.degrees[0].pc) {
      var o :| o in OctaveSet(rangeMode) && r.pitch == PitchFromPcOct(r.pc, o);
    }
  }

  /** The target made of a pick: its name is the name of the scale degree
      with the pick's pitch class, `NoName` when there is none (`||` also
      replaces an empty name). */
  function MakeTarget(scale: Option<Scale>, p: Pick): Target {
    var name := NameForPc(scale, p.pc);
    Target(p.pitch, p.pc, if name.Some? && name.value != [] then name.value else NoName)
  }

  /** For a pick found in a well-spelled scale the target is shown under the
      name of its degree, a name that reads back as the target's pitch
      class. */
  lemma MakeTargetNamed(sc: Scale, p: Pick)
    requires WellSpelled(sc) && NamesReadBack(sc) && NameForPc(Some(sc), p.pc).Some?
    ensures MakeTarget(Some(sc), p).name == NameForPc(Some(sc), p.pc).value
    ensures NameToPc(MakeTarget(Some(sc), p).name) == Some(p.pc)
  {
    var n := NameForPc(Some(sc), p.pc).value;
    var dg :| dg in sc.degrees && dg.pc == p.pc && dg.name == n;
    var i :| 0 <= i < |sc.degrees| && sc.degrees[i] == dg;
  }

  /** What the state promises about a target: its pitch class in octave 3,
      4 or 5. */
  predicate TargetOk(t: Target) {
    0 <= t.pc < 12 && InOctaves3To5(t.pc, t.pitch)
  }

  /** A target decodes to its own pitch class in octave 3, 4 or 5, and its
      sample is the stem of that pitch class in that octave. */
  lemma TargetHasSample(t: Target)
    requires TargetOk(t)
    ensures PcFromPitch(t.pitch) == t.pc
    ensures OctFromPitch(t.pitch) in {3, 4, 5}
    ensures PitchUrl(t.pitch) == Some(NoteUrl(Stem(t.pc), OctFromPitch(t.pitch)))
  {
    var o := if t.pitch == PitchFromPcOct(t.pc, 3) then 3 else if t.pitch == PitchFromPcOct(t.pc, 4) then 4 else 5;
    PitchEncodeDecode(t.pc, o);
    PitchUrlDefined(t.pitch);
  }

  // ---------------------------------------------------------------------------
  // The game

  /** The `state` and `score` records. */
  class Game {
    var started: bool
    var awaitingNext: bool
    var target: Option<Target>
    var lastPitch: Option<int>
    var key: string
    var rangeMode: string
    var scale: Option<Scale>
    var correct: nat
    var incorrect: nat
    var lastWasCorrect: Option<bool>

    /** The range mode is "one" or "multi"; a scale, when there is one, is
        well spelled; an answer is awaited only with a target, a target
        exists only in a started game, it is the last pitch played, and it
        lies in octave 3, 4 or 5. (That the scale is the one spelled from
        the key is stated by every method that sets either.) */
    predicate Valid()
      reads this
    {
      && (rangeMode == "one" || rangeMode == "multi")
      && (scale.Some? ==> WellSpelled(scale.value))
      && (awaitingNext ==> started && target.Some?)
      && (target.Some? ==> started && lastPitch == Some(target.value.pitch) && TargetOk(target.value))
    }

    /** The initial records with `init`'s settings applied: key "C", range
        "one". */
    constructor ()
      ensures Valid()
      ensures !started && !awaitingNext && target.None? && lastPitch.None?
      ensures key == "C" && rangeMode == "one" && scale == SpellScale("C")
      ensures correct == 0 && incorrect == 0 && lastWasCorrect.None?
    {
      started := false;
      awaitingNext := false;
      target := None;
      lastPitch := None;
      key := "C";
      rangeMode := "one";
      scale := None;
      correct := 0;
      incorrect := 0;
      lastWasCorrect := None;
      new;
      ApplyRangeMode("one");
      ApplyScaleKey("C");
    }

    /** `applyRangeMode`: anything but "multi" selects "one". */
    method ApplyRangeMode(mode: string)
      modifies this
      ensures rangeMode == (if mode == "multi" then "multi" else "one")
      ensures started == old(started) && awaitingNext == old(awaitingNext) && target == old(target)
      ensures lastPitch == old(lastPitch) && key == old(key) && scale == old(scale)
      ensures correct == old(correct) && incorrect == old(incorrect) && lastWasCorrect == old(lastWasCorrect)
      ensures old(Valid()) ==> Valid()
    {
      rangeMode := if mode == "multi" then "multi" else "one";
    }

    /** `applyScaleKey`: the key is kept even when it cannot be parsed, and
        the scale is spelled from it. */
    method ApplyScaleKey(k: string)
      modifies this
      ensures key == k && scale == SpellScale(k)
      ensures started == old(started) && awaitingNext == old(awaitingNext) && target == old(target)
      ensures lastPitch == old(lastPitch) && rangeMode == old(rangeMode)
      ensures correct == old(correct) && incorrect == old(incorrect) && lastWasCorrect == old(lastWasCorrect)
      ensures old(Valid()) ==> Valid()
    {
      key := k;
      scale := SpelledMajorScale(k);
      if scale.Some? {
        SpellScaleWellSpelled(k);
      }
    }

    /** `pickRandomTargetPitch`: up to `MaxTries` draws of a degree and an
        octave, skipping a pitch equal to the last one played. */
    method PickRandomTargetPitch(rolls: seq<real>) returns (r: Option<Pick>)
      requires ValidRolls(rolls)
      ensures r == PickTarget(scale, rangeMode, lastPitch, rolls)
    {
      if scale.None? {
        return None;
      }
      var pcs := DegreePcs(scale.value.degrees);
      if |pcs| == 0 {
        return None;
      }
      var octaves := if rangeMode == "multi" then [3, 4, 5] else [3];
      var tries := 0;
      while tries < MaxTries
        invariant 0 <= tries <= MaxTries
        invariant TryPick(pcs, octaves, lastPitch, rolls, tries) == TryPick(pcs, octaves, lastPitch, rolls, 0)
      {
        var pc := pcs[RandomIndex(rolls[2 * tries], |pcs|)];
        var oct := octaves[RandomIndex(rolls[2 * tries + 1], |octaves|)];
        var pitch := PitchFromPcOct(pc, oct);
        if lastPitch == Some(pitch) {
          tries := tries + 1;
          continue;
        }
        return Some(Pick(pitch, pc));
      }
      var pc := pcs[0];
      return Some(Pick(PitchFromPcOct(pc, 4), pc));
    }

    /** `startRound`: nothing happens before the game has started; otherwise
        the answer is no longer awaited and a new target is chosen and
        becomes the last pitch played. */
    method StartRound(rolls: seq<real>)
      requires Valid() && ValidRolls(rolls)
      modifies this
      ensures Valid()
      ensures !old(started) ==> unchanged(this)
      ensures old(started) ==>
        var t := PickTarget(old(scale), old(rangeMode), old(lastPitch), rolls);
        && !awaitingNext
        && (t.None? ==> target.None? && lastPitch == old(lastPitch))
        && (t.Some? ==> target == Some(MakeTarget(scale, t.value)) && lastPitch == Some(t.value.pitch))
      ensures old(started) ==> (scale.Some? <==> target.Some?)
      ensures started == old(started) && key == old(key) && rangeMode == old(rangeMode) && scale == old(scale)
      ensures correct == old(correct) && incorrect == old(incorrect) && lastWasCorrect == old(lastWasCorrect)
    {
      if !started {
        return;
      }
      awaitingNext := false;
      var t := PickRandomTargetPitch(rolls);
      if t.None? {
        PickTargetSpec(scale, rangeMode, lastPitch, rolls);
        target := None;
        return;
      }
      PickFromScale(scale.value, rangeMode, lastPitch, rolls);
      target := Some(MakeTarget(scale, t.value));
      lastPitch := Some(t.value.pitch);
    }

    /** `startGameFromKey`: a key that cannot be spelled changes nothing;
        otherwise the key and its scale are taken, the score is cleared,
        the game starts with no last pitch, and the first round begins. */
    method StartGameFromKey(k: string, rolls: seq<real>)
      requires Valid() && ValidRolls(rolls)
      modifies this
      ensures Valid()
      ensures SpellScale(k).None? ==> unchanged(this)
      ensures SpellScale(k).Some? ==>
        && key == k && scale == SpellScale(k) && rangeMode == old(rangeMode)
        && started && !awaitingNext
        && correct == 0 && incorrect == 0 && lastWasCorrect.None?
        && var t := PickTarget(SpellScale(k), old(rangeMode), None, rolls);
           t.Some? && target == Some(MakeTarget(scale, t.value)) && lastPitch == Some(t.value.pitch)
    {
      var sc := SpelledMajorScale(k);
      if sc.None? {
        return;
      }
      SpellScaleWellSpelled(k);
      StartWithScale(k, sc.value, rolls);
    }

    /** The part of `startGameFromKey` after the key has been spelled as
        `sc`. */
    method StartWithScale(k: string, sc: Scale, rolls: seq<real>)
      requires Valid() && ValidRolls(rolls) && WellSpelled(sc)
      requires SpellScale(k) == Some(sc)
      modifies this
      ensures Valid()
      ensures key == k && scale == Some(sc) && rangeMode == old(rangeMode)
      ensures scale == SpellScale(key)
      ensures started && !awaitingNext
      ensures correct == 0 && incorrect == 0 && lastWasCorrect.None?
      ensures var t := PickTarget(Some(sc), old(rangeMode), None, rolls);
        t.Some? && target == Some(MakeTarget(Some(sc), t.value)) && lastPitch == Some(t.value.pitch)
    {
      ResetToReady();
      key, scale, started := k, Some(sc), true;
      PickFromScale(sc, rangeMode, None, rolls);
      StartRound(rolls);
    }

    /** `onAnswerClick` with the pitch class of the pressed button: ignored
        unless a started game awaits an answer to a target; otherwise exactly
        one of the counts goes up, by whether the answer names the target's
        pitch class, and the next round is awaited. */
    method OnAnswerClick(pc: int)
      requires Valid()
      modifies this
      ensures Valid()
      ensures !(old(started) && !old(awaitingNext) && old(target).Some?) ==> unchanged(this)
      ensures old(started) && !old(awaitingNext) && old(target).Some? ==>
        var ok := IsCorrectAnswer(pc, old(target).value.pc);
        && lastWasCorrect == Some(ok)
        && correct == old(correct) + (if ok then 1 else 0)
        && incorrect == old(incorrect) + (if ok then 0 else 1)
        && awaitingNext
      ensures started == old(started) && target == old(target) && lastPitch == old(lastPitch)
      ensures key == old(key) && rangeMode == old(rangeMode) && scale == old(scale)
    {
      if !started || awaitingNext || target.None? {
        return;
      }
      var isCorrect := Mod12(pc) == Mod12(target.value.pc);
      lastWasCorrect := Some(isCorrect);
      if isCorrect {
        correct := correct + 1;
      } else {
        incorrect := incorrect + 1;
      }
      awaitingNext := true;
    }

    /** The game-state and score reset shared by `returnToStartScreen` and
        the settings restart. */
    method ResetToReady()
      requires Valid()
      modifies this
      ensures Valid()
      ensures !started && !awaitingNext && target.None? && lastPitch.None?
      ensures correct == 0 && incorrect == 0 && lastWasCorrect.None?
      ensures key == old(key) && rangeMode == old(rangeMode) && scale == old(scale)
    {
      started := false;
      awaitingNext := false;
      target := None;
      lastPitch := None;
      correct := 0;
      incorrect := 0;
      lastWasCorrect := None;
    }

    /** `returnToStartScreen`: back to the ready screen with a cleared score;
        the settings stay. */
    method ReturnToStartScreen()
      requires Valid()
      modifies this
      ensures Valid()
      ensures !started && !awaitingNext && target.None? && lastPitch.None?
      ensures correct == 0 && incorrect == 0 && lastWasCorrect.None?
      ensures key == old(key) && rangeMode == old(rangeMode) && scale == old(scale)
    {
      ResetToReady();
    }

    /** The settings restart button with the values selected in the settings
        dialog. The button is disabled, and the click ignored, unless a
        selection differs from the applied setting; an empty selection
        stands for "C" and "one". */
    method SettingsRestart(selectedKey: string, selectedRange: string)
      requires Valid()
      modifies this
      ensures Valid()
      ensures selectedKey == old(key) && selectedRange == old(rangeMode) ==> unchanged(this)
      ensures selectedKey != old(key) || selectedRange != old(rangeMode) ==>
        var newKey := if selectedKey == "" then "C" else selectedKey;
        && !started && !awaitingNext && target.None? && lastPitch.None?
        && correct == 0 && incorrect == 0 && lastWasCorrect.None?
        && rangeMode == (if selectedRange == "multi" then "multi" else "one")
        && key == newKey && scale == SpellScale(newKey)
    {
      var dirty := selectedKey != key || selectedRange != rangeMode;
      if !dirty {
        return;
      }
      var newKey := if selectedKey == "" then "C" else selectedKey;
      var newRange := if selectedRange == "" then "one" else selectedRange;
      ResetToReady();
      ApplyRangeMode(newRange);
      ApplyScaleKey(newKey);
    }

    /** `handleIntroContinue`: the selections of the intro dialog are
        applied, with the same defaults. */
    method IntroContinue(selectedKey: string, selectedRange: string)
      requires Valid()
      modifies this
      ensures Valid()
      ensures var newKey := if selectedKey == "" then "C" else selectedKey;
        && rangeMode == (if selectedRange == "multi" then "multi" else "one")
        && key == newKey && scale == SpellScale(newKey)
      ensures started == old(started) && awaitingNext == old(awaitingNext) && target == old(target)
      ensures lastPitch == old(lastPitch)
      ensures correct == old(correct) && incorrect == old(incorrect) && lastWasCorrect == old(lastWasCorrect)
    {
      var newKey := if selectedKey == "" then "C" else selectedKey;
      var newRange := if selectedRange == "" then "one" else selectedRange;
      ApplyRangeMode(newRange);
      ApplyScaleKey(newKey);
    }

    /** The begin button: starts a game from the applied key before the game
        has started, and returns to the start screen after. */
    method BeginClick(rolls: seq<real>)
      requires Valid() && ValidRolls(rolls)
      modifies this
      ensures Valid()
      ensures old(started) ==>
        && !started && !awaitingNext && target.None? && lastPitch.None?
        && correct == 0 && incorrect == 0 && lastWasCorrect.None?
        && key == old(key) && rangeMode == old(rangeMode) && scale == old(scale)
      ensures !old(started) && SpellScale(old(key)).None? ==> unchanged(this)
      ensures !old(started) && SpellScale(old(key)).Some? ==>
        && key == old(key) && scale == SpellScale(old(key)) && rangeMode == old(rangeMode)
        && started && !awaitingNext
        && correct == 0 && incorrect == 0 && lastWasCorrect.None?
        && var t := PickTarget(SpellScale(old(key)), old(rangeMode), None, rolls);
           t.Some? && target == Some(MakeTarget(scale, t.value)) && lastPitch == Some(t.value.pitch)
    {
      if !started {
        StartGameFromKey(key, rolls);
        return;
      }
      ReturnToStartScreen();
    }

    /** The next button (and the space key, which fires while the button is
        enabled): a new round, only when an answer has been given. */
    method NextClick(rolls: seq<real>)
      requires Valid() && ValidRolls(rolls)
      modifies this
      ensures Valid()
      ensures !(old(started) && old(awaitingNext)) ==> unchanged(this)
      ensures old(started) && old(awaitingNext) ==>
        var t := PickTarget(old(scale), old(rangeMode), old(lastPitch), rolls);
        && !awaitingNext
        && (t.None? ==> target.None? && lastPitch == old(lastPitch))
        && (t.Some? ==> target == Some(MakeTarget(scale, t.value)) && lastPitch == Some(t.value.pitch))
        && (scale.Some? <==> target.Some?)
      ensures started == old(started)
      ensures correct == old(correct) && incorrect == old(incorrect) && lastWasCorrect == old(lastWasCorrect)
      ensures key == old(key) && rangeMode == old(rangeMode) && scale == old(scale)
    {
      if !started || !awaitingNext {
        return;
      }
      StartRound(rolls);
    }
  }
}
