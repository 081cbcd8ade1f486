# Relative-pitch ear-training game: scale spelling and game session

This project is a Dafny model of the logic in `script.js`, separate from its
browser code. The game plays one note of a major scale, asks which degree it
was, and keeps a score. The model covers two parts.

- **Scale theory and pitch arithmetic** (modules `JsRuntime`, `ScaleTheory`,
  `Pitch`):
  - parsing a note name (`noteNameToPc`);
  - spelling the seven degrees of a major scale with letters and accidentals
    (`spelledMajorScale`, `accidentalFromDiff`, `mod12`);
  - looking a pitch class up in a scale (`noteNameForPcInScale`);
  - encoding a pitch as `oct * 12 + pc` and decoding it again;
  - mapping a pitch to its sample file `audio/<stem><oct>.mp3`.

  `JsRuntime` writes out the JavaScript built-ins this code depends on:
  - the truncating `%`;
  - `String.prototype.trim`, with the white-space set of ECMA-262 sections
    12.2 and 12.3;
  - `toUpperCase` on one character;
  - `String(n)`;
  - `"#".repeat(n)`;
  - `null`, written as `Option`.
- **The game session** (module `Session`):
  - the `state` and `score` records, as the fields of class `Session.Game`;
  - the handlers that update those records in place: start a game, start a
    round, answer, next, begin/restart, return to the start screen, the
    settings restart and the intro dialog;
  - the retry loop that picks a target (`pickRandomTargetPitch`);
  - `scoreTotal` and `scoreAccuracy`.

Only the inputs that decide behaviour are kept:
- `Math.random` is an oracle. Each operation that draws numbers takes a
  sequence `rolls` of draws in [0, 1), two per try.
- The values selected in the settings and intro dialogs are passed to their
  handlers as parameters.

The loops in the source stay loops, each proved against a function that
specifies it:
- `ScaleTheory.NoteNameToPc` sums the accidentals;
- `ScaleTheory.PushDegrees` is the seven-step loop of `spelledMajorScale`;
- `Session.Game.PickRandomTargetPitch` is the 14-try loop.

The main results:
- every spelled name parses back to its degree's pitch class;
- a spelled scale has seven distinct letters starting at the key's letter,
  and seven distinct pitch classes;
- each of the twelve menu keys is spelled with at most one accidental per
  degree, and only the key's own kind;
- pitch encoding and decoding round-trips for every integer pitch (in
  script.js, for every pitch a JavaScript number holds exactly; see
  "## Left out");
- the sample URL is always defined, and distinct pitches load distinct files;
- the target-pick loop returns the first candidate that does not repeat the
  last pitch, or else the fixed fallback;
- the handlers preserve the state invariant `Session.Game.Valid`, and each
  one's full effect on the records is stated.

Two behaviours of the code are easy to misread:
- **The spelling offset is not clamped to two accidentals.** The code's own
  comments call the first step "signed [-6..+5]" (script.js:551) and the
  second "Keep within the common major-key range" (script.js:553).
  `spelledMajorScale` first computes `((diff + 6) % 12) - 6` with the
  truncating `%`, then subtracts 12 from values above 2 and adds 12 to values
  below -2. This does not bring every offset into -2..2:
  - a difference of 3..5 comes back unchanged;
  - a difference of -6..-3 comes back as 6..9.

  `ScaleTheory.SpellOffsetRange` states the ranges the code actually gives.
  The pitch class is still always right (`ScaleTheory.SpellOffsetCongruent`,
  `ScaleTheory.NameRoundTrip`). Off the menu, "G##" spells its seventh degree
  "F###" (`ScaleTheory.ThreeSharpsOffMenu`). The twelve menu keys never reach
  these cases (`ScaleTheory.MenuKeysPlain`).
- **Accuracy 0 means no correct answers.** `scoreAccuracy`
  (script.js:780-784) returns 0 when nothing has been answered and otherwise
  `correct / total * 100`, so it is 0 exactly when there are no correct
  answers (`Session.ScoreAccuracy`).

## Model

| member | source | states |
|---|---|---|
| JsRuntime.JsRem12 | script.js:502-505 | `n % 12` with the dividend's sign: in 0..11 for n >= 0 and in -11..0 for n < 0 |
| JsRuntime.JsRem12Congruent | script.js:502-505 | the truncated remainder differs from its dividend by a multiple of 12 |
| JsRuntime.TrimStart | script.js:518 | the result of `trimStart` is empty or does not start with white space |
| JsRuntime.TrimEnd | script.js:518 | the result of `trimEnd` is empty or does not end with white space |
| JsRuntime.TrimDropsSpace | script.js:518 | `trim` returns a contiguous part of its input; everything before and after that part is white space |
| JsRuntime.Trim | script.js:518 | `String.prototype.trim`: `trimEnd` of `trimStart` (its properties are the `Trim*` lemmas) |
| JsRuntime.TrimOfTrimmed | script.js:518 | a string with no white space at either end is its own trim |
| JsRuntime.TrimIdempotent | script.js:518 | trimming twice is trimming once, so `spelledMajorScale` trimming the key and `noteNameToPc` trimming it again agree |
| JsRuntime.UpperChar | script.js:521 | `toUpperCase` maps a-z to A-Z and leaves every other character (for this model) as it is |
| JsRuntime.NatToDecimal | script.js:314-316 | the decimal form of a natural number is non-empty and all digits |
| JsRuntime.DecimalRoundTrip | script.js:314-316 | reading the decimal digits back gives the number |
| JsRuntime.IntToDecimal | script.js:314-316 | `String(n)` on the model's unbounded integers starts with `-` exactly for negative n and is otherwise all digits (in script.js only below 1e21 in magnitude; see "## Left out") |
| JsRuntime.IntToDecimalInjective | script.js:314-316 | different integers print differently |
| JsRuntime.Repeat | script.js:514 | `c.repeat(n)` has length n and holds only c |
| JsRuntime.CountUniform | script.js:524-529 | a string of one repeated character counts that character once per position and no other character at all |
| ScaleTheory.MajorStep | script.js:23 | the major-scale steps 0, 2, 4, 5, 7, 9, 11 are pitch classes |
| ScaleTheory.LetterIndex | script.js:45 | `LETTERS.indexOf`: -1 exactly off C..B, and otherwise the letter's position (also script.js:541) |
| ScaleTheory.LetterIndexOfLetter | script.js:45 | every letter's index is its own position |
| ScaleTheory.NaturalPc | script.js:46 | a natural letter's pitch class is in 0..11 |
| ScaleTheory.NaturalPcTable | script.js:46 | C 0, D 2, E 4, F 5, G 7, A 9, B 11 |
| ScaleTheory.Mod12 | script.js:502-505 | `mod12` lands in 0..11 |
| ScaleTheory.Mod12IsMod | script.js:502-505 | `mod12` is the Euclidean remainder by 12, for negative inputs too |
| ScaleTheory.Mod12Congruent | script.js:502-505 | numbers that agree modulo 12 get the same `mod12` |
| ScaleTheory.AccidentalFromDiff | script.js:507-515 | the accidental string has one character per semitone of the offset |
| ScaleTheory.AccidentalChars | script.js:507-515 | the accidentals are all `#` for a positive offset and all `b` for a negative one |
| ScaleTheory.AccidentalCounts | script.js:507-515 | the sharps less the flats of `accidentalFromDiff(d)` equal d |
| ScaleTheory.TrimmedNameToPc | script.js:519-530 | the parse of a trimmed name: letter, then `#`/`b` counts (specified by `ScaleTheory.NameToPcSpec`) |
| ScaleTheory.NameToPc | script.js:517-531 | `noteNameToPc`: trim, then parse (specified by `ScaleTheory.NameToPcSpec`) |
| ScaleTheory.NameToPcSpec | script.js:517-531 | null exactly when the trimmed name is empty or its upper-cased first character is not a note letter; otherwise a pitch class in 0..11 congruent to the natural pitch class plus the `#` count minus the `b` count |
| ScaleTheory.NoteNameToPc | script.js:517-531 | the accumulating loop computes the parse |
| ScaleTheory.SpellOffset | script.js:550-555 | the diff normalisation of `spelledMajorScale` (its ranges in `ScaleTheory.SpellOffsetRange`) |
| ScaleTheory.SpellOffsetRange | script.js:550-555 | the normalised offset lies in -5..9, and in -2..9 for pitch-class differences; 3..5 come back unchanged and -6..-3 come back as 6..9 |
| ScaleTheory.SpellOffsetCongruent | script.js:550-555 | normalising never changes the offset modulo 12 |
| ScaleTheory.Cycle7IsMod | script.js:546 | the letter cycle `(rootLetterIdx + i) % 7` without `%` |
| ScaleTheory.DegreePc | script.js:547 | the desired pitch class of a degree is in 0..11 |
| ScaleTheory.NaturalPcOfLetter | script.js:45-46 | the natural pitch class of the letter at position k is step k of the major scale (also script.js:548) |
| ScaleTheory.SpelledName | script.js:550-557 | the name `${letter}${accidentalFromDiff(diff)}` of a letter and a desired pitch class (specified by `ScaleTheory.SpelledNameParses`) |
| ScaleTheory.SpellDegree | script.js:546-558 | the degree pass i of the loop pushes (specified by `ScaleTheory.SpellDegreeShape`) |
| ScaleTheory.SpellDegrees | script.js:545-558 | the first n degrees, each the degree its position spells |
| ScaleTheory.SpelledMajorScale | script.js:533-560 | the method computes the spelled scale, null on the same keys |
| ScaleTheory.PushDegrees | script.js:545-558 | the loop pushes exactly the seven spelled degrees |
| ScaleTheory.SpellStep | script.js:546-558 | one pass of the loop builds degree i |
| ScaleTheory.SpellScale | script.js:533-560 | `spelledMajorScale` as a function (specified by `ScaleTheory.SpellScaleDefined` and `ScaleTheory.SpellScaleShape`) |
| ScaleTheory.SpellScaleDefined | script.js:533-560 | null exactly when the trimmed key's upper-cased first character is not a note letter; otherwise the key is the trimmed name, the root pitch class is the one the key parses to, and the degrees are spelled from the key's letter |
| ScaleTheory.MajorScaleDistinct | script.js:23-45 | in a major scale the seven letters are distinct and so are the seven pitch classes |
| ScaleTheory.SpellDegreeShape | script.js:545-558 | degree i is numbered i+1, starts with letter `(rootIdx+i) % 7` and has pitch class `(rootPc + step i) % 12` |
| ScaleTheory.SpelledDegreesShape | script.js:545-558 | the spelled degrees make the major scale on the root letter |
| ScaleTheory.SpellScaleShape | script.js:533-560 | every spelled scale has 7 degrees numbered 1..7 with letters cycling from the key's own letter and pitch classes root + steps; letters and pitch classes are each distinct |
| ScaleTheory.LetterNameTrimmed | script.js:518-557 | a letter followed by accidentals has nothing to trim |
| ScaleTheory.LetterNamePc | script.js:517-531 | a letter with accidentals worth d parses as the letter's natural pitch class plus d |
| ScaleTheory.LetterAccReads | script.js:517-557 | a letter followed by `#`/`b` accidentals worth d parses to `mod12(natural + d)` |
| ScaleTheory.SpelledNameReads | script.js:548-557 | a name spelled on a letter parses to the letter's natural pitch class shifted by the offset |
| ScaleTheory.SpellOffsetLands | script.js:547-555 | the normalised offset still lands the letter on the desired pitch class |
| ScaleTheory.SpelledNameParses | script.js:517-557 | any pitch class spelled on any letter parses back to itself |
| ScaleTheory.NameRoundTrip | script.js:517-558 | every spelled degree's name parses back to that degree's pitch class |
| ScaleTheory.SpellScaleNamesParse | script.js:517-560 | name round trip for every degree of every spelled scale |
| ScaleTheory.DegreeOffsetDirectAgrees | script.js:547-555 | the offset agrees with a computation by comparisons only, for roots in 0..11 |
| ScaleTheory.OffsetsWithinAll | script.js:550-555 | the recursive offset check gives the range for every degree |
| ScaleTheory.PlainSpelledName | script.js:507-557 | an offset in 0..1 gives at most one `#`, and one in -1..0 at most one `b` |
| ScaleTheory.PlainDegreeAt | script.js:557 | degree i has at most one accidental of the given kind when its offset allows |
| ScaleTheory.PlainDegrees | script.js:545-558 | with all offsets in range, every degree has at most one accidental, of one kind |
| ScaleTheory.KeyOptions | script.js:48-61 | the twelve keys of `KEY_OPTIONS` (every one plain by `ScaleTheory.MenuKeysPlain`) |
| ScaleTheory.KeyAccidental | script.js:48-61 | each menu key is assigned `#` or `b` |
| ScaleTheory.SpellTrimmedKey | script.js:533-560 | the spelled scale of a key that is its own trim |
| ScaleTheory.MenuKeyFromOffsets | script.js:48-61 | a key with in-range offsets is plain (also script.js:545-558) |
| ScaleTheory.MenuKeyChecked | script.js:48-61 | a trimmed key on a given letter and pitch class with in-range offsets is plain (also script.js:533-560) |
| ScaleTheory.OffsetsC | script.js:49 | C major's offsets are all in 0..1 (the other eleven `Offsets` lemmas do the same for their keys) |
| ScaleTheory.MenuKeyC | script.js:49 | C is accepted, and every degree has at most one `#` (the other eleven `MenuKey` lemmas do the same for their keys) |
| ScaleTheory.MenuKeyGb | script.js:55 | Gb is accepted, and every degree has at most one `b` |
| ScaleTheory.MenuKeyAt | script.js:48-61 | the menu key at each position of the list is plain |
| ScaleTheory.MenuKeysPlain | script.js:48-61 | every menu key is accepted; each degree has at most one accidental, flats for F and the flat keys, sharps for the rest (also script.js:533-560) |
| ScaleTheory.DegreeNameFromOffset | script.js:557 | a degree's name once its offset is known |
| ScaleTheory.GbDegreeNames | script.js:545-558 | the degrees from G with pitch class 6 are Gb Ab Bb Cb Db Eb F |
| ScaleTheory.GbMajorNames | script.js:55 | the key Gb is spelled Gb Ab Bb Cb Db Eb F (also script.js:533-560) |
| ScaleTheory.DoubleSharpKey | script.js:517-544 | "G##" is accepted, with root pitch class 9 on the letter G |
| ScaleTheory.ThreeSharpsOffMenu | script.js:550-557 | the key "G##" spells its seventh degree "F###", so the offset is not confined to two accidentals |
| ScaleTheory.FindDegree | script.js:1060 | `find` returns null exactly when no degree has the pitch class, and otherwise the first degree that has it |
| ScaleTheory.NameForPc | script.js:1058-1062 | a name exactly when a scale exists and one of its degrees has the pitch class, and then that degree's name |
| ScaleTheory.NameForSpelledPc | script.js:1058-1062 | in a spelled scale the lookup returns exactly the degree with that pitch class (also script.js:533-560) |
| Pitch.PitchFromPcOct | script.js:397 | `oct * 12 + pc` (inverted by `Pitch.PitchDecodeEncode` and `Pitch.PitchEncodeDecode`) |
| Pitch.PcFromPitch | script.js:398 | `pcFromPitch` lands in 0..11 for every integer |
| Pitch.OctFromPitch | script.js:399 | `Math.floor(p / 12)` bounds the pitch between `12 * oct` and `12 * oct + 11` |
| Pitch.PcFromPitchIsMod | script.js:398 | `pcFromPitch` agrees with `mod12` and the Euclidean remainder (also script.js:502-505) |
| Pitch.PitchDecodeEncode | script.js:397-399 | re-encoding a decoded pitch gives it back, for every integer of the model (in script.js, below 2^53 in magnitude) |
| Pitch.PitchEncodeDecode | script.js:397-399 | decoding an encoded pitch class in 0..11 and an octave gives them back |
| Pitch.Stem | script.js:29-42 | the `PC_TO_STEM` table (its shape in `Pitch.StemShape`) |
| Pitch.StemShape | script.js:29-42 | every stem is a lower-case letter, plus "sharp" for the five black keys |
| Pitch.StemInjective | script.js:29-42 | distinct pitch classes have distinct stems |
| Pitch.GetStemForPc | script.js:401 | the table lookup at key `(pc + 12) % 12` with JavaScript's `%` (specified by `Pitch.GetStemForPcSpec`) |
| Pitch.GetStemForPcSpec | script.js:401 | the lookup finds a stem exactly for `pc >= -12` or a multiple of 12, and then the stem of `pc`'s pitch class |
| Pitch.NoteUrl | script.js:314-316 | `audio/<stem><oct>.mp3` (injective by `Pitch.NoteUrlInjective`) |
| Pitch.PitchUrl | script.js:449-455 | the URL `loadPitchBuffer` fetches, None on its no-stem branch (specified by `Pitch.PitchUrlDefined`) |
| Pitch.PitchUrlDefined | script.js:449-455 | for every pitch the stem lookup succeeds and the URL is `audio/<stem of its pitch class><its octave>.mp3` (also script.js:314-316) |
| Pitch.LetterPrefixShorter | script.js:314-316 | in a URL, a stem of letters and the octave's digits cannot overlap |
| Pitch.NoteUrlInjective | script.js:314-316 | the URL determines the stem and the octave |
| Pitch.PitchUrlInjective | script.js:449-455 | different pitches load different sample files |
| Session.ScoreTotal | script.js:776-778 | `correct + incorrect` |
| Session.ScoreAccuracy | script.js:776-784 | accuracy is in 0..100; it is 0 exactly when nothing is correct; otherwise accuracy times total is 100 times correct |
| Session.AccuracyAfterCorrect | script.js:776-784 | a correct answer never lowers the accuracy (also script.js:1175-1176) |
| Session.AccuracyAfterIncorrect | script.js:776-784 | an incorrect answer never raises the accuracy (also script.js:1175-1176) |
| Session.IsCorrectAnswerSpec | script.js:1161 | an answer is right exactly when it differs from the target's pitch class by a multiple of 12 |
| Session.RandomIndex | script.js:1031-1035 | `randomInt(0, n-1)` on a draw in [0, 1) is a valid index |
| Session.Octaves | script.js:1044 | the octave list is never empty |
| Session.DegreePcs | script.js:1040 | `degrees.map(d => d.pc)`: same length, the pitch classes in order |
| Session.MaxTries | script.js:1046 | the try bound `tries < 14` (used by `Session.TryPickFirstFresh`) |
| Session.Candidate | script.js:1047-1050 | the candidate of one try, from two draws (its shape in `Session.CandidateShape`) |
| Session.Fallback | script.js:1054-1055 | degree 1 in octave 4, whatever the range mode |
| Session.TryPick | script.js:1046-1055 | the retry loop from a given try on (specified by `Session.TryPickFirstFresh`) |
| Session.CandidateShape | script.js:1047-1050 | each try's candidate is a degree's pitch class in one of the octaves |
| Session.TryPickFirstFresh | script.js:1047-1055 | the retry loop returns the first candidate that does not repeat the last pitch, or degree 1 in octave 4 when all 14 repeat |
| Session.PickTarget | script.js:1037-1056 | `pickRandomTargetPitch` as a function (specified by `Session.PickTargetSpec`) |
| Session.PickTargetSpec | script.js:1037-1056 | a pick exactly when a scale with degrees exists; its pitch class is a degree's; it is in an octave of the range mode and new, or it is the fallback |
| Session.SpellScaleWellSpelled | script.js:533-560 | a spelled scale has 7 degrees with pitch classes in 0..11 and non-empty names |
| Session.SpellScaleReadsBack | script.js:517-560 | each degree name of a spelled scale parses to its own pitch class |
| Session.PickFromScale | script.js:1037-1062 | from a well-spelled scale a pick is made, in octave 3, 4 or 5, and the scale names its pitch class |
| Session.NoName | script.js:1081 | the fallback name literal of a target (never shown for a pick from a spelled scale, by `Session.MakeTargetNamed`) |
| Session.MakeTarget | script.js:1078-1082 | the target record of a pick, named by `noteNameForPcInScale` or the fallback literal (specified by `Session.MakeTargetNamed`) |
| Session.MakeTargetNamed | script.js:1078-1082 | the fallback name is never shown for such a pick; the name shown reads back as the target's pitch class |
| Session.TargetHasSample | script.js:449-455 | a target's pitch decodes to its pitch class in octave 3..5 and has a sample URL |
| Session.IsCorrectAnswer | script.js:1161 | `mod12(pc) === mod12(state.target.pc)` (specified by `Session.IsCorrectAnswerSpec`) |
| Session.Game.constructor | script.js:718-728 | the initial records with range "one", key "C" and the scale spelled from "C" applied (also script.js:1651-1654) |
| Session.Game.ApplyRangeMode | script.js:1468-1472 | anything but "multi" selects "one"; nothing else changes |
| Session.Game.ApplyScaleKey | script.js:972-979 | the key is stored even when it cannot be parsed, and the scale is spelled from it; nothing else changes |
| Session.Game.PickRandomTargetPitch | script.js:1037-1056 | the 14-try loop computes the specified pick |
| Session.Game.StartRound | script.js:1064-1092 | a no-op unless started; otherwise no answer is awaited, a pick sets the target and the last pitch, and a scale always yields a target |
| Session.Game.StartGameFromKey | script.js:1101-1125 | an unparsable key changes nothing; otherwise key and scale are taken, the score is 0/0, the game is started and the first round's target is the pick with no last pitch |
| Session.Game.StartWithScale | script.js:1111-1124 | the part of `startGameFromKey` after the key `k` has been spelled as `sc`: key `k`, scale `sc` (so the scale is the one spelled from the key), score 0/0, started, and the first round with no last pitch |
| Session.Game.OnAnswerClick | script.js:1151-1195 | ignored unless started, not awaiting and with a target; otherwise exactly one count goes up, by `mod12` equality, the result is recorded and the next round is awaited; target and settings unchanged |
| Session.Game.ResetToReady | script.js:1133-1139 | game state and score cleared, settings unchanged |
| Session.Game.ReturnToStartScreen | script.js:1127-1149 | not started, nothing awaited, no target or last pitch, score 0/0, settings unchanged |
| Session.Game.SettingsRestart | script.js:989-998 | no change unless a selection differs from the applied setting; otherwise the reset and the new key (default "C") and range mode applied (also script.js:1500-1540) |
| Session.Game.IntroContinue | script.js:1544-1561 | the selected (or default) key and range mode are applied; the game state and score are unchanged |
| Session.Game.BeginClick | script.js:1388-1397 | before a game, exactly `startGameFromKey` on the applied key (nothing changes for an unparsable key; otherwise score 0/0, started, the first pick as target with no last pitch); during a game, exactly `returnToStartScreen` |
| Session.Game.NextClick | script.js:1403-1409 | no change unless started and awaiting the next round; otherwise exactly `startRound`: nothing awaited, the pick (or no target without one) as target and last pitch, everything else unchanged (also script.js:1623-1628) |

## Left out

- The Web Audio graph and playback are not modelled. This covers `ensureAudioGraph`, voices, gain ramps, `playPitch`, the synthesised fallback and `pitchToFrequency`. They are browser APIs and floating-point clock arithmetic.
- The fetch/decode/cache of `loadBuffer` and the `await` in `loadPitchBuffer` are not modelled, because they are network I/O. `Pitch.PitchUrl` models the URL it computes, including the null-stem branch.
- The flat literal at script.js:528 is left out. It is a three-character string and can never equal one character `ch`, so only `#` and `b` are modelled.
- `Math.random` is an oracle (`rolls`), as the description above says.
- JavaScript numbers are doubles, while the model's pitches, octaves and counts are unbounded integers. `Pitch.PitchDecodeEncode`, `Pitch.PitchEncodeDecode`, `Pitch.PitchUrlDefined`, `Pitch.PitchUrlInjective` and `JsRuntime.IntToDecimal` hold of script.js only for magnitudes below 2^53, where `oct * 12 + pc` and `Math.floor(p / 12)` are exact. `String(n)` is digits only below 1e21 in magnitude, so the URL form holds only there. The game itself only reaches octaves 3 to 5.
- `Session.ScoreAccuracy` is computed on exact reals; the double rounding of `c / t * 100` is not modelled.
- `Session.RandomIndex`: `Math.floor(u * n)` is computed on exact reals. Floating-point rounding of the product is not modelled.
- `ScaleTheory.NoteNameToPc`: `String(name)` coercion of non-strings is not modelled; names are strings.
- `JsRuntime.UpperChar`: `toUpperCase` is exact for ASCII only. No other character upper-cases to one of the letters A–G, so whether a name parses, and to what, does not depend on the rest.
- `Session.Game.OnAnswerClick`: the handler receives the pitch class as an integer. The `Number(btn.dataset.pc)` conversion and its not-finite early return are outside the model.
- `Session.Game.SettingsRestart`: the `disabled` flag of the button is modelled as the dirty comparison it is set from (script.js:989-998). The model assumes the flag is up to date when the click arrives.
- DOM and UI are not modelled: rendering, modals, focus, feedback text, `keyLabel`/`rangeLabel`, the keyboard, the scorecard canvas, CSS time parsing, UI sounds, `localStorage` (`saveKey`/`saveRange`), timers and `requestAnimationFrame`.
- `replayTarget`, `playScaleReference` and `playTonicReference` are not modelled. They only play audio, and they do not change `state` or `score`.
- The `!nextBtn.disabled` test of the Space key reads the button state that `updateControls` sets from `started && awaitingNext`. `Session.Game.NextClick` models that condition directly.
- `ScaleTheory.PushDegrees`: the diff normalisation at script.js:550-555 is a call to `ScaleTheory.SpellOffset` in the loop, not three inline statements.
- `ScaleTheory.NoteNameToPc`, `ScaleTheory.SpelledMajorScale` and `Session.Game.PickRandomTargetPitch` are stated as equal to their specification functions. The properties of those functions are in the lemmas listed above.
- `Session.Game.Valid` does not require the scale to be the one spelled from the key. Every method that sets either one states that relation in its own `ensures`.
