/**
  Scale spelling: parsing a note name into a pitch class and spelling the
  seven degrees of a major scale with letters and accidentals.
 */
module ScaleTheory {
  import opened JsRuntime

  /** Semitones of degree `i + 1` above the root: 0, 2, 4, 5, 7, 9, 11. */
  function MajorStep(i: int): (s: int)
    requires 0 <= i < 7
    ensures 0 <= s < 12
  {
    match i
    case 0 => 0 case 1 => 2 case 2 => 4 case 3 => 5 case 4 => 7 case 5 => 9 case 6 => 11
  }

  /** The letters in the order scale degrees advance through them:
      C, D, E, F, G, A, B. */
  function Letter(i: int): (c: char)
    requires 0 <= i < 7
  {
    if i < 5 then ('C' as int + i) as char else if i == 5 then 'A' else 'B'
  }

  /** The note letters C, D, E, F, G, A and B. */
  predicate IsNoteLetter(c: char) {
    'A' <= c <= 'G'
  }

  /** Position of `c` among the letters, -1 when absent (`Array.prototype.indexOf`). */
  function LetterIndex(c: char): (r: int)
    ensures -1 <= r < 7
    ensures r >= 0 <==> IsNoteLetter(c)
    ensures r >= 0 ==> Letter(r) == c
  {
    var n := c as int;
    if 'C' as int <= n <= 'G' as int then n - 'C' as int
    else if n == 'A' as int then 5
    else if n == 'B' as int then 6
    else -1
  }

  /** Each letter's position is the one it sits at. */
  lemma LetterIndexOfLetter(i: int)
    requires 0 <= i < 7
    ensures LetterIndex(Letter(i)) == i
  {
  }

  /** Pitch class of each natural (accidental-free) letter: C 0, D 2, E 4,
      F 5, G 7, A 9, B 11, which are the steps of the C major scale. */
  function NaturalPc(letter: char): (pc: int)
    requires IsNoteLetter(letter)
    ensures 0 <= pc < 12
  {
    MajorStep(LetterIndex(letter))
  }

  /** The natural pitch classes letter by letter. */
  lemma NaturalPcTable()
    ensures NaturalPc('C') == 0 && NaturalPc('D') == 2 && NaturalPc('E') == 4 && NaturalPc('F') == 5
    ensures NaturalPc('G') == 7 && NaturalPc('A') == 9 && NaturalPc('B') == 11
  {
  }

  /** The keys offered in the scale menu. */
  const KeyOptions: seq<string> :=
    ["C", "Db", "D", "Eb", "E", "F", "Gb", "G", "Ab", "A", "Bb", "B"]

  datatype Degree = Degree(degree: int, name: string, pc: int)

  datatype Scale = Scale(key: string, rootPc: int, degrees: seq<Degree>)

  /** Pitch class of any integer: the truncated remainder, lifted into 0..11. */
  function Mod12(n: int): (r: int)
    ensures 0 <= r < 12
  {
    var x := JsRem12(n);
    if x < 0 then x + 12 else x
  }

  /** `Mod12` is the Euclidean remainder. */
  lemma Mod12IsMod(n: int)
    ensures Mod12(n) == n % 12
  {
    JsRem12Congruent(n);
    var r := Mod12(n);
    assert (n - r) % 12 == 0;
    var k := (n - r) / 12;
    assert n == 12 * k + r;
  }

  /** The accidental string for a signed semitone offset from the natural
      letter: `d` sharps when `d` is positive, `-d` flats when negative. */
  function AccidentalFromDiff(d: int): (r: string)
    ensures |r| == if d >= 0 then d else -d
  {
    if d == 0 then ""
    else if d == 1 then "#"
    else if d == 2 then "##"
    else if d == -1 then "b"
    else if d == -2 then "bb"
    else if d > 0 then Repeat('#', d)
    else Repeat('b', -d)
  }

  /** The accidentals are all sharps for a positive offset and all flats
      otherwise. */
  lemma AccidentalChars(d: int)
    ensures forall k :: 0 <= k < |AccidentalFromDiff(d)| ==>
              AccidentalFromDiff(d)[k] == (if d > 0 then '#' else 'b')
  {
  }

  /** Pitch class named by an already trimmed name `s`: None when `s` is
      empty or its first character, upper-cased, is not a note letter. Every
      `#` after the first character raises by one, every `b` lowers by one,
      and all other characters are ignored. */
  function TrimmedNameToPc(s: string): Option<int> {
    if s == [] then None
    else
      var letter := UpperChar(s[0]);
      if !IsNoteLetter(letter) then None
      else Some(Mod12(NaturalPc(letter) + Count('#', s[1..]) - Count('b', s[1..])))
  }

  /** Pitch class named by `name` once trimmed. */
  function NameToPc(name: string): Option<int> {
    TrimmedNameToPc(Trim(name))
  }

  /** A name is refused exactly when, once trimmed, it is empty or its first
      character upper-cased is not a note letter. Otherwise it names a pitch
      class in 0..11 that agrees modulo 12 with the letter's natural pitch
      class plus one per `#` and minus one per `b` after the letter. */
  lemma NameToPcSpec(name: string)
    ensures var s := Trim(name);
      NameToPc(name).None? <==> s == [] || !IsNoteLetter(UpperChar(s[0]))
    ensures var s := Trim(name);
      NameToPc(name).Some? ==>
        && 0 <= NameToPc(name).value < 12
        && (NameToPc(name).value - (NaturalPc(UpperChar(s[0])) + Count('#', s[1..]) - Count('b', s[1..]))) % 12 == 0
  {
    var s := Trim(name);
    if s != [] && IsNoteLetter(UpperChar(s[0])) {
      Mod12IsMod(NaturalPc(UpperChar(s[0])) + Count('#', s[1..]) - Count('b', s[1..]));
    }
  }

  /** `noteNameToPc`: the accidentals are summed by a loop over the characters
      after the letter. */
  method NoteNameToPc(name: string) returns (r: Option<int>)
    ensures r == NameToPc(name)
  {
    var s := Trim(name);
    if |s| == 0 {
      return None;
    }
    var letter := UpperChar(s[0]);
    if !IsNoteLetter(letter) {
      return None;
    }
    var acc := s[1..];
    var delta := 0;
    var i := 0;
    while i < |acc|
      invariant 0 <= i <= |acc|
      invariant delta == Count('#', acc[..i]) - Count('b', acc[..i])
    {
      assert acc[..i + 1][..i] == acc[..i];
      var ch := acc[i];
      if ch == '#' {
        delta := delta + 1;
      } else if ch == 'b' {
        delta := delta - 1;
      }
      i := i + 1;
    }
    assert acc[..|acc|] == acc;
    return Some(Mod12(NaturalPc(letter) + delta));
  }

  /** The offset a degree's accidentals encode, from `desired - natural`:
      first `((diff + 6) % 12) - 6` with JavaScript's truncating `%`, then
      `-12` when above 2, then `+12` when below -2. The offset always agrees
      with its input modulo 12; it is not confined to -2..2: inputs 3..5 come
      back as they are and -6..-3 come back as 6..9. */
  function SpellOffset(diff: int): int {
    var d1 := JsRem12(diff + 6) - 6;
    var d2 := if d1 > 2 then d1 - 12 else d1;
    if d2 < -2 then d2 + 12 else d2
  }

  /** The offset lies in -5..9, and in -2..9 for the differences of two
      pitch classes; inputs 3..5 come back unchanged and -6..-3 raised by 12. */
  lemma SpellOffsetRange(diff: int)
    ensures -5 <= SpellOffset(diff) <= 9
    ensures -11 <= diff <= 11 ==> -2 <= SpellOffset(diff)
    ensures 3 <= diff <= 5 ==> SpellOffset(diff) == diff
    ensures -6 <= diff <= -3 ==> SpellOffset(diff) == diff + 12
  {
  }

  /** The offset agrees with its input modulo 12. */
  lemma SpellOffsetCongruent(diff: int)
    ensures (SpellOffset(diff) - diff) % 12 == 0
  {
    JsRem12Congruent(diff + 6);
  }

  /** `n % 7` for `n` in 0..13, the letter position `i` steps after position
      `n - i`. */
  function Cycle7(n: int): (r: int)
    requires 0 <= n < 14
    ensures 0 <= r < 7
  {
    if n < 7 then n else n - 7
  }

  lemma Cycle7IsMod(n: int)
    requires 0 <= n < 14
    ensures Cycle7(n) == n % 7
  {
  }

  /** Pitch class of degree `i` (0-based) of the major scale on `rootPc`. */
  function DegreePc(rootPc: int, i: int): (pc: int)
    requires 0 <= i < 7
    ensures 0 <= pc < 12
  {
    Mod12(rootPc + MajorStep(i))
  }

  /** The name of pitch class `pc` written on the letter at position `k`: the
      letter and the accidentals for the offset of `pc` from the letter's
      natural pitch class `MajorStep(k)` (see `NaturalPcOfLetter`). */
  function SpelledName(k: int, pc: int): string
    requires 0 <= k < 7
  {
    [Letter(k)] + AccidentalFromDiff(SpellOffset(pc - MajorStep(k)))
  }

  /** The natural pitch class of the letter at position `k` is `MajorStep(k)`. */
  lemma NaturalPcOfLetter(k: int)
    requires 0 <= k < 7
    ensures IsNoteLetter(Letter(k)) && NaturalPc(Letter(k)) == MajorStep(k)
  {
    LetterIndexOfLetter(k);
  }

  /** Degree `i` (0-based) of the major scale on the letter at `rootIdx` with
      pitch class `rootPc`. */
  function SpellDegree(rootIdx: int, rootPc: int, i: int): (d: Degree)
    requires 0 <= rootIdx < 7 && 0 <= i < 7
  {
    Degree(i + 1, SpelledName(Cycle7(rootIdx + i), DegreePc(rootPc, i)), DegreePc(rootPc, i))
  }

  /** The first `n` degrees of the major scale on the letter at `rootIdx`. */
  function SpellDegrees(rootIdx: int, rootPc: int, n: nat): (r: seq<Degree>)
    requires 0 <= rootIdx < 7 && n <= 7
    ensures |r| == n && forall i :: 0 <= i < n ==> r[i] == SpellDegree(rootIdx, rootPc, i)
  {
    seq(n, i requires 0 <= i < n => SpellDegree(rootIdx, rootPc, i))
  }

  /** The spelled major scale on `keyName`, or None when its trimmed leading
      character, upper-cased, is not a note letter. */
  function SpellScale(keyName: string): Option<Scale> {
    var root := Trim(keyName);
    if root == [] || !IsNoteLetter(UpperChar(root[0])) then None
    else
      var rootLetter := UpperChar(root[0]);
      match NameToPc(root)
      case None => None
      case Some(rootPc) =>
        var idx := LetterIndex(rootLetter);
        if idx < 0 then None
        else Some(Scale(root, rootPc, SpellDegrees(idx, rootPc, 7)))
  }

  /** `spelledMajorScale`: the degrees are pushed one at a time by a loop. */
  method SpelledMajorScale(keyName: string) returns (r: Option<Scale>)
    ensures r == SpellScale(keyName)
  {
    var root := Trim(keyName);
    if |root| == 0 || !IsNoteLetter(UpperChar(root[0])) {
      return None;
    }
    var rootLetter := UpperChar(root[0]);
    var rootPcOpt := NoteNameToPc(root);
    if rootPcOpt.None? {
      return None;
    }
    var rootPc := rootPcOpt.value;
    var rootLetterIdx := LetterIndex(rootLetter);
    if rootLetterIdx < 0 {
      return None;
    }
    var degrees := PushDegrees(rootLetterIdx, rootPc);
    return Some(Scale(root, rootPc, degrees));
  }

  /** The loop of `spelledMajorScale` (script.js:545-558): seven passes, each
      pushing the degree on the next letter of the cycle. */
  method PushDegrees(rootLetterIdx: int, rootPc: int) returns (degrees: seq<Degree>)
    requires 0 <= rootLetterIdx < 7
    ensures degrees == SpellDegrees(rootLetterIdx, rootPc, 7)
  {
    degrees := [];
    var i := 0;
    while i < 7
      invariant 0 <= i <= 7
      invariant |degrees| == i
      invariant forall j :: 0 <= j < i ==> degrees[j] == SpellDegree(rootLetterIdx, rootPc, j)
    {
      var k := (rootLetterIdx + i) % 7;
      var letter := Letter(k);
      NaturalPcOfLetter(k);
      var desiredPc := Mod12(rootPc + MajorStep(i));
      var naturalPc := NaturalPc(letter);
      // The difference, normalised by `SpellOffset`.
      var diff := SpellOffset(desiredPc - naturalPc);
      var name := [letter] + AccidentalFromDiff(diff);
      SpellStep(rootLetterIdx, rootPc, i, k, diff);
      degrees := degrees + [Degree(i + 1, name, desiredPc)];
      i := i + 1;
    }
  }

  /** One pass of the loop of `SpelledMajorScale` builds degree `i`. */
  lemma SpellStep(rootIdx: int, rootPc: int, i: int, k: int, diff: int)
    requires 0 <= rootIdx < 7 && 0 <= i < 7 && k == (rootIdx + i) % 7
    requires diff == SpellOffset(Mod12(rootPc + MajorStep(i)) - MajorStep(k))
    ensures Degree(i + 1, [Letter(k)] + AccidentalFromDiff(diff), Mod12(rootPc + MajorStep(i))) ==
            SpellDegree(rootIdx, rootPc, i)
  {
    Cycle7IsMod(rootIdx + i);
  }


  // ---------------------------------------------------------------------------
  // Properties of spelled scales

  /** A key is refused exactly when its trimmed leading character, upper-cased,
      is not a note letter; otherwise the scale's key is the trimmed key name
      and its root pitch class is the one the name denotes. */
  lemma SpellScaleDefined(keyName: string)
    ensures SpellScale(keyName).None? <==>
            Trim(keyName) == [] || !IsNoteLetter(UpperChar(Trim(keyName)[0]))
    ensures SpellScale(keyName).Some? ==>
            var root := Trim(keyName);
            var idx := LetterIndex(UpperChar(root[0]));
            && NameToPc(keyName).Some?
            && 0 <= NameToPc(keyName).value < 12
            && 0 <= idx < 7
            && SpellScale(keyName) == Some(Scale(root, NameToPc(keyName).value,
                                                 SpellDegrees(idx, NameToPc(keyName).value, 7)))
  {
    TrimIdempotent(keyName);
    var root := Trim(keyName);
    assert NameToPc(root) == NameToPc(keyName);
    if root != [] && IsNoteLetter(UpperChar(root[0])) {
      assert NameToPc(root).Some?;
      assert LetterIndex(UpperChar(root[0])) >= 0;
    }
  }

  /** What makes `sc` the major scale on the letter at `letterIdx`: seven
      degrees numbered 1..7, letters cycling through `Letter` from that
      letter, each pitch class the root's plus the major-scale step. */
  predicate IsMajorScaleOn(sc: Scale, letterIdx: int) {
    && 0 <= letterIdx < 7
    && 0 <= sc.rootPc < 12
    && |sc.degrees| == 7
    && forall i :: 0 <= i < 7 ==> DegreeOn(sc.degrees[i], letterIdx, sc.rootPc, i)
  }

  /** `dg` is degree `i + 1` of the major scale on the letter at `letterIdx`
      with root pitch class `rootPc`: its number, its letter and its pitch
      class. */
  predicate DegreeOn(dg: Degree, letterIdx: int, rootPc: int, i: int)
    requires 0 <= i < 7
  {
    && dg.degree == i + 1
    && |dg.name| >= 1
    && dg.name[0] == Letter((letterIdx + i) % 7)
    && dg.pc == (rootPc + MajorStep(i)) % 12
  }

  /** Pitch class of degree `i` of a scale rooted at `rootPc`, without `%`. */
  lemma StepPc(rootPc: int, i: int)
    requires 0 <= rootPc < 12 && 0 <= i < 7
    ensures (rootPc + MajorStep(i)) % 12 ==
            if rootPc + MajorStep(i) < 12 then rootPc + MajorStep(i)
            else rootPc + MajorStep(i) - 12
  {
  }

  /** In a major scale the seven letters are distinct and so are the seven
      pitch classes. */
  lemma {:induction false} MajorScaleDistinct(sc: Scale, letterIdx: int)
    requires IsMajorScaleOn(sc, letterIdx)
    ensures forall i, j :: 0 <= i < j < 7 ==>
              sc.degrees[i].name[0] != sc.degrees[j].name[0] &&
              sc.degrees[i].pc != sc.degrees[j].pc
  {
    forall i, j | 0 <= i < j < 7
      ensures sc.degrees[i].name[0] != sc.degrees[j].name[0]
      ensures sc.degrees[i].pc != sc.degrees[j].pc
    {
      Cycle7IsMod(letterIdx + i);
      Cycle7IsMod(letterIdx + j);
      LetterIndexOfLetter((letterIdx + i) % 7);
      LetterIndexOfLetter((letterIdx + j) % 7);
      StepPc(sc.rootPc, i);
      StepPc(sc.rootPc, j);
    }
  }

  /** Each spelled degree has its number, its letter and its pitch class. */
  lemma SpellDegreeShape(rootIdx: int, rootPc: int, i: int)
    requires 0 <= rootIdx < 7 && 0 <= i < 7
    ensures DegreeOn(SpellDegree(rootIdx, rootPc, i), rootIdx, rootPc, i)
  {
    Cycle7IsMod(rootIdx + i);
    Mod12IsMod(rootPc + MajorStep(i));
  }

  /** Seven degrees, each the one its position spells from the letter at
      `rootIdx`, make the major scale on that letter. */
  lemma DegreesMakeMajorScale(key: string, rootIdx: int, rootPc: int, ds: seq<Degree>)
    requires 0 <= rootIdx < 7 && 0 <= rootPc < 12
    requires |ds| == 7 && forall i :: 0 <= i < 7 ==> ds[i] == SpellDegree(rootIdx, rootPc, i)
    ensures IsMajorScaleOn(Scale(key, rootPc, ds), rootIdx)
  {
    forall i | 0 <= i < 7
      ensures DegreeOn(ds[i], rootIdx, rootPc, i)
    {
      SpellDegreeShape(rootIdx, rootPc, i);
    }
  }

  /** The degrees spelled from the letter at `rootIdx` make the major scale
      on that letter. */
  lemma SpelledDegreesShape(key: string, rootIdx: int, rootPc: int)
    requires 0 <= rootIdx < 7 && 0 <= rootPc < 12
    ensures IsMajorScaleOn(Scale(key, rootPc, SpellDegrees(rootIdx, rootPc, 7)), rootIdx)
  {
    DegreesMakeMajorScale(key, rootIdx, rootPc, SpellDegrees(rootIdx, rootPc, 7));
  }


  /** The shape of every spelled scale: it is the major scale on the key's own
      letter, so its seven letters are distinct and begin with the key's
      letter, and its seven pitch classes are distinct. */
  lemma SpellScaleShape(keyName: string)
    requires SpellScale(keyName).Some?
    ensures var sc := SpellScale(keyName).value;
      && IsMajorScaleOn(sc, LetterIndex(UpperChar(Trim(keyName)[0])))
      && sc.degrees[0].name[0] == UpperChar(Trim(keyName)[0])
      && forall i, j :: 0 <= i < j < 7 ==>
           sc.degrees[i].name[0] != sc.degrees[j].name[0] &&
           sc.degrees[i].pc != sc.degrees[j].pc
  {
    SpellScaleDefined(keyName);
    var sc := SpellScale(keyName).value;
    var idx := LetterIndex(UpperChar(Trim(keyName)[0]));
    SpelledDegreesShape(sc.key, idx, sc.rootPc);
    MajorScaleDistinct(sc, idx);
  }

  /** The accidentals of a spelled name read back as the offset they encode. */
  lemma AccidentalCounts(d: int)
    ensures Count('#', AccidentalFromDiff(d)) - Count('b', AccidentalFromDiff(d)) == d
  {
    var a := AccidentalFromDiff(d);
    AccidentalChars(d);
    if d > 0 {
      CountUniform('#', 'b', a);
    } else {
      CountUniform('b', '#', a);
    }
  }

  /** A letter followed by accidentals has no white space to trim. */
  lemma LetterNameTrimmed(letter: char, acc: string)
    requires IsNoteLetter(letter)
    requires forall k :: 0 <= k < |acc| ==> acc[k] == '#' || acc[k] == 'b'
    ensures Trim([letter] + acc) == [letter] + acc
  {
    var name := [letter] + acc;
    assert !IsJsSpace(name[|name| - 1]);
    TrimOfTrimmed(name);
  }

  /** A letter followed by accidentals reads as the letter's natural pitch
      class shifted by `d`, the number of sharps less the number of flats. */
  lemma LetterNamePc(letter: char, acc: string, d: int)
    requires IsNoteLetter(letter)
    requires Trim([letter] + acc) == [letter] + acc
    requires d == Count('#', acc) - Count('b', acc)
    ensures NameToPc([letter] + acc) == Some(Mod12(NaturalPc(letter) + d))
  {
    var name := [letter] + acc;
    assert name[1..] == acc;
    assert UpperChar(name[0]) == letter;
    assert NaturalPc(letter) + Count('#', name[1..]) - Count('b', name[1..]) == NaturalPc(letter) + d;
  }

  /** Two numbers that agree modulo 12 have the same pitch class. */
  lemma Mod12Congruent(x: int, y: int)
    requires (x - y) % 12 == 0
    ensures Mod12(x) == Mod12(y)
  {
    Mod12IsMod(x);
    Mod12IsMod(y);
    var a, b, c := x / 12, y / 12, (x - y) / 12;
    assert x == 12 * a + x % 12 && y == 12 * b + y % 12 && x - y == 12 * c;
    assert x % 12 - y % 12 == 12 * (c - a + b);
  }

  /** A note letter followed by accidentals worth `d` reads as `m`, the
      letter's natural pitch class shifted by `d`. */
  lemma LetterAccReads(letter: char, acc: string, d: int, m: int)
    requires IsNoteLetter(letter)
    requires forall k :: 0 <= k < |acc| ==> acc[k] == '#' || acc[k] == 'b'
    requires Count('#', acc) - Count('b', acc) == d
    requires m == Mod12(NaturalPc(letter) + d)
    ensures NameToPc([letter] + acc) == Some(m)
  {
    LetterNameTrimmed(letter, acc);
    LetterNamePc(letter, acc, d);
  }

  /** A name spelled on the letter at `k` reads as `m`, the letter's natural
      pitch class shifted by the offset. */
  lemma SpelledNameReads(k: int, pc: int, m: int)
    requires 0 <= k < 7
    requires m == Mod12(MajorStep(k) + SpellOffset(pc - MajorStep(k)))
    ensures NameToPc(SpelledName(k, pc)) == Some(m)
  {
    var offset := SpellOffset(pc - MajorStep(k));
    var acc := AccidentalFromDiff(offset);
    AccidentalChars(offset);
    AccidentalCounts(offset);
    NaturalPcOfLetter(k);
    LetterAccReads(Letter(k), acc, offset, m);
  }

  /** The offset lands the letter's natural pitch class on `pc`. */
  lemma SpellOffsetLands(natural: int, pc: int)
    requires 0 <= pc < 12
    ensures Mod12(natural + SpellOffset(pc - natural)) == pc
  {
    var d := pc - natural;
    var offset := SpellOffset(d);
    SpellOffsetCongruent(d);
    var x := natural + offset;
    assert x - pc == offset - d;
    Mod12Congruent(x, pc);
    Mod12IsMod(pc);
  }

  /** A pitch class written on any letter parses back to itself. */
  lemma SpelledNameParses(k: int, pc: int)
    requires 0 <= k < 7 && 0 <= pc < 12
    ensures NameToPc(SpelledName(k, pc)) == Some(pc)
  {
    SpellOffsetLands(MajorStep(k), pc);
    SpelledNameReads(k, pc, pc);
  }

  /** Name round trip: every spelled degree's name parses back to that
      degree's pitch class. */
  lemma NameRoundTrip(rootIdx: int, rootPc: int, i: int)
    requires 0 <= rootIdx < 7 && 0 <= i < 7
    ensures NameToPc(SpellDegree(rootIdx, rootPc, i).name) == Some(SpellDegree(rootIdx, rootPc, i).pc)
  {
    SpelledNameParses(Cycle7(rootIdx + i), DegreePc(rootPc, i));
  }

  /** Name round trip for whole scales. */
  lemma SpellScaleNamesParse(keyName: string)
    requires SpellScale(keyName).Some?
    ensures forall dg :: dg in SpellScale(keyName).value.degrees ==> NameToPc(dg.name) == Some(dg.pc)
  {
    SpellScaleDefined(keyName);
    var sc := SpellScale(keyName).value;
    var idx := LetterIndex(UpperChar(Trim(keyName)[0]));
    forall i | 0 <= i < 7
      ensures NameToPc(sc.degrees[i].name) == Some(sc.degrees[i].pc)
    {
      NameRoundTrip(idx, sc.rootPc, i);
    }
  }

  // ---------------------------------------------------------------------------
  // The twelve menu keys

  /** The offset the accidentals of degree `i` encode. */
  function DegreeOffset(rootIdx: int, rootPc: int, i: int): int
    requires 0 <= rootIdx < 7 && 0 <= i < 7
  {
    SpellOffset(DegreePc(rootPc, i) - MajorStep(Cycle7(rootIdx + i)))
  }

  /** `DegreeOffset` again, for a root pitch class in 0..11, computed with
      comparisons only: every difference it handles lies in -11..11, where
      the truncating remainder by 12 is at most one subtraction. It is not a
      second model of the source; it exists only so that the offsets of the
      menu keys can be evaluated on constants (`DegreeOffsetDirectAgrees`
      ties the two). */
  function DegreeOffsetDirect(rootIdx: int, rootPc: int, i: int): int
    requires 0 <= rootIdx < 7 && 0 <= i < 7
  {
    var t := rootPc + MajorStep(i);
    var desired := if t >= 12 then t - 12 else t;
    var n := rootIdx + i;
    var d := desired - MajorStep(if n >= 7 then n - 7 else n);
    var d1 := if d >= 6 then d - 12 else d;
    var d2 := if d1 > 2 then d1 - 12 else d1;
    if d2 < -2 then d2 + 12 else d2
  }

  lemma DegreeOffsetDirectAgrees(rootIdx: int, rootPc: int, i: int)
    requires 0 <= rootIdx < 7 && 0 <= i < 7 && 0 <= rootPc < 12
    ensures DegreeOffset(rootIdx, rootPc, i) == DegreeOffsetDirect(rootIdx, rootPc, i)
  {
  }

  /** The offsets of degrees `i`..7 lie in `lo..hi`; by recursion, so that it
      can be evaluated on constants. */
  predicate OffsetsWithin(rootIdx: int, rootPc: int, lo: int, hi: int, i: nat)
    requires 0 <= rootIdx < 7 && i <= 7
    decreases 7 - i
  {
    if i == 7 then true
    else if lo <= DegreeOffsetDirect(rootIdx, rootPc, i) <= hi then OffsetsWithin(rootIdx, rootPc, lo, hi, i + 1)
    else false
  }

  lemma {:induction false} OffsetsWithinAll(rootIdx: int, rootPc: int, lo: int, hi: int, i: nat)
    requires 0 <= rootIdx < 7 && i <= 7
    requires OffsetsWithin(rootIdx, rootPc, lo, hi, i)
    ensures forall j :: i <= j < 7 ==> lo <= DegreeOffsetDirect(rootIdx, rootPc, j) <= hi
    decreases 7 - i
  {
    if i < 7 {
      OffsetsWithinAll(rootIdx, rootPc, lo, hi, i + 1);
    }
  }

  /** A note letter followed by at most one accidental, and that one `acc`. */
  predicate PlainName(name: string, acc: char) {
    1 <= |name| <= 2 && (|name| == 2 ==> name[1] == acc)
  }

  /** A name whose offset is in 0..1 has at most one sharp; one whose
      offset is in -1..0 has at most one flat. */
  lemma PlainSpelledName(k: int, pc: int, acc: char)
    requires 0 <= k < 7
    requires acc == '#' ==> 0 <= SpellOffset(pc - MajorStep(k)) <= 1
    requires acc != '#' ==> acc == 'b' && -1 <= SpellOffset(pc - MajorStep(k)) <= 0
    ensures PlainName(SpelledName(k, pc), acc)
  {
    var offset := SpellOffset(pc - MajorStep(k));
    var name := SpelledName(k, pc);
    assert name == [Letter(k)] + AccidentalFromDiff(offset);
    if offset == 1 {
      assert name[1] == '#';
    } else if offset == -1 {
      assert name[1] == 'b';
    }
  }

  /** Degree `i` is spelled with at most one `acc` when its offset allows. */
  lemma PlainDegreeAt(rootIdx: int, rootPc: int, i: int, acc: char)
    requires 0 <= rootIdx < 7 && 0 <= i < 7
    requires acc == '#' ==> 0 <= DegreeOffset(rootIdx, rootPc, i) <= 1
    requires acc != '#' ==> acc == 'b' && -1 <= DegreeOffset(rootIdx, rootPc, i) <= 0
    ensures PlainName(SpellDegree(rootIdx, rootPc, i).name, acc)
  {
    PlainSpelledName(Cycle7(rootIdx + i), DegreePc(rootPc, i), acc);
  }

  /** A scale whose offsets are all in 0..1 is spelled with at most one sharp
      per degree; one whose offsets are all in -1..0 with at most one flat. */
  lemma PlainDegrees(rootIdx: int, rootPc: int, acc: char)
    requires 0 <= rootIdx < 7 && 0 <= rootPc < 12
    requires acc == '#' ==> OffsetsWithin(rootIdx, rootPc, 0, 1, 0)
    requires acc != '#' ==> acc == 'b' && OffsetsWithin(rootIdx, rootPc, -1, 0, 0)
    ensures forall i :: 0 <= i < 7 ==> PlainName(SpellDegree(rootIdx, rootPc, i).name, acc)
  {
    if acc == '#' {
      OffsetsWithinAll(rootIdx, rootPc, 0, 1, 0);
    } else {
      OffsetsWithinAll(rootIdx, rootPc, -1, 0, 0);
    }
    forall i | 0 <= i < 7
      ensures PlainName(SpellDegree(rootIdx, rootPc, i).name, acc)
    {
      DegreeOffsetDirectAgrees(rootIdx, rootPc, i);
      PlainDegreeAt(rootIdx, rootPc, i, acc);
    }
  }

  /** Menu keys whose scales are spelled with flats: F and the keys written
      with a flat. */
  predicate IsFlatKey(k: string) {
    k == "F" || (|k| == 2 && k[1] == 'b')
  }

  /** The accidental a menu key's scale is spelled with. */
  function KeyAccidental(k: string): (c: char)
    ensures c == '#' || c == 'b'
  {
    if IsFlatKey(k) then 'b' else '#'
  }

  /** The menu key `k` is accepted, and every degree of its scale has at most
      one accidental, the key's own. */
  predicate MenuKeyPlain(k: string) {
    && SpellScale(k).Some?
    && |SpellScale(k).value.degrees| == 7
    && forall i :: 0 <= i < 7 ==> PlainName(SpellScale(k).value.degrees[i].name, KeyAccidental(k))
  }

  /** `SpellScale` on a key that is its own trim, whose letter sits at
      `rootIdx` and which names `rootPc`. */
  lemma SpellTrimmedKey(k: string, rootIdx: int, rootPc: int)
    requires Trim(k) == k && k != []
    requires 0 <= rootIdx && LetterIndex(UpperChar(k[0])) == rootIdx
    requires TrimmedNameToPc(k) == Some(rootPc)
    ensures SpellScale(k) == Some(Scale(k, rootPc, SpellDegrees(rootIdx, rootPc, 7)))
  {
  }

  /** A menu key spelled from the letter at `rootIdx` with pitch class
      `rootPc`, whose offsets are within the key's accidental. */
  lemma MenuKeyFromOffsets(k: string, rootIdx: int, rootPc: int)
    requires 0 <= rootIdx < 7 && 0 <= rootPc < 12
    requires SpellScale(k) == Some(Scale(k, rootPc, SpellDegrees(rootIdx, rootPc, 7)))
    requires KeyAccidental(k) == '#' ==> OffsetsWithin(rootIdx, rootPc, 0, 1, 0)
    requires KeyAccidental(k) == 'b' ==> OffsetsWithin(rootIdx, rootPc, -1, 0, 0)
    ensures MenuKeyPlain(k)
  {
    PlainDegrees(rootIdx, rootPc, KeyAccidental(k));
  }
  /** A key that is its own trim, on the letter at `rootIdx` and naming
      `rootPc`, whose offsets are within its accidental, is plain. */
  lemma MenuKeyChecked(k: string, rootIdx: int, rootPc: int)
    requires Trim(k) == k && k != []
    requires 0 <= rootIdx && LetterIndex(UpperChar(k[0])) == rootIdx
    requires TrimmedNameToPc(k) == Some(rootPc) && 0 <= rootPc < 12
    requires KeyAccidental(k) == '#' ==> OffsetsWithin(rootIdx, rootPc, 0, 1, 0)
    requires KeyAccidental(k) == 'b' ==> OffsetsWithin(rootIdx, rootPc, -1, 0, 0)
    ensures MenuKeyPlain(k)
  {
    SpellTrimmedKey(k, rootIdx, rootPc);
    MenuKeyFromOffsets(k, rootIdx, rootPc);
  }

  // The twelve menu keys, one pair of lemmas each. `OffsetsX` evaluates the
  // seven offsets of key X on constants, and `MenuKeyX` turns that into
  // `MenuKeyPlain("X")`. They exist only because `MenuKeyAt` needs one fact
  // per literal key; the result a reader wants is `MenuKeysPlain` below.

  lemma OffsetsC()
    ensures OffsetsWithin(0, 0, 0, 1, 0)
  {
  }

  lemma MenuKeyC()
    ensures MenuKeyPlain("C")
  {
    assert Trim("C") == "C";
    assert LetterIndex(UpperChar("C"[0])) == 0;
    assert TrimmedNameToPc("C") == Some(0);
    assert KeyAccidental("C") == '#';
    OffsetsC();
    MenuKeyChecked("C", 0, 0);
  }

  lemma OffsetsDb()
    ensures OffsetsWithin(1, 1, -1, 0, 0)
  {
  }

  lemma MenuKeyDb()
    ensures MenuKeyPlain("Db")
  {
    assert Trim("Db") == "Db";
    assert LetterIndex(UpperChar("Db"[0])) == 1;
    assert TrimmedNameToPc("Db") == Some(1);
    assert KeyAccidental("Db") == 'b';
    OffsetsDb();
    MenuKeyChecked("Db", 1, 1);
  }

  lemma OffsetsD()
    ensures OffsetsWithin(1, 2, 0, 1, 0)
  {
  }

  lemma MenuKeyD()
    ensures MenuKeyPlain("D")
  {
    assert Trim("D") == "D";
    assert LetterIndex(UpperChar("D"[0])) == 1;
    assert TrimmedNameToPc("D") == Some(2);
    assert KeyAccidental("D") == '#';
    OffsetsD();
    MenuKeyChecked("D", 1, 2);
  }

  lemma OffsetsEb()
    ensures OffsetsWithin(2, 3, -1, 0, 0)
  {
  }

  lemma MenuKeyEb()
    ensures MenuKeyPlain("Eb")
  {
    assert Trim("Eb") == "Eb";
    assert LetterIndex(UpperChar("Eb"[0])) == 2;
    assert TrimmedNameToPc("Eb") == Some(3);
    assert KeyAccidental("Eb") == 'b';
    OffsetsEb();
    MenuKeyChecked("Eb", 2, 3);
  }

  lemma OffsetsE()
    ensures OffsetsWithin(2, 4, 0, 1, 0)
  {
  }

  lemma MenuKeyE()
    ensures MenuKeyPlain("E")
  {
    assert Trim("E") == "E";
    assert LetterIndex(UpperChar("E"[0])) == 2;
    assert TrimmedNameToPc("E") == Some(4);
    assert KeyAccidental("E") == '#';
    OffsetsE();
    MenuKeyChecked("E", 2, 4);
  }

  lemma OffsetsF()
    ensures OffsetsWithin(3, 5, -1, 0, 0)
  {
  }

  lemma MenuKeyF()
    ensures MenuKeyPlain("F")
  {
    assert Trim("F") == "F";
    assert LetterIndex(UpperChar("F"[0])) == 3;
    assert TrimmedNameToPc("F") == Some(5);
    assert KeyAccidental("F") == 'b';
    OffsetsF();
    MenuKeyChecked("F", 3, 5);
  }

  lemma OffsetsGb()
    ensures OffsetsWithin(4, 6, -1, 0, 0)
  {
  }

  lemma MenuKeyGb()
    ensures MenuKeyPlain("Gb")
  {
    assert Trim("Gb") == "Gb";
    assert LetterIndex(UpperChar("Gb"[0])) == 4;
    assert TrimmedNameToPc("Gb") == Some(6);
    assert KeyAccidental("Gb") == 'b';
    OffsetsGb();
    MenuKeyChecked("Gb", 4, 6);
  }

  lemma OffsetsG()
    ensures OffsetsWithin(4, 7, 0, 1, 0)
  {
  }

  lemma MenuKeyG()
    ensures MenuKeyPlain("G")
  {
    assert Trim("G") == "G";
    assert LetterIndex(UpperChar("G"[0])) == 4;
    assert TrimmedNameToPc("G") == Some(7);
    assert KeyAccidental("G") == '#';
    OffsetsG();
    MenuKeyChecked("G", 4, 7);
  }

  lemma OffsetsAb()
    ensures OffsetsWithin(5, 8, -1, 0, 0)
  {
  }

  lemma MenuKeyAb()
    ensures MenuKeyPlain("Ab")
  {
    assert Trim("Ab") == "Ab";
    assert LetterIndex(UpperChar("Ab"[0])) == 5;
    assert TrimmedNameToPc("Ab") == Some(8);
    assert KeyAccidental("Ab") == 'b';
    OffsetsAb();
    MenuKeyChecked("Ab", 5, 8);
  }

  lemma OffsetsA()
    ensures OffsetsWithin(5, 9, 0, 1, 0)
  {
  }

  lemma MenuKeyA()
    ensures MenuKeyPlain("A")
  {
    assert Trim("A") == "A";
    assert LetterIndex(UpperChar("A"[0])) == 5;
    assert TrimmedNameToPc("A") == Some(9);
    assert KeyAccidental("A") == '#';
    OffsetsA();
    MenuKeyChecked("A", 5, 9);
  }

  lemma OffsetsBb()
    ensures OffsetsWithin(6, 10, -1, 0, 0)
  {
  }

  lemma MenuKeyBb()
    ensures MenuKeyPlain("Bb")
  {
    assert Trim("Bb") == "Bb";
    assert LetterIndex(UpperChar("Bb"[0])) == 6;
    assert TrimmedNameToPc("Bb") == Some(10);
    assert KeyAccidental("Bb") == 'b';
    OffsetsBb();
    MenuKeyChecked("Bb", 6, 10);
  }

  lemma OffsetsB()
    ensures OffsetsWithin(6, 11, 0, 1, 0)
  {
  }

  lemma MenuKeyB()
    ensures MenuKeyPlain("B")
  {
    assert Trim("B") == "B";
    assert LetterIndex(UpperChar("B"[0])) == 6;
    assert TrimmedNameToPc("B") == Some(11);
    assert KeyAccidental("B") == '#';
    OffsetsB();
    MenuKeyChecked("B", 6, 11);
  }

  /** Every key in the menu is accepted and spelled with at most one
      accidental per degree: flats for F and the flat keys, sharps for the
      others, never both. */
  lemma MenuKeysPlain()
    ensures forall j :: 0 <= j < |KeyOptions| ==> MenuKeyPlain(KeyOptions[j])
  {
    forall j | 0 <= j < |KeyOptions|
      ensures MenuKeyPlain(KeyOptions[j])
    {
      MenuKeyAt(j);
    }
  }

  /** The menu key at position `j` is plain. */
  lemma MenuKeyAt(j: int)
    requires 0 <= j < |KeyOptions|
    ensures MenuKeyPlain(KeyOptions[j])
  {
    match j
    case 0 => assert KeyOptions[j] == "C"; MenuKeyC();
    case 1 => assert KeyOptions[j] == "Db"; MenuKeyDb();
    case 2 => assert KeyOptions[j] == "D"; MenuKeyD();
    case 3 => assert KeyOptions[j] == "Eb"; MenuKeyEb();
    case 4 => assert KeyOptions[j] == "E"; MenuKeyE();
    case 5 => assert KeyOptions[j] == "F"; MenuKeyF();
    case 6 => assert KeyOptions[j] == "Gb"; MenuKeyGb();
    case 7 => assert KeyOptions[j] == "G"; MenuKeyG();
    case 8 => assert KeyOptions[j] == "Ab"; MenuKeyAb();
    case 9 => assert KeyOptions[j] == "A"; MenuKeyA();
    case 10 => assert KeyOptions[j] == "Bb"; MenuKeyBb();
    case 11 => assert KeyOptions[j] == "B"; MenuKeyB();
  }

  /** The name of degree `i` once its offset is known to be `d`. */
  lemma DegreeNameFromOffset(rootIdx: int, rootPc: int, i: int, d: int, name: string)
    requires 0 <= rootIdx < 7 && 0 <= i < 7 && 0 <= rootPc < 12
    requires DegreeOffsetDirect(rootIdx, rootPc, i) == d
    requires name == [Letter(Cycle7(rootIdx + i))] + AccidentalFromDiff(d)
    ensures SpellDegree(rootIdx, rootPc, i).name == name
  {
    DegreeOffsetDirectAgrees(rootIdx, rootPc, i);
  }

  /** The degrees on G (letter position 4) from pitch class 6. */
  lemma GbDegreeNames()
    ensures SpellDegree(4, 6, 0).name == "Gb" && SpellDegree(4, 6, 1).name == "Ab"
    ensures SpellDegree(4, 6, 2).name == "Bb" && SpellDegree(4, 6, 3).name == "Cb"
    ensures SpellDegree(4, 6, 4).name == "Db" && SpellDegree(4, 6, 5).name == "Eb"
    ensures SpellDegree(4, 6, 6).name == "F"
  {
    DegreeNameFromOffset(4, 6, 0, -1, "Gb");
    DegreeNameFromOffset(4, 6, 1, -1, "Ab");
    DegreeNameFromOffset(4, 6, 2, -1, "Bb");
    DegreeNameFromOffset(4, 6, 3, -1, "Cb");
    DegreeNameFromOffset(4, 6, 4, -1, "Db");
    DegreeNameFromOffset(4, 6, 5, -1, "Eb");
    DegreeNameFromOffset(4, 6, 6, 0, "F");
  }

  /** Gb major is spelled Gb Ab Bb Cb Db Eb F. */
  lemma GbMajorNames()
    ensures SpellScale("Gb").Some?
    ensures var ds := SpellScale("Gb").value.degrees;
      |ds| == 7 && [ds[0].name, ds[1].name, ds[2].name, ds[3].name, ds[4].name, ds[5].name, ds[6].name] ==
                   ["Gb", "Ab", "Bb", "Cb", "Db", "Eb", "F"]
  {
    assert Trim("Gb") == "Gb";
    assert LetterIndex(UpperChar("Gb"[0])) == 4;
    assert TrimmedNameToPc("Gb") == Some(6);
    SpellTrimmedKey("Gb", 4, 6);
    GbDegreeNames();
  }

  /** "G##" is read as the letter G raised by two: pitch class 9. */
  lemma DoubleSharpKey()
    ensures SpellScale("G##") == Some(Scale("G##", 9, SpellDegrees(4, 9, 7)))
  {
    assert Trim("G##") == "G##";
    assert LetterIndex(UpperChar("G##"[0])) == 4;
    assert "G##"[1..] == "##";
    CountUniform('#', 'b', "##");
    assert TrimmedNameToPc("G##") == Some(9);
    SpellTrimmedKey("G##", 4, 9);
  }

  /** Off the menu the offset is not confined to two accidentals: G## major
      spells its seventh degree F###. */
  lemma ThreeSharpsOffMenu()
    ensures SpellScale("G##").Some? && SpellScale("G##").value.degrees[6].name == "F###"
  {
    DoubleSharpKey();
    DegreeOffsetDirectAgrees(4, 9, 6);
    assert DegreeOffsetDirect(4, 9, 6) == 3;
    assert AccidentalFromDiff(3) == "###";
  }

  // ---------------------------------------------------------------------------
  // Looking a pitch class up in a scale

  /** `Array.prototype.find` on the degrees: the first degree with pitch
      class `pc`. */
  function FindDegree(degrees: seq<Degree>, pc: int): (r: Option<Degree>)
    ensures r.None? <==> forall i :: 0 <= i < |degrees| ==> degrees[i].pc != pc
    ensures r.Some? ==> exists i :: 0 <= i < |degrees| && degrees[i] == r.value && r.value.pc == pc &&
                          forall j :: 0 <= j < i ==> degrees[j].pc != pc
  {
    if degrees == [] then None
    else if degrees[0].pc == pc then Some(degrees[0])
    else
      var r := FindDegree(degrees[1..], pc);
      assert r.Some? ==> exists i :: 0 <= i < |degrees[1..]| && degrees[1..][i] == r.value && r.value.pc == pc &&
                          forall j :: 0 <= j < i ==> degrees[1..][j].pc != pc;
      r
  }

  /** `noteNameForPcInScale`: the name of the first degree of `scale` with
      pitch class `pc`; None with no scale or no such degree. */
  function NameForPc(scale: Option<Scale>, pc: int): (r: Option<string>)
    ensures r.Some? <==> scale.Some? && exists dg :: dg in scale.value.degrees && dg.pc == pc
    ensures r.Some? ==> exists dg :: dg in scale.value.degrees && dg.pc == pc && dg.name == r.value
  {
    if scale.None? then None
    else
      match FindDegree(scale.value.degrees, pc)
      case None => None
      case Some(dg) => Some(dg.name)
  }

  /** In a spelled scale the lookup by pitch class returns exactly the degree
      with that pitch class (the pitch classes are distinct). */
  lemma NameForSpelledPc(keyName: string, i: int)
    requires SpellScale(keyName).Some? && 0 <= i < |SpellScale(keyName).value.degrees|
    ensures NameForPc(SpellScale(keyName), SpellScale(keyName).value.degrees[i].pc) ==
            Some(SpellScale(keyName).value.degrees[i].name)
  {
    SpellScaleShape(keyName);
    var sc := SpellScale(keyName).value;
    var r := FindDegree(sc.degrees, sc.degrees[i].pc);
    var k :| 0 <= k < |sc.degrees| && sc.degrees[k] == r.value && r.value.pc == sc.degrees[i].pc &&
             forall j :: 0 <= j < k ==> sc.degrees[j].pc != sc.degrees[i].pc;
    assert k == i;
  }
}
