/**
  Pitch arithmetic and sample locations. A pitch is the integer
  `oct * 12 + pc`; each pitch class has a sample stem spelled with sharps, and
  the sample for a pitch lives at `audio/<stem><oct>.mp3`.
 */
module Pitch {
  import opened JsRuntime
  import opened ScaleTheory

  /** `pitchFromPcOct`. */
  function PitchFromPcOct(pc: int, oct: int): int {
    oct * 12 + pc
  }

  /** `pcFromPitch`: `((p % 12) + 12) % 12` with JavaScript's `%`. */
  function PcFromPitch(p: int): (pc: int)
    ensures 0 <= pc < 12
  {
    JsRem12(JsRem12(p) + 12)
  }

  /** `octFromPitch`: `Math.floor(p / 12)`, which for the positive divisor is
      Dafny's division. */
  function OctFromPitch(p: int): (oct: int)
    ensures 12 * oct <= p < 12 * oct + 12
  {
    p / 12
  }

  /** `pcFromPitch` is the pitch class `Mod12` computes, the Euclidean
      remainder. */
  lemma PcFromPitchIsMod(p: int)
    ensures PcFromPitch(p) == Mod12(p) == p % 12
  {
    Mod12IsMod(p);
  }

  /** Decoding then encoding a pitch gives it back, for every integer. */
  lemma PitchDecodeEncode(p: int)
    ensures PitchFromPcOct(PcFromPitch(p), OctFromPitch(p)) == p
  {
    PcFromPitchIsMod(p);
  }

  /** Encoding a pitch class and an octave then decoding gives them back. */
  lemma PitchEncodeDecode(pc: int, oct: int)
    requires 0 <= pc < 12
    ensures PcFromPitch(PitchFromPcOct(pc, oct)) == pc
    ensures OctFromPitch(PitchFromPcOct(pc, oct)) == oct
  {
    var p := PitchFromPcOct(pc, oct);
    PcFromPitchIsMod(p);
    assert p == 12 * oct + pc;
  }

  /** The sample stems of the twelve pitch classes. */
  function Stem(pc: int): (s: string)
    requires 0 <= pc < 12
  {
    match pc
    case 0 => "c" case 1 => "csharp" case 2 => "d" case 3 => "dsharp"
    case 4 => "e" case 5 => "f" case 6 => "fsharp" case 7 => "g"
    case 8 => "gsharp" case 9 => "a" case 10 => "asharp" case 11 => "b"
  }

  /** Pitch classes that the stems write as a sharpened letter. */
  predicate IsSharpPc(pc: int) {
    pc == 1 || pc == 3 || pc == 6 || pc == 8 || pc == 10
  }

  /** The lower-case letter a stem starts with. */
  function StemLetter(pc: int): (c: char)
    requires 0 <= pc < 12
  {
    match pc
    case 0 => 'c' case 1 => 'c' case 2 => 'd' case 3 => 'd'
    case 4 => 'e' case 5 => 'f' case 6 => 'f' case 7 => 'g'
    case 8 => 'g' case 9 => 'a' case 10 => 'a' case 11 => 'b'
  }

  predicate IsLowerLetter(c: char) {
    'a' <= c <= 'z'
  }

  /** Every stem is a letter, followed by "sharp" for a sharpened pitch
      class, so it is non-empty and made of lower-case letters. */
  lemma StemShape(pc: int)
    requires 0 <= pc < 12
    ensures |Stem(pc)| == (if IsSharpPc(pc) then 6 else 1)
    ensures Stem(pc)[0] == StemLetter(pc)
    ensures IsSharpPc(pc) ==> Stem(pc)[1..] == "sharp"
    ensures forall k :: 0 <= k < |Stem(pc)| ==> IsLowerLetter(Stem(pc)[k])
  {
  }

  /** Different pitch classes have different stems. */
  lemma StemInjective(pc: int, pc': int)
    requires 0 <= pc < 12 && 0 <= pc' < 12
    requires Stem(pc) == Stem(pc')
    ensures pc == pc'
  {
    StemShape(pc);
    StemShape(pc');
  }

  /** `getStemForPc`: the stem at key `(pc + 12) % 12` of the stem table, with
      JavaScript's `%`; a negative key is not in the table and gives null.
      The key `-0` (from `pc` a multiple of 12 below -12) names entry 0. */
  function GetStemForPc(pc: int): Option<string> {
    var key := JsRem12(pc + 12);
    if 0 <= key < 12 then Some(Stem(key)) else None
  }

  /** The lookup succeeds exactly for `pc >= -12` and for the multiples of 12,
      and then names the stem of `pc`'s pitch class. */
  lemma GetStemForPcSpec(pc: int)
    ensures GetStemForPc(pc).Some? <==> pc >= -12 || pc % 12 == 0
    ensures GetStemForPc(pc).Some? ==> GetStemForPc(pc) == Some(Stem(pc % 12))
  {
    var a := pc + 12;
    if a < 0 {
      NegativeKey(a);
    } else {
      NonNegativeKey(a);
    }
  }

  /** For a dividend that is not negative the truncated remainder is the
      pitch class of the dividend less 12. */
  lemma NonNegativeKey(a: int)
    requires a >= 0
    ensures JsRem12(a) == (a - 12) % 12
  {
    assert a == 12 * (a / 12) + a % 12;
    assert a - 12 == 12 * (a / 12 - 1) + a % 12;
  }

  /** For a negative dividend the truncated remainder is 0 exactly when the
      dividend less 12 is a multiple of 12, and negative otherwise. */
  lemma NegativeKey(a: int)
    requires a < 0
    ensures JsRem12(a) == 0 <==> (a - 12) % 12 == 0
    ensures JsRem12(a) != 0 ==> JsRem12(a) < 0
  {
    var q, m := (-a) / 12, (-a) % 12;
    assert -a == 12 * q + m;
    assert JsRem12(a) == -m;
    if m == 0 {
      assert a - 12 == 12 * (-q - 1);
    } else {
      assert a - 12 == 12 * (-q - 2) + (12 - m);
      assert (a - 12) % 12 == 12 - m;
    }
  }

  /** `noteUrl`: the sample file for a stem and an octave number. */
  function NoteUrl(stem: string, oct: int): string {
    "audio/" + stem + IntToDecimal(oct) + ".mp3"
  }

  /** The sample URL `loadPitchBuffer` fetches for a pitch, or None on the
      branch where no stem is found. */
  function PitchUrl(p: int): Option<string> {
    var pc := PcFromPitch(p);
    var oct := OctFromPitch(p);
    match GetStemForPc(pc)
    case None => None
    case Some(stem) => Some(NoteUrl(stem, oct))
  }

  /** Every pitch has a sample: the stem of its pitch class with its octave. */
  lemma PitchUrlDefined(p: int)
    ensures PitchUrl(p) == Some(NoteUrl(Stem(PcFromPitch(p)), OctFromPitch(p)))
  {
    var pc := PcFromPitch(p);
    GetStemForPcSpec(pc);
  }

  /** When `s + d == s' + d'` with `s'` all lower-case letters and `d` the
      decimal form of an integer, `s` cannot be the shorter part: its
      position `|s|` would hold a digit or `-` in one and a letter in the
      other. */
  lemma LetterPrefixShorter(s: string, d: string, s': string, d': string)
    requires forall k :: 0 <= k < |s'| ==> IsLowerLetter(s'[k])
    requires d != [] && (d[0] == '-' || IsDigit(d[0]))
    requires s + d == s' + d'
    ensures |s'| <= |s|
  {
    assert (s + d)[|s|] == d[0];
    if |s| < |s'| {
      assert false;
    }
  }

  /** A URL built from a stem of lower-case letters determines the stem and
      the octave. */
  lemma NoteUrlInjective(s: string, o: int, s': string, o': int)
    requires forall k :: 0 <= k < |s| ==> IsLowerLetter(s[k])
    requires forall k :: 0 <= k < |s'| ==> IsLowerLetter(s'[k])
    requires NoteUrl(s, o) == NoteUrl(s', o')
    ensures s == s' && o == o'
  {
    var u := NoteUrl(s, o);
    var d, d' := IntToDecimal(o), IntToDecimal(o');
    var m := s + d;
    assert u == "audio/" + m + ".mp3";
    assert u == "audio/" + (s' + d') + ".mp3";
    assert m == u[6..|u| - 4] == s' + d';
    LetterPrefixShorter(s, d, s', d');
    LetterPrefixShorter(s', d', s, d);
    assert s == m[..|s|] == s';
    assert d == m[|s|..] == d';
    IntToDecimalInjective(o, o');
  }

  /** Different pitches load different sample files. */
  lemma PitchUrlInjective(p: int, q: int)
    requires PitchUrl(p) == PitchUrl(q)
    ensures p == q
  {
    PitchUrlDefined(p);
    PitchUrlDefined(q);
    var pc, qc := PcFromPitch(p), PcFromPitch(q);
    StemShape(pc);
    StemShape(qc);
    NoteUrlInjective(Stem(pc), OctFromPitch(p), Stem(qc), OctFromPitch(q));
    StemInjective(pc, qc);
    PitchDecodeEncode(p);
    PitchDecodeEncode(q);
  }
}
