/**
  The DNA fingerprint engine of backend/dna_utils.py: validation, crossover
  (remix), oracle-driven mutation, compatibility analysis and the pattern
  decoder. A DNA is a 64-character hexadecimal string.
*/
module DnaUtils {
  import opened Results

  /** Length every DNA must have. */
  const DnaLength: nat := 64
  /** Crossover point used by default and in place of one out of range. */
  const DefaultCrossover: nat := 32
  /** The characters `mutate_dna` draws replacements from. */
  const HexAlphabet: string := "0123456789abcdef"
  /** The model `decode_dna` falls back to. */
  const DefaultModel: string := "dolphin-phi:latest"

  datatype DnaError =
    | InvalidDnaFormat   // the ValueError of remix_dna and mutate_dna
    | IndexError         // `dna[0]` on the empty string

  // ---------------------------------------------------------------------
  // Validation
  // ---------------------------------------------------------------------

  predicate IsHexDigit(c: char) {
    '0' <= c <= '9' || 'a' <= c <= 'f' || 'A' <= c <= 'F'
  }

  /** Every character of `s` is a hexadecimal digit. */
  function AllHex(s: string): (ok: bool)
    ensures ok <==> forall i | 0 <= i < |s| :: IsHexDigit(s[i])
  {
    s == [] || (IsHexDigit(s[0]) && AllHex(s[1..]))
  }

  /**
    A well-formed DNA: exactly 64 characters, each a hexadecimal digit of
    either case. This is the check the source's comment describes; see
    ValidateDnaAsWritten for what `int(dna, 16)` really accepts.
  */
  function ValidateDna(dna: string): (ok: bool)
    ensures ok <==> |dna| == DnaLength && forall i | 0 <= i < |dna| :: IsHexDigit(dna[i])
  {
    |dna| == DnaLength && AllHex(dna)
  }

  /** The characters CPython's `int()` strips from both ends of its argument. */
  predicate IsPySpace(c: char) {
    c == ' ' || '\t' <= c <= '\r'
    || c == '\U{85}' || c == '\U{A0}' || c == '\U{1680}' || '\U{2000}' <= c <= '\U{200A}'
    || c == '\U{2028}' || c == '\U{2029}' || c == '\U{202F}' || c == '\U{205F}' || c == '\U{3000}'
  }

  /** `s` without its leading and trailing whitespace. */
  function StripPySpace(s: string): (t: string)
    ensures |t| <= |s|
    ensures t == [] || (!IsPySpace(t[0]) && !IsPySpace(t[|t| - 1]))
    decreases |s|
  {
    if s != [] && IsPySpace(s[0]) then StripPySpace(s[1..])
    else if s != [] && IsPySpace(s[|s| - 1]) then StripPySpace(s[..|s| - 1])
    else s
  }

  /** One or more hexadecimal digits, a single `_` allowed between two digits. */
  predicate DigitRun(s: string)
    decreases |s|
  {
    |s| > 0 && IsHexDigit(s[0]) &&
    (|s| == 1 || if s[1] == '_' then DigitRun(s[2..]) else DigitRun(s[1..]))
  }

  /**
    The strings `int(s, 16)` parses without raising ValueError: optional
    whitespace, an optional sign, an optional `0x`/`0X` prefix that may be
    followed by one `_`, a digit run, optional whitespace.
  */
  predicate ParsesAsBase16(s: string) {
    var t := StripPySpace(s);
    var u := if t != [] && (t[0] == '+' || t[0] == '-') then t[1..] else t;
    if |u| >= 2 && u[0] == '0' && (u[1] == 'x' || u[1] == 'X') then
      var v := u[2..];
      DigitRun(if v != [] && v[0] == '_' then v[1..] else v)
    else
      DigitRun(u)
  }

  /** `validate_dna` as written: the length check, then `int(dna, 16)`. */
  function ValidateDnaAsWritten(dna: string): (ok: bool)
    ensures ok ==> |dna| == DnaLength
  {
    |dna| == DnaLength && ParsesAsBase16(dna)
  }

  lemma {:induction false} HexIsDigitRun(s: string)
    requires s != [] && forall i | 0 <= i < |s| :: IsHexDigit(s[i])
    ensures DigitRun(s)
    decreases |s|
  {
    if |s| > 1 {
      HexIsDigitRun(s[1..]);
    }
  }

  /** Everything the corrected check accepts, the written check accepts too. */
  lemma ValidDnaPassesAsWritten(dna: string)
    requires ValidateDna(dna)
    ensures ValidateDnaAsWritten(dna)
  {
    assert StripPySpace(dna) == dna;
    HexIsDigitRun(dna);
  }

  /**
    The written check is strictly weaker: `"0x"` followed by 62 zeros passes
    it although `x` is no hexadecimal digit, and the crossover of 64 `f`s with
    that string at point 1, which `remix_dna` returns once both inputs passed,
    is `"fx"` followed by 62 zeros, which the written check itself rejects.
  */
  lemma RemixEscapesValidationAsWritten()
    ensures var a := seq(DnaLength, _ => 'f');
            var b := "0x" + seq(DnaLength - 2, _ => '0');
            && ValidateDnaAsWritten(a) && ValidateDnaAsWritten(b)
            && !ValidateDna(b)
            && !ValidateDnaAsWritten(Splice(a, b, 1))
  {
    var a := seq(DnaLength, _ => 'f');
    var zeros := seq(DnaLength - 2, _ => '0');
    var b := "0x" + zeros;
    ValidDnaPassesAsWritten(a);
    assert StripPySpace(b) == b;
    HexIsDigitRun(zeros);
    assert b[2..] == zeros;
    assert !IsHexDigit(b[1]);
    var r := Splice(a, b, 1);
    assert r[0] == 'f' && r[1] == 'x' && r[|r| - 1] == '0';
    assert StripPySpace(r) == r;
    assert !DigitRun(r[1..]);
  }

  // ---------------------------------------------------------------------
  // Remix (crossover)
  // ---------------------------------------------------------------------

  /** The crossover point actually used: one outside [1, 63] becomes 32. */
  function EffectiveCrossover(crossoverPoint: int): (k: nat)
    ensures 1 <= k < DnaLength
    ensures 1 <= crossoverPoint < DnaLength ==> k == crossoverPoint
    ensures crossoverPoint < 1 || crossoverPoint >= DnaLength ==> k == DefaultCrossover
  {
    if crossoverPoint < 1 || crossoverPoint >= DnaLength then DefaultCrossover else crossoverPoint
  }

  /** The first `k` characters of `dnaA` followed by the rest of `dnaB`. */
  function Splice(dnaA: string, dnaB: string, k: nat): (r: string)
    requires k <= |dnaA| && k <= |dnaB|
    ensures |r| == |dnaB|
    ensures forall i | 0 <= i < k :: r[i] == dnaA[i]
    ensures forall i | k <= i < |r| :: r[i] == dnaB[i]
  {
    dnaA[..k] + dnaB[k..]
  }

  /** `remix_dna`: validate both inputs, then cross them over. */
  function RemixDna(dnaA: string, dnaB: string, crossoverPoint: int := 32): (r: Result<string, DnaError>)
    ensures r.Failure? <==> !ValidateDna(dnaA) || !ValidateDna(dnaB)
    ensures r.Failure? ==> r.error == InvalidDnaFormat
    ensures r.Success? ==> ValidateDna(r.value)
    ensures r.Success? ==> r.value == Splice(dnaA, dnaB, EffectiveCrossover(crossoverPoint))
  {
    if !ValidateDna(dnaA) || !ValidateDna(dnaB) then
      Failure(InvalidDnaFormat)
    else
      Success(Splice(dnaA, dnaB, EffectiveCrossover(crossoverPoint)))
  }

  /** Crossing a DNA with itself gives it back, whatever the point. */
  lemma RemixWithSelf(dna: string, crossoverPoint: int)
    requires ValidateDna(dna)
    ensures RemixDna(dna, dna, crossoverPoint) == Success(dna)
  {
    var r := RemixDna(dna, dna, crossoverPoint);
    assert r.value == dna;
  }

  /**
    A remix lies between its parents: its distance to one parent plus its
    distance to the other is the distance between the parents.
  */
  lemma RemixBetweenParents(dnaA: string, dnaB: string, crossoverPoint: int)
    requires ValidateDna(dnaA) && ValidateDna(dnaB)
    ensures var r := RemixDna(dnaA, dnaB, crossoverPoint).value;
            Hamming(r, dnaA) + Hamming(r, dnaB) == Hamming(dnaA, dnaB)
  {
    var k := EffectiveCrossover(crossoverPoint);
    var r := RemixDna(dnaA, dnaB, crossoverPoint).value;
    assert r == dnaA[..k] + dnaB[k..];
    assert dnaA == dnaA[..k] + dnaA[k..];
    assert dnaB == dnaB[..k] + dnaB[k..];
    HammingConcat(dnaA[..k], dnaB[k..], dnaA[..k], dnaA[k..]);
    HammingConcat(dnaA[..k], dnaB[k..], dnaB[..k], dnaB[k..]);
    HammingConcat(dnaA[..k], dnaA[k..], dnaB[..k], dnaB[k..]);
    HammingSymmetric(dnaB[k..], dnaA[k..]);
  }

  // ---------------------------------------------------------------------
  // Mutation
  // ---------------------------------------------------------------------

  /**
    The randomness `mutate_dna` consumes, one draw per position:
    `rolls[i]` is what `random.random()` returned (in [0, 1)) and
    `picks[i]` the index `random.choice` took in HexAlphabet.
  */
  predicate IsRandomSource(rolls: seq<real>, picks: seq<nat>) {
    && |rolls| == DnaLength && |picks| == DnaLength
    && (forall i | 0 <= i < |rolls| :: 0.0 <= rolls[i] < 1.0)
    && (forall i | 0 <= i < |picks| :: picks[i] < |HexAlphabet|)
  }

  /** The character position `i` holds after mutation. */
  function MutatedAt(dna: string, rolls: seq<real>, picks: seq<nat>, mutationRate: real, i: nat): char
    requires IsRandomSource(rolls, picks) && i < |rolls|
    requires i < |dna|
  {
    if rolls[i] < mutationRate then HexAlphabet[picks[i]] else dna[i]
  }

  /** The DNA `mutate_dna` returns for a valid input and the given draws. */
  function Mutated(dna: string, rolls: seq<real>, picks: seq<nat>, mutationRate: real): (m: string)
    requires IsRandomSource(rolls, picks) && |dna| == DnaLength
    ensures |m| == |dna|
    ensures forall i | 0 <= i < |m| :: m[i] == dna[i] || m[i] in HexAlphabet
    ensures forall i | 0 <= i < |m| :: rolls[i] < mutationRate ==> m[i] in HexAlphabet
    ensures forall i | 0 <= i < |m| :: rolls[i] >= mutationRate ==> m[i] == dna[i]
    ensures ValidateDna(dna) ==> ValidateDna(m)
  {
    seq(|dna|, i requires 0 <= i < |dna| => MutatedAt(dna, rolls, picks, mutationRate, i))
  }

  /** `mutate_dna`: copy the DNA into a buffer and overwrite the drawn positions. */
  method MutateDna(dna: string, rolls: seq<real>, picks: seq<nat>, mutationRate: real := 0.1)
    returns (r: Result<string, DnaError>)
    requires IsRandomSource(rolls, picks)
    ensures r.Failure? <==> !ValidateDna(dna)
    ensures r.Failure? ==> r.error == InvalidDnaFormat
    ensures r.Success? ==> ValidateDna(r.value) && r.value == Mutated(dna, rolls, picks, mutationRate)
  {
    if !ValidateDna(dna) {
      return Failure(InvalidDnaFormat);
    }
    var dnaList := new char[|dna|](i requires 0 <= i < |dna| => dna[i]);
    for i := 0 to dnaList.Length
      invariant forall j | 0 <= j < i :: dnaList[j] == MutatedAt(dna, rolls, picks, mutationRate, j)
      invariant forall j | i <= j < dnaList.Length :: dnaList[j] == dna[j]
    {
      if rolls[i] < mutationRate {
        dnaList[i] := HexAlphabet[picks[i]];
      }
    }
    return Success(dnaList[..]);
  }

  /** A rate of zero or less never mutates: every roll is at least 0. */
  lemma MutateAtZeroRate(dna: string, rolls: seq<real>, picks: seq<nat>, mutationRate: real)
    requires IsRandomSource(rolls, picks) && |dna| == DnaLength
    requires mutationRate <= 0.0
    ensures Mutated(dna, rolls, picks, mutationRate) == dna
  {
  }

  /** A rate of one or more redraws every position: every roll is below 1. */
  lemma MutateAtFullRate(dna: string, rolls: seq<real>, picks: seq<nat>, mutationRate: real)
    requires IsRandomSource(rolls, picks) && |dna| == DnaLength
    requires mutationRate >= 1.0
    ensures forall i | 0 <= i < DnaLength ::
              Mutated(dna, rolls, picks, mutationRate)[i] == HexAlphabet[picks[i]]
  {
  }

  /** The number of `true`s in `marks`. */
  function CountTrue(marks: seq<bool>): (n: nat)
    ensures n <= |marks|
  {
    if marks == [] then 0 else (if marks[0] then 1 else 0) + CountTrue(marks[1..])
  }

  /** Strings that can differ only at marked positions differ in at most that many. */
  lemma {:induction false} HammingAtMostMarked(a: string, b: string, marks: seq<bool>)
    requires |a| == |b| == |marks|
    requires forall i | 0 <= i < |a| :: a[i] != b[i] ==> marks[i]
    ensures Hamming(a, b) <= CountTrue(marks)
    decreases |a|
  {
    if a != [] {
      HammingAtMostMarked(a[1..], b[1..], marks[1..]);
    }
  }

  /** Which rolls fall below the rate, i.e. which positions are redrawn. */
  function Hits(rolls: seq<real>, mutationRate: real): (marks: seq<bool>)
    ensures |marks| == |rolls|
    ensures forall i | 0 <= i < |rolls| :: marks[i] == (rolls[i] < mutationRate)
  {
    seq(|rolls|, i requires 0 <= i < |rolls| => rolls[i] < mutationRate)
  }

  /** A mutation changes no more positions than it drew rolls below the rate. */
  lemma MutationDistance(dna: string, rolls: seq<real>, picks: seq<nat>, mutationRate: real)
    requires IsRandomSource(rolls, picks) && |dna| == DnaLength
    ensures Hamming(dna, Mutated(dna, rolls, picks, mutationRate)) <= CountTrue(Hits(rolls, mutationRate))
  {
    HammingAtMostMarked(dna, Mutated(dna, rolls, picks, mutationRate), Hits(rolls, mutationRate));
  }

  // ---------------------------------------------------------------------
  // Compatibility analysis
  // ---------------------------------------------------------------------

  /** Number of positions at which `a` and `b` differ. */
  function Hamming(a: string, b: string): (d: nat)
    requires |a| == |b|
    ensures d <= |a|
    ensures d == 0 <==> a == b
  {
    if a == [] then 0
    else (if a[0] != b[0] then 1 else 0) + Hamming(a[1..], b[1..])
  }

  lemma {:induction false} HammingSymmetric(a: string, b: string)
    requires |a| == |b|
    ensures Hamming(a, b) == Hamming(b, a)
    decreases |a|
  {
    if a != [] {
      HammingSymmetric(a[1..], b[1..]);
    }
  }

  lemma {:induction false} HammingConcat(a1: string, a2: string, b1: string, b2: string)
    requires |a1| == |b1| && |a2| == |b2|
    ensures Hamming(a1 + a2, b1 + b2) == Hamming(a1, b1) + Hamming(a2, b2)
    decreases |a1|
  {
    if a1 != [] {
      assert (a1 + a2)[1..] == a1[1..] + a2;
      assert (b1 + b2)[1..] == b1[1..] + b2;
      HammingConcat(a1[1..], a2, b1[1..], b2);
    } else {
      assert a1 + a2 == a2 && b1 + b2 == b2;
    }
  }

  /** `similarity` of `analyze_dna_compatibility`, before `round(·, 2)`. */
  function SimilarityPercentage(differences: nat): (s: real)
    requires differences <= DnaLength
    ensures 0.0 <= s <= 100.0
  {
    (DnaLength - differences) as real / DnaLength as real * 100.0
  }

  datatype Compatibility = High | Medium | Low

  /** How many characters of a DNA fall in each class the analysis counts. */
  datatype Patterns = Patterns(vowels: nat, consonants: nat, numbers: nat)

  datatype Analysis = Analysis(
    similarityPercentage: real,
    differences: nat,
    recommendedCrossover: nat,
    patternsA: Patterns,
    patternsB: Patterns,
    compatibility: Compatibility)

  predicate IsVowel(c: char) { c in "aeiou" }
  predicate IsConsonant(c: char) { c in "bcdfghjklmnpqrstvwxyz" }
  predicate IsNumber(c: char) { '0' <= c <= '9' }
  predicate IsUpperHexLetter(c: char) { 'A' <= c <= 'F' }

  /** Number of characters of `s` satisfying `p`. */
  function Count(s: string, p: char -> bool): (n: nat)
    ensures n <= |s|
  {
    if s == [] then 0 else (if p(s[0]) then 1 else 0) + Count(s[1..], p)
  }

  function PatternsOf(dna: string): Patterns {
    Patterns(Count(dna, IsVowel), Count(dna, IsConsonant), Count(dna, IsNumber))
  }

  /**
    The three counted classes cover every lower-case hex digit exactly once;
    the upper-case letters A-F are counted in none of them.
  */
  lemma {:induction false} PatternsCoverHex(s: string)
    requires forall i | 0 <= i < |s| :: IsHexDigit(s[i])
    ensures var p := PatternsOf(s);
            p.vowels + p.consonants + p.numbers + Count(s, IsUpperHexLetter) == |s|
    decreases |s|
  {
    if s != [] {
      PatternsCoverHex(s[1..]);
    }
  }

  /**
    `analyze_dna_compatibility`. The thresholds of the source, written over
    the real similarity, are stated here over the integer distance.
  */
  function AnalyzeDnaCompatibility(dnaA: string, dnaB: string): (r: Result<Analysis, DnaError>)
    ensures r.Failure? <==> !ValidateDna(dnaA) || !ValidateDna(dnaB)
    ensures r.Success? ==> r.value.differences == Hamming(dnaA, dnaB) <= DnaLength
    ensures r.Success? ==> (r.value.differences == 0 <==> dnaA == dnaB)
    ensures r.Success? ==> (r.value.recommendedCrossover == 32 <==> r.value.differences <= 31)
    ensures r.Success? ==> (r.value.recommendedCrossover == 16 <==> r.value.differences > 31)
    ensures r.Success? ==> (r.value.compatibility == High <==> r.value.differences <= 19)
    ensures r.Success? ==> (r.value.compatibility == Medium <==> 20 <= r.value.differences <= 38)
    ensures r.Success? ==> (r.value.compatibility == Low <==> r.value.differences >= 39)
  {
    if !ValidateDna(dnaA) || !ValidateDna(dnaB) then
      Failure(InvalidDnaFormat)
    else
      var differences := Hamming(dnaA, dnaB);
      var similarity := SimilarityPercentage(differences);
      Success(Analysis(
        similarity,
        differences,
        if similarity > 50.0 then 32 else 16,
        PatternsOf(dnaA),
        PatternsOf(dnaB),
        if similarity > 70.0 then High else if similarity > 40.0 then Medium else Low))
  }

  /** Compatibility is symmetric in its two arguments. */
  lemma AnalysisSymmetric(dnaA: string, dnaB: string)
    requires ValidateDna(dnaA) && ValidateDna(dnaB)
    ensures AnalyzeDnaCompatibility(dnaA, dnaB).value.differences
         == AnalyzeDnaCompatibility(dnaB, dnaA).value.differences
    ensures AnalyzeDnaCompatibility(dnaA, dnaB).value.compatibility
         == AnalyzeDnaCompatibility(dnaB, dnaA).value.compatibility
  {
    HammingSymmetric(dnaA, dnaB);
  }

  /** The crossover the analysis recommends is used by remix unchanged. */
  lemma RecommendedCrossoverIsKept(dnaA: string, dnaB: string)
    requires ValidateDna(dnaA) && ValidateDna(dnaB)
    ensures var k := AnalyzeDnaCompatibility(dnaA, dnaB).value.recommendedCrossover;
            EffectiveCrossover(k) == k
  {
  }

  // ---------------------------------------------------------------------
  // Decoding
  // ---------------------------------------------------------------------

  /** Sum of the code points of `s`: `sum(ord(c) for c in s)`. */
  function CharSum(s: string): nat {
    if s == [] then 0 else s[0] as nat + CharSum(s[1..])
  }

  lemma {:induction false} CharSumConcat(s: string, t: string)
    ensures CharSum(s + t) == CharSum(s) + CharSum(t)
    decreases |s|
  {
    if s != [] {
      assert (s + t)[1..] == s[1..] + t;
      CharSumConcat(s[1..], t);
    } else {
      assert s + t == t;
    }
  }

  /** `model_map.get(first, 'dolphin-phi:latest')`. */
  function ModelFor(first: char): (model: string)
    ensures model != DefaultModel <==> first in "123"
  {
    match first
    case '0' => DefaultModel
    case '1' => "llama2:latest"
    case '2' => "mistral:latest"
    case '3' => "gpt-4"
    case _ => DefaultModel
  }

  datatype Decoded = Decoded(temperature: real, topP: real, model: string, dna: string, note: string)

  /**
    `decode_dna`. The temperature is 0.1 plus a tenth per step of the
    character sum modulo 20, top_p the same modulo 9; the values are the
    decimals that `round(·, 1)` returns.
  */
  function DecodeDna(dna: string): (r: Result<Decoded, DnaError>)
    ensures r.Failure? <==> dna == []
    ensures r.Failure? ==> r.error == IndexError
    ensures r.Success? ==> r.value.dna == dna && r.value.model == ModelFor(dna[0])
    ensures r.Success? ==> 0.1 <= r.value.temperature <= 2.0 && 0.1 <= r.value.topP <= 0.9
    ensures r.Success? ==> r.value.temperature * 10.0 == (CharSum(dna) % 20 + 1) as real
    ensures r.Success? ==> r.value.topP * 10.0 == (CharSum(dna) % 9 + 1) as real
  {
    if dna == [] then
      Failure(IndexError)
    else
      var charSum := CharSum(dna);
      var temp := 0.1 + (charSum % 20) as real * 0.1;
      var topP := 0.1 + (charSum % 9) as real * 0.1;
      Success(Decoded(temp, topP, ModelFor(dna[0]), dna, "Parameters estimated from DNA pattern"))
  }

  /** The character sum does not depend on the order of the characters. */
  lemma {:induction false} CharSumMultiset(s: string, t: string)
    requires multiset(s) == multiset(t)
    ensures CharSum(s) == CharSum(t)
    decreases |s|
  {
    if s != [] {
      assert s[0] in multiset(t);
      var j :| 0 <= j < |t| && t[j] == s[0];
      var rest := t[..j] + t[j + 1..];
      assert t == t[..j] + [t[j]] + t[j + 1..];
      assert s == [s[0]] + s[1..];
      assert multiset(s[1..]) == multiset(s) - multiset{s[0]};
      assert multiset(rest) == multiset(t) - multiset{t[j]};
      CharSumMultiset(s[1..], rest);
      CharSumConcat([s[0]], s[1..]);
      CharSumConcat(t[..j] + [t[j]], t[j + 1..]);
      CharSumConcat(t[..j], [t[j]]);
      CharSumConcat(t[..j], t[j + 1..]);
    }
  }

  /**
    Only the first character and the multiset of the others matter: any
    reordering of the characters after the first decodes to the same
    parameters.
  */
  lemma DecodeIgnoresOrder(s: string, t: string)
    requires s != [] && t != [] && s[0] == t[0] && multiset(s[1..]) == multiset(t[1..])
    ensures var d1 := DecodeDna(s).value;
            var d2 := DecodeDna(t).value;
            d1.temperature == d2.temperature && d1.topP == d2.topP && d1.model == d2.model
  {
    assert s == [s[0]] + s[1..] && t == [t[0]] + t[1..];
    assert multiset(s) == multiset(t);
    CharSumMultiset(s, t);
  }
}
