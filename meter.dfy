/**
 * The PasswordStrengthMeter object: its fixed configuration, the scorer
 * that accumulates points and feedback rule by rule, and the generator
 * that draws the mandatory characters and the fill and then shuffles.
 *
 * Randomness is a parameter. Each `random.choice(alphabet)` is the index
 * it picks in that alphabet; `random.shuffle` is given its Fisher-Yates
 * draws (module Shuffle).
 */
module Meter {
  import opened Charset
  import opened Scoring
  import Shuffle

  /** The length the generator uses: any request below 8 becomes 12. */
  function EffectiveLength(length: int): nat
  {
    if length < 8 then 12 else length
  }

  /** The characters a choice of fill indices stands for, in order. */
  function FillChars(picks: seq<nat>): (s: string)
    requires forall k | 0 <= k < |picks| :: picks[k] < |AllChars|
    ensures |s| == |picks|
    ensures forall k | 0 <= k < |picks| :: s[k] == AllChars[picks[k]]
    ensures FromAlphabet(s)
  {
    if picks == [] then []
    else FillChars(picks[..|picks| - 1]) + [AllChars[picks[|picks| - 1]]]
  }

  /** The four mandatory characters: one upper-case, one lower-case, one digit, one special. */
  function Mandatory(upperPick: nat, lowerPick: nat, digitPick: nat, specialPick: nat): (m: string)
    requires upperPick < |AsciiUppercase| && lowerPick < |AsciiLowercase|
    requires digitPick < |Digits| && specialPick < |SpecialChars|
    ensures |m| == 4
    ensures IsUpper(m[0]) && IsLower(m[1]) && IsDigit(m[2]) && IsSpecial(m[3])
  {
    [AsciiUppercase[upperPick], AsciiLowercase[lowerPick], Digits[digitPick], SpecialChars[specialPick]]
  }

  /**
   * Random choices that fit a request for `length` characters: an index
   * into each class alphabet, one fill index into the union alphabet per
   * character beyond the four mandatory ones, and a complete set of
   * shuffle draws for the effective length.
   */
  predicate Choices(
    length: int, upperPick: nat, lowerPick: nat, digitPick: nat, specialPick: nat,
    fillPicks: seq<nat>, shuffleDraws: seq<nat>)
  {
    && upperPick < |AsciiUppercase| && lowerPick < |AsciiLowercase|
    && digitPick < |Digits| && specialPick < |SpecialChars|
    && |fillPicks| == EffectiveLength(length) - 4
    && (forall k | 0 <= k < |fillPicks| :: fillPicks[k] < |AllChars|)
    && Shuffle.CompleteDraws(EffectiveLength(length), shuffleDraws)
  }

  /** The password those choices produce: the mandatory characters and the fill, shuffled. */
  function Generated(
    length: int, upperPick: nat, lowerPick: nat, digitPick: nat, specialPick: nat,
    fillPicks: seq<nat>, shuffleDraws: seq<nat>): string
    requires Choices(length, upperPick, lowerPick, digitPick, specialPick, fillPicks, shuffleDraws)
  {
    Shuffle.Shuffled(Mandatory(upperPick, lowerPick, digitPick, specialPick) + FillChars(fillPicks), shuffleDraws, 0)
  }

  class PasswordStrengthMeter {
    /** The special-character alphabet. */
    const specialChars: string
    /** The weight of each scoring rule. */
    const scoreWeights: map<string, real>

    /** A meter with the fixed configuration: every weight is 1.0. */
    constructor()
      ensures Valid()
    {
      specialChars := SpecialChars;
      scoreWeights := map[
        "length" := 1.0, "uppercase" := 1.0, "lowercase" := 1.0,
        "digits" := 1.0, "special" := 1.0, "complexity" := 1.0];
    }

    /** The configuration the constructor sets up and nothing changes. */
    predicate Valid()
    {
      && specialChars == SpecialChars
      && scoreWeights.Keys == {"length", "uppercase", "lowercase", "digits", "special", "complexity"}
      && forall k | k in scoreWeights :: scoreWeights[k] == 1.0
    }

    /**
     * `check_password_strength`: the blacklist check, then each rule adds
     * its weighted points or appends its message. The result is exactly
     * the reference evaluation.
     */
    method CheckPasswordStrength(password: string) returns (score: real, feedback: seq<Message>)
      requires Valid()
      ensures Evaluation(score, feedback) == Evaluate(password)
    {
      if IsCommon(password) {
        return 0.0, [CommonPassword];
      }
      ghost var p := password;

      score := 0.0;
      feedback := [];

      // Length, with graduated scoring.
      if |password| >= 12 {
        score := score + scoreWeights["length"];
      } else if |password| >= 8 {
        score := score + scoreWeights["length"] * 0.5;
      } else {
        feedback := feedback + [TooShort];
      }
      assert score == Points(LengthRule, p) && feedback == Complaint(LengthRule, p);
      ghost var s1, f1 := score, feedback;

      if HasUpper(password) {
        score := score + scoreWeights["uppercase"] * 0.5;
      } else {
        feedback := feedback + [NoUppercase];
      }
      assert score == s1 + Points(UppercaseRule, p) && feedback == f1 + Complaint(UppercaseRule, p);
      ghost var s2, f2 := score, feedback;

      if HasLower(password) {
        score := score + scoreWeights["lowercase"] * 0.5;
      } else {
        feedback := feedback + [NoLowercase];
      }
      assert score == s2 + Points(LowercaseRule, p) && feedback == f2 + Complaint(LowercaseRule, p);
      ghost var s3, f3 := score, feedback;

      if HasDigit(password) {
        score := score + scoreWeights["digits"];
      } else {
        feedback := feedback + [NoDigit];
      }
      assert score == s3 + Points(DigitRule, p) && feedback == f3 + Complaint(DigitRule, p);
      ghost var s4, f4 := score, feedback;

      if HasSpecial(password) {
        score := score + scoreWeights["special"];
      } else {
        feedback := feedback + [NoSpecial];
      }
      assert score == s4 + Points(SpecialRule, p) && feedback == f4 + Complaint(SpecialRule, p);
      ghost var s5, f5 := score, feedback;

      // Character variety adds points but never a message.
      if DistinctCount(password) >= 8 {
        score := score + scoreWeights["complexity"] * 0.5;
      }
      assert score == s5 + Points(VarietyRule, p) && feedback == f5 + Complaint(VarietyRule, p);
      ghost var s6, f6 := score, feedback;

      if !HasRun(password) {
        score := score + scoreWeights["complexity"] * 0.5;
      } else {
        feedback := feedback + [RepeatedChars];
      }
      assert score == s6 + Points(RepetitionRule, p) && feedback == f6 + Complaint(RepetitionRule, p);
      assert score == RulePoints(p);
      assert feedback == RuleComplaints(p);

    }

    /**
     * `generate_strong_password` with its random choices given: one
     * upper-case letter, one lower-case letter, one digit and one special
     * character, then the fill from the union alphabet, then the shuffle.
     * What the result guarantees is GeneratedPasswordIsAcceptable.
     */
    method GenerateStrongPassword(
      length: int,
      upperPick: nat, lowerPick: nat, digitPick: nat, specialPick: nat,
      fillPicks: seq<nat>, shuffleDraws: seq<nat>)
      returns (password: string)
      requires Valid()
      requires Choices(length, upperPick, lowerPick, digitPick, specialPick, fillPicks, shuffleDraws)
      ensures password == Generated(length, upperPick, lowerPick, digitPick, specialPick, fillPicks, shuffleDraws)
    {
      var chars := PickCharacters(length, upperPick, lowerPick, digitPick, specialPick, fillPicks);
      var a := new char[|chars|](i requires 0 <= i < |chars| => chars[i]);
      assert a[..] == chars;
      Shuffle.ShuffleInPlace(a, shuffleDraws);
      password := a[..];
    }

    /**
     * The list `generate_strong_password` builds before shuffling: the
     * four mandatory characters, then one fill character per remaining
     * position, appended in a loop.
     */
    method PickCharacters(
      length: int, upperPick: nat, lowerPick: nat, digitPick: nat, specialPick: nat, fillPicks: seq<nat>)
      returns (chars: string)
      requires Valid()
      requires upperPick < |AsciiUppercase| && lowerPick < |AsciiLowercase|
      requires digitPick < |Digits| && specialPick < |SpecialChars|
      requires |fillPicks| == EffectiveLength(length) - 4
      requires forall k | 0 <= k < |fillPicks| :: fillPicks[k] < |AllChars|
      ensures chars == Mandatory(upperPick, lowerPick, digitPick, specialPick) + FillChars(fillPicks)
    {
      var n := length;
      if n < 8 {
        n := 12;
      }

      var mandatory := [AsciiUppercase[upperPick], AsciiLowercase[lowerPick], Digits[digitPick], specialChars[specialPick]];
      chars := mandatory;
      var remaining := n - |chars|;
      var allChars := AsciiLetters + Digits + specialChars;
      assert allChars == AllChars;
      var k := 0;
      while k < remaining
        invariant 0 <= k <= remaining
        invariant |chars| == 4 + k && chars[..4] == mandatory
        invariant forall i | 0 <= i < k :: chars[4 + i] == allChars[fillPicks[i]]
      {
        chars := chars + [allChars[fillPicks[k]]];
        k := k + 1;
      }
      assert chars[4..] == FillChars(fillPicks);
      assert chars == chars[..4] + chars[4..];
    }
  }

  /**
   * Whatever the choices, the generated password has the effective
   * length, every class and only alphabet characters; it is never
   * blacklisted, scores at least 3.5 (4.0 from 12 characters on) and is
   * never labelled Weak. It is a rearrangement of the four mandatory
   * characters followed by the fill.
   */
  lemma GeneratedPasswordIsAcceptable(
    length: int, upperPick: nat, lowerPick: nat, digitPick: nat, specialPick: nat,
    fillPicks: seq<nat>, shuffleDraws: seq<nat>, password: string)
    requires Choices(length, upperPick, lowerPick, digitPick, specialPick, fillPicks, shuffleDraws)
    requires password == Generated(length, upperPick, lowerPick, digitPick, specialPick, fillPicks, shuffleDraws)
    ensures length >= 8 ==> |password| == length
    ensures length < 8 ==> |password| == 12
    ensures HasUpper(password) && HasLower(password) && HasDigit(password) && HasSpecial(password)
    ensures FromAlphabet(password)
    ensures !IsCommon(password) && Evaluate(password).score >= 3.5
    ensures |password| >= 12 ==> Evaluate(password).score >= 4.0
    ensures StrengthLabelOf(Evaluate(password).score) != Weak
    ensures multiset(password) == multiset(Mandatory(upperPick, lowerPick, digitPick, specialPick) + FillChars(fillPicks))
  {
    var mandatory := Mandatory(upperPick, lowerPick, digitPick, specialPick);
    Shuffle.ShuffledIsPermutation(mandatory + FillChars(fillPicks), shuffleDraws, 0);
    GeneratedHasEveryClass(mandatory, FillChars(fillPicks), shuffleDraws, password);
    EveryClassScoresAtLeastModerate(password);
  }

  /**
   * Whatever the draws, a shuffle of one upper-case letter, one
   * lower-case letter, one digit, one special character and a fill from
   * the union alphabet contains every class and nothing outside that
   * alphabet.
   */
  lemma GeneratedHasEveryClass(mandatory: string, fill: string, draws: seq<nat>, password: string)
    requires |mandatory| == 4
    requires IsUpper(mandatory[0]) && IsLower(mandatory[1]) && IsDigit(mandatory[2]) && IsSpecial(mandatory[3])
    requires FromAlphabet(fill)
    requires Shuffle.DrawsFit(|mandatory + fill|, draws)
    requires password == Shuffle.Shuffled(mandatory + fill, draws, 0)
    ensures HasUpper(password) && HasLower(password) && HasDigit(password) && HasSpecial(password)
    ensures FromAlphabet(password)
  {
    var chars := mandatory + fill;
    DrawnFromAlphabet(mandatory, fill);
    assert chars[0] == mandatory[0] && chars[1] == mandatory[1] && chars[2] == mandatory[2] && chars[3] == mandatory[3];
    assert HasUpper(chars) && HasLower(chars) && HasDigit(chars) && HasSpecial(chars);
    ShuffleKeepsClasses(chars, draws);
  }

  /** The four mandatory characters and the fill all lie in the union alphabet. */
  lemma DrawnFromAlphabet(mandatory: string, fill: string)
    requires |mandatory| == 4
    requires IsUpper(mandatory[0]) && IsLower(mandatory[1]) && IsDigit(mandatory[2]) && IsSpecial(mandatory[3])
    requires FromAlphabet(fill)
    ensures FromAlphabet(mandatory + fill)
  {
    var chars := mandatory + fill;
    forall i | 0 <= i < |chars|
      ensures chars[i] in AllChars
    {
      if i < 4 {
        AllCharsIsUnionOfClasses(mandatory[i]);
      } else {
        assert chars[i] == fill[i - 4];
      }
    }
  }

  /** Shuffling changes no character class the password has or lacks. */
  lemma ShuffleKeepsClasses(chars: string, draws: seq<nat>)
    requires Shuffle.DrawsFit(|chars|, draws)
    ensures HasUpper(Shuffle.Shuffled(chars, draws, 0)) <==> HasUpper(chars)
    ensures HasLower(Shuffle.Shuffled(chars, draws, 0)) <==> HasLower(chars)
    ensures HasDigit(Shuffle.Shuffled(chars, draws, 0)) <==> HasDigit(chars)
    ensures HasSpecial(Shuffle.Shuffled(chars, draws, 0)) <==> HasSpecial(chars)
    ensures FromAlphabet(Shuffle.Shuffled(chars, draws, 0)) <==> FromAlphabet(chars)
  {
    var t := Shuffle.Shuffled(chars, draws, 0);
    Shuffle.ShuffledSameElements(chars, draws);
    assert forall i | 0 <= i < |t| :: t[i] in chars;
    assert forall i | 0 <= i < |chars| :: chars[i] in t;
  }
}
