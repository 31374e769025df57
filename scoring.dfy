/**
 * The meaning of a strength evaluation: the blacklist, the seven scoring
 * rules as a table, the evaluation they add up to, and the three-level
 * label. The imperative scorer in module Meter is proved equal to
 * Evaluate; the lemmas here state what that evaluation promises.
 */
module Scoring {
  import opened Charset

  /** Known weak passwords, compared against the lower-cased candidate. */
  const CommonPasswords: set<string> := {
    "password123", "12345678", "qwerty123", "admin123", "letmein123",
    "welcome123", "123456789", "password1", "abc123", "password"
  }

  /** Case-insensitive blacklist membership. */
  predicate IsCommon(password: string)
  {
    Lower(password) in CommonPasswords
  }

  /** One constant per feedback text the meter can emit. */
  datatype Message =
    | CommonPassword  // the blacklist hit
    | TooShort        // fewer than 8 characters
    | NoUppercase
    | NoLowercase
    | NoDigit
    | NoSpecial
    | RepeatedChars   // a run of three identical characters

  /** The pair `(score, feedback)` the scorer returns. */
  datatype Evaluation = Evaluation(score: real, feedback: seq<Message>)

  /** The seven independent checks a non-blacklisted password goes through. */
  datatype Rule =
    | LengthRule | UppercaseRule | LowercaseRule | DigitRule
    | SpecialRule | VarietyRule | RepetitionRule

  /** The order in which the rules are evaluated. */
  const Rules: seq<Rule> :=
    [LengthRule, UppercaseRule, LowercaseRule, DigitRule, SpecialRule, VarietyRule, RepetitionRule]

  /** Position of a rule in the evaluation order. */
  function Ord(r: Rule): nat
  {
    match r
    case LengthRule => 1
    case UppercaseRule => 2
    case LowercaseRule => 3
    case DigitRule => 4
    case SpecialRule => 5
    case VarietyRule => 6
    case RepetitionRule => 7
  }

  /** Position of a message: the blacklist message first, then each rule's own. */
  function Rank(m: Message): nat
  {
    match m
    case CommonPassword => 0
    case TooShort => Ord(LengthRule)
    case NoUppercase => Ord(UppercaseRule)
    case NoLowercase => Ord(LowercaseRule)
    case NoDigit => Ord(DigitRule)
    case NoSpecial => Ord(SpecialRule)
    case RepeatedChars => Ord(RepetitionRule)
  }

  /** Points a rule contributes (every weight is 1.0). */
  function Points(r: Rule, password: string): real
  {
    match r
    case LengthRule => if |password| >= 12 then 1.0 else if |password| >= 8 then 0.5 else 0.0
    case UppercaseRule => if HasUpper(password) then 0.5 else 0.0
    case LowercaseRule => if HasLower(password) then 0.5 else 0.0
    case DigitRule => if HasDigit(password) then 1.0 else 0.0
    case SpecialRule => if HasSpecial(password) then 1.0 else 0.0
    case VarietyRule => if DistinctCount(password) >= 8 then 0.5 else 0.0
    case RepetitionRule => if !HasRun(password) then 0.5 else 0.0
  }

  /** The feedback a rule emits: nothing, or its own single message. */
  function Complaint(r: Rule, password: string): seq<Message>
  {
    match r
    case LengthRule => if |password| < 8 then [TooShort] else []
    case UppercaseRule => if HasUpper(password) then [] else [NoUppercase]
    case LowercaseRule => if HasLower(password) then [] else [NoLowercase]
    case DigitRule => if HasDigit(password) then [] else [NoDigit]
    case SpecialRule => if HasSpecial(password) then [] else [NoSpecial]
    case VarietyRule => []
    case RepetitionRule => if HasRun(password) then [RepeatedChars] else []
  }

  /** A rule emits at most one message, always of its own rank; the variety rule emits none. */
  lemma ComplaintShape(r: Rule, password: string)
    ensures |Complaint(r, password)| <= 1
    ensures forall k | 0 <= k < |Complaint(r, password)| :: Rank(Complaint(r, password)[k]) == Ord(r)
    ensures r == VarietyRule ==> Complaint(r, password) == []
  {
  }

  /**
   * The points of a list of rules added up and their complaints appended,
   * rule after rule, as the scorer accumulates them.
   */
  function Tally(rules: seq<Rule>, password: string): Evaluation
  {
    if rules == [] then Evaluation(0.0, [])
    else
      var done := Tally(rules[..|rules| - 1], password);
      var r := rules[|rules| - 1];
      Evaluation(done.score + Points(r, password), done.feedback + Complaint(r, password))
  }

  /** The seven rules' points added up in evaluation order. */
  function RulePoints(password: string): real
  {
    Points(LengthRule, password) + Points(UppercaseRule, password) + Points(LowercaseRule, password) +
    Points(DigitRule, password) + Points(SpecialRule, password) + Points(VarietyRule, password) +
    Points(RepetitionRule, password)
  }

  /** The seven rules' complaints concatenated in evaluation order. */
  function RuleComplaints(password: string): seq<Message>
  {
    Complaint(LengthRule, password) + Complaint(UppercaseRule, password) +
    Complaint(LowercaseRule, password) + Complaint(DigitRule, password) +
    Complaint(SpecialRule, password) + Complaint(VarietyRule, password) +
    Complaint(RepetitionRule, password)
  }

  /** The reference evaluation: the blacklist short-circuits, otherwise every rule contributes. */
  function Evaluate(password: string): Evaluation
  {
    if IsCommon(password) then Evaluation(0.0, [CommonPassword])
    else Evaluation(RulePoints(password), RuleComplaints(password))
  }

  predicate StrictlyIncreasing(rules: seq<Rule>)
  {
    forall i, j | 0 <= i < j < |rules| :: Ord(rules[i]) < Ord(rules[j])
  }

  /** Messages listed in evaluation order, each at most once. */
  predicate InRuleOrder(feedback: seq<Message>)
  {
    forall i, j | 0 <= i < j < |feedback| :: Rank(feedback[i]) < Rank(feedback[j])
  }

  /**
   * Tallying rules given in evaluation order yields feedback in that order,
   * and every message comes from a rule no later than the last.
   */
  lemma {:induction false} TallyInOrder(rules: seq<Rule>, password: string)
    requires StrictlyIncreasing(rules)
    ensures InRuleOrder(Tally(rules, password).feedback)
    ensures rules != [] ==>
      forall k | 0 <= k < |Tally(rules, password).feedback| ::
        Rank(Tally(rules, password).feedback[k]) <= Ord(rules[|rules| - 1])
  {
    if rules != [] {
      var n := |rules|;
      var done := rules[..n - 1];
      assert StrictlyIncreasing(done) by {
        forall i, j | 0 <= i < j < |done| ensures Ord(done[i]) < Ord(done[j]) {
          assert done[i] == rules[i] && done[j] == rules[j];
        }
      }
      TallyInOrder(done, password);
      var f := Tally(done, password).feedback;
      var c := Complaint(rules[n - 1], password);
      ComplaintShape(rules[n - 1], password);
      var fc := Tally(rules, password).feedback;
      assert fc == f + c;
      // Everything emitted before the last rule ranks below the last rule's message.
      assert forall i | 0 <= i < |f| :: Rank(f[i]) < Ord(rules[n - 1]) by {
        if done != [] {
          assert done[|done| - 1] == rules[n - 2];
        }
      }
      forall i, j | 0 <= i < j < |fc|
        ensures Rank(fc[i]) < Rank(fc[j])
      {
        if j < |f| {
          assert fc[i] == f[i] && fc[j] == f[j];
        } else {
          assert fc[j] == c[j - |f|];
          if i < |f| {
            assert fc[i] == f[i];
          }
        }
      }
      forall k | 0 <= k < |fc|
        ensures Rank(fc[k]) <= Ord(rules[n - 1])
      {
        if k < |f| {
          assert fc[k] == f[k];
        } else {
          assert fc[k] == c[k - |f|];
        }
      }
    }
  }

  /** Tallying the rule table gives the seven rules' points and complaints. */
  lemma TallyRules(password: string)
    ensures Tally(Rules, password) == Evaluation(RulePoints(password), RuleComplaints(password))
  {
    var p := password;
    var r1 := [LengthRule];
    var r2 := r1 + [UppercaseRule];
    var r3 := r2 + [LowercaseRule];
    var r4 := r3 + [DigitRule];
    var r5 := r4 + [SpecialRule];
    var r6 := r5 + [VarietyRule];
    assert Rules == r6 + [RepetitionRule];
    assert r1 == [] + [LengthRule];
    TallySnoc([], LengthRule, p);
    TallySnoc(r1, UppercaseRule, p);
    TallySnoc(r2, LowercaseRule, p);
    TallySnoc(r3, DigitRule, p);
    TallySnoc(r4, SpecialRule, p);
    TallySnoc(r5, VarietyRule, p);
    TallySnoc(r6, RepetitionRule, p);
  }

  /** One step of the tally: what the earlier rules gave, then the next rule's part. */
  lemma TallySnoc(done: seq<Rule>, r: Rule, password: string)
    ensures Tally(done + [r], password) ==
      Evaluation(Tally(done, password).score + Points(r, password),
                 Tally(done, password).feedback + Complaint(r, password))
  {
    assert (done + [r])[..|done|] == done;
  }

  /** Every character is a digit or a lower-case letter. */
  predicate LowerAlphanumeric(s: string)
  {
    forall i | 0 <= i < |s| :: IsDigit(s[i]) || IsLower(s[i])
  }

  /** No blacklist entry contains a special character: each is lower-case letters and digits. */
  lemma CommonPasswordsHaveNoSpecial(w: string)
    requires w in CommonPasswords
    ensures LowerAlphanumeric(w)
    ensures !HasSpecial(w)
  {
    assert LowerAlphanumeric(w) by {
      assert w == "password123" || w == "12345678" || w == "qwerty123" || w == "admin123" || w == "letmein123" ||
             w == "welcome123" || w == "123456789" || w == "password1" || w == "abc123" || w == "password";
    }
  }

  /**
   * A password with a special character is never blacklisted: lower-casing
   * keeps that character, and no blacklist entry has one.
   */
  lemma SpecialCharNeverCommon(password: string)
    requires HasSpecial(password)
    ensures !IsCommon(password)
  {
    var i :| 0 <= i < |password| && IsSpecial(password[i]);
    var w := Lower(password);
    assert w[i] == password[i];
    assert HasSpecial(w);
    if w in CommonPasswords {
      CommonPasswordsHaveNoSpecial(w);
    }
  }

  /** A blacklisted password scores 0 with the single blacklist message. */
  lemma CommonShortCircuits(password: string)
    requires IsCommon(password)
    ensures Evaluate(password).score == 0.0
    ensures Evaluate(password).feedback == [CommonPassword]
  {
  }

  /**
   * Outside the blacklist the score is the sum of the seven per-rule
   * contributions, each given by its own condition.
   */
  lemma ScoreIsSumOfRules(password: string)
    requires !IsCommon(password)
    ensures Evaluate(password).score ==
      (if |password| >= 12 then 1.0 else if |password| >= 8 then 0.5 else 0.0) +
      (if HasUpper(password) then 0.5 else 0.0) +
      (if HasLower(password) then 0.5 else 0.0) +
      (if HasDigit(password) then 1.0 else 0.0) +
      (if HasSpecial(password) then 1.0 else 0.0) +
      (if DistinctCount(password) >= 8 then 0.5 else 0.0) +
      (if HasRun(password) then 0.0 else 0.5)
  {
  }

  /** The largest score the seven rules can add up to. */
  const MaxScore: real := 5.0

  /**
   * The denominator the page prints after a score, "Score: x/6.0": one
   * per entry of the weight table, not the points the rules award.
   */
  const DisplayedMaximum: real := 6.0

  /** Every score lies in [0, MaxScore] and is a multiple of 0.5. */
  lemma ScoreRange(password: string)
    ensures 0.0 <= Evaluate(password).score <= MaxScore
    ensures (2.0 * Evaluate(password).score).Floor as real == 2.0 * Evaluate(password).score
  {
    if !IsCommon(password) {
      var p := password;
      // Each rule awards a whole number of half points.
      var h1: int := if |p| >= 12 then 2 else if |p| >= 8 then 1 else 0;
      var h2: int := if HasUpper(p) then 1 else 0;
      var h3: int := if HasLower(p) then 1 else 0;
      var h4: int := if HasDigit(p) then 2 else 0;
      var h5: int := if HasSpecial(p) then 2 else 0;
      var h6: int := if DistinctCount(p) >= 8 then 1 else 0;
      var h7: int := if HasRun(p) then 0 else 1;
      assert 2.0 * Points(LengthRule, p) == h1 as real;
      assert 2.0 * Points(UppercaseRule, p) == h2 as real;
      assert 2.0 * Points(LowercaseRule, p) == h3 as real;
      assert 2.0 * Points(DigitRule, p) == h4 as real;
      assert 2.0 * Points(SpecialRule, p) == h5 as real;
      assert 2.0 * Points(VarietyRule, p) == h6 as real;
      assert 2.0 * Points(RepetitionRule, p) == h7 as real;
      var h := h1 + h2 + h3 + h4 + h5 + h6 + h7;
      assert 2.0 * Evaluate(p).score == h as real;
      assert (h as real).Floor == h;
    }
  }

  /**
   * Each message appears exactly when its rule fails, and the blacklist
   * message exactly when the password is blacklisted.
   */
  lemma FeedbackIffRuleFails(password: string)
    ensures CommonPassword in Evaluate(password).feedback <==> IsCommon(password)
    ensures TooShort in Evaluate(password).feedback <==> !IsCommon(password) && |password| < 8
    ensures NoUppercase in Evaluate(password).feedback <==> !IsCommon(password) && !HasUpper(password)
    ensures NoLowercase in Evaluate(password).feedback <==> !IsCommon(password) && !HasLower(password)
    ensures NoDigit in Evaluate(password).feedback <==> !IsCommon(password) && !HasDigit(password)
    ensures NoSpecial in Evaluate(password).feedback <==> !IsCommon(password) && !HasSpecial(password)
    ensures RepeatedChars in Evaluate(password).feedback <==> !IsCommon(password) && HasRun(password)
  {
    if !IsCommon(password) {
      var f := Evaluate(password).feedback;
      AdviceIffRuleFails(password);
      assert CommonPassword !in f;
      assert TooShort in f <==> |password| < 8;
      assert NoUppercase in f <==> !HasUpper(password);
      assert NoLowercase in f <==> !HasLower(password);
      assert NoDigit in f <==> !HasDigit(password);
      assert NoSpecial in f <==> !HasSpecial(password);
      assert RepeatedChars in f <==> HasRun(password);
    }
  }

  /** Which messages the seven rules emit, read off their concatenated complaints. */
  lemma AdviceIffRuleFails(p: string)
    ensures forall m :: m in RuleComplaints(p) <==>
      (m == TooShort && |p| < 8) || (m == NoUppercase && !HasUpper(p)) ||
      (m == NoLowercase && !HasLower(p)) || (m == NoDigit && !HasDigit(p)) ||
      (m == NoSpecial && !HasSpecial(p)) || (m == RepeatedChars && HasRun(p))
  {
    // Build the concatenation up one rule at a time.
    var g1 := Complaint(LengthRule, p);
    var g2 := g1 + Complaint(UppercaseRule, p);
    var g3 := g2 + Complaint(LowercaseRule, p);
    var g4 := g3 + Complaint(DigitRule, p);
    var g5 := g4 + Complaint(SpecialRule, p);
    var g6 := g5 + Complaint(VarietyRule, p);
    assert forall m :: m in g1 <==> m == TooShort && |p| < 8;
    assert forall m :: m in g2 <==> m in g1 || (m == NoUppercase && !HasUpper(p));
    assert forall m :: m in g3 <==> m in g2 || (m == NoLowercase && !HasLower(p));
    assert forall m :: m in g4 <==> m in g3 || (m == NoDigit && !HasDigit(p));
    assert forall m :: m in g5 <==> m in g4 || (m == NoSpecial && !HasSpecial(p));
    assert g6 == g5;
    assert forall m :: m in RuleComplaints(p) <==> m in g6 || (m == RepeatedChars && HasRun(p));
  }

  /** Feedback follows the rule order, holds each message at most once, and has at most 6 entries. */
  lemma FeedbackOrdered(password: string)
    ensures InRuleOrder(Evaluate(password).feedback)
    ensures |Evaluate(password).feedback| <= 6
  {
    if !IsCommon(password) {
      TallyInOrder(Rules, password);
      TallyRules(password);
      ComplaintShape(LengthRule, password);
      ComplaintShape(UppercaseRule, password);
      ComplaintShape(LowercaseRule, password);
      ComplaintShape(DigitRule, password);
      ComplaintShape(SpecialRule, password);
      ComplaintShape(VarietyRule, password);
      ComplaintShape(RepetitionRule, password);
    }
  }

  /** No password reaches the printed maximum: the best is a full point short of it. */
  lemma DisplayedMaximumUnreachable(password: string)
    ensures Evaluate(password).score <= DisplayedMaximum - 1.0
  {
    ScoreRange(password);
  }

  /**
   * The top score 5.0 is reached exactly when all seven rules pass, and
   * then there is nothing to advise.
   */
  lemma TopScoreIffAllRulesPass(password: string)
    ensures Evaluate(password).score == MaxScore <==>
      !IsCommon(password) && |password| >= 12 && HasUpper(password) && HasLower(password) &&
      HasDigit(password) && HasSpecial(password) && DistinctCount(password) >= 8 && !HasRun(password)
    ensures Evaluate(password).score == MaxScore ==> Evaluate(password).feedback == []
  {
    if !IsCommon(password) {
      ScoreIsSumOfRules(password);
    }
  }

  /**
   * The feedback is empty exactly when the password is not blacklisted,
   * has at least 8 characters, every class and no run of three.
   */
  lemma NoFeedbackIffChecksPass(password: string)
    ensures Evaluate(password).feedback == [] <==>
      !IsCommon(password) && |password| >= 8 && HasUpper(password) && HasLower(password) &&
      HasDigit(password) && HasSpecial(password) && !HasRun(password)
  {
    FeedbackIffRuleFails(password);
    var f := Evaluate(password).feedback;
    if f != [] {
      assert f[0] in f;
      assert f[0].CommonPassword? || f[0].TooShort? || f[0].NoUppercase? || f[0].NoLowercase? ||
        f[0].NoDigit? || f[0].NoSpecial? || f[0].RepeatedChars?;
    }
  }

  /**
   * Empty feedback means score at least 4.0: only the length tier and
   * the silent variety check can still be short of full marks.
   */
  lemma NoFeedbackMeansAtLeastModerate(password: string)
    requires Evaluate(password).feedback == []
    ensures !IsCommon(password)
    ensures 4.0 <= Evaluate(password).score
    ensures StrengthLabelOf(Evaluate(password).score) != Weak
  {
    ScoreIsSumOfRules(password);
    FeedbackIffRuleFails(password);
  }

  /** The empty password: +0.5 for having no run, and five messages. */
  lemma EmptyPassword()
    ensures Evaluate("") == Evaluation(0.5, [TooShort, NoUppercase, NoLowercase, NoDigit, NoSpecial])
  {
    assert !IsCommon("");
    DistinctCountAtMostLength("");
    assert !HasRun("") && !HasUpper("") && !HasLower("") && !HasDigit("") && !HasSpecial("");
  }

  /**
   * A password of at least 8 characters holding every character class is
   * never blacklisted and scores at least 3.5 (at least 4.0 from 12
   * characters on), so it is never labelled Weak.
   */
  lemma EveryClassScoresAtLeastModerate(password: string)
    requires |password| >= 8
    requires HasUpper(password) && HasLower(password) && HasDigit(password) && HasSpecial(password)
    ensures !IsCommon(password)
    ensures Evaluate(password).score >= 3.5
    ensures |password| >= 12 ==> Evaluate(password).score >= 4.0
    ensures StrengthLabelOf(Evaluate(password).score) != Weak
  {
    SpecialCharNeverCommon(password);
    ScoreIsSumOfRules(password);
  }

  /** "Abc12345!": nine distinct characters, every class, no run, but short of 12. */
  lemma ExampleModerate(p: string)
    requires p == "Abc12345!"
    ensures Evaluate(p) == Evaluation(4.5, [])
    ensures StrengthLabelOf(Evaluate(p).score) == Moderate
  {
    PassesEveryCheck(p);
    NoFeedbackIffChecksPass(p);
    ScoreIsSumOfRules(p);
  }

  /** "!#1234ABCabc": twelve distinct characters and every class, the top score. */
  lemma ExampleStrong(p: string)
    requires p == "!#1234ABCabc"
    ensures Evaluate(p) == Evaluation(5.0, [])
    ensures StrengthLabelOf(Evaluate(p).score) == Strong
  {
    PassesEveryCheck(p);
    NoFeedbackIffChecksPass(p);
    ScoreIsSumOfRules(p);
  }

  /**
   * The two examples above hold every class, at least eight distinct
   * characters and no run of three, and are not blacklisted.
   */
  lemma PassesEveryCheck(p: string)
    requires p == "Abc12345!" || p == "!#1234ABCabc"
    ensures !IsCommon(p)
    ensures HasUpper(p) && HasLower(p) && HasDigit(p) && HasSpecial(p)
    ensures DistinctCount(p) == |p| && !HasRun(p)
  {
    if p == "Abc12345!" {
      assert IsUpper(p[0]) && IsLower(p[1]) && IsDigit(p[3]) && IsSpecial(p[8]);
      assert forall i, j | 0 <= i < j < |p| :: p[i] != p[j];
    } else {
      assert IsSpecial(p[0]) && IsDigit(p[2]) && IsUpper(p[6]) && IsLower(p[9]);
      assert forall i, j | 0 <= i < j < |p| :: p[i] < p[j];
    }
    SpecialCharNeverCommon(p);
    DistinctCountAtMostLength(p);
  }

  /** The blacklist is case-insensitive: "PassWord123" is caught. */
  lemma ExampleCommonMixedCase()
    ensures IsCommon("PassWord123")
    ensures Evaluate("PassWord123") == Evaluation(0.0, [CommonPassword])
  {
    assert Lower("PassWord123") == "password123";
  }

  /** "aaa": only the lower-case rule passes, and five messages. */
  lemma ExampleRun(p: string)
    requires p == "aaa"
    ensures Evaluate(p) == Evaluation(0.5, [TooShort, NoUppercase, NoDigit, NoSpecial, RepeatedChars])
  {
    RunFacts(p);
  }

  /** What the rules see in "aaa": three lower-case letters in a row and nothing else. */
  lemma RunFacts(p: string)
    requires p == "aaa"
    ensures !IsCommon(p) && |p| == 3 && DistinctCount(p) <= 3
    ensures HasLower(p) && HasRun(p)
    ensures !HasUpper(p) && !HasDigit(p) && !HasSpecial(p)
  {
    assert Lower(p) == p;
    assert IsLower(p[0]) && p[0] != '\n' && p[1] == p[0] && p[2] == p[0];
    DistinctCountAtMostLength(p);
  }

  /** The three strength tiers. */
  datatype StrengthLabel = Weak | Moderate | Strong

  /** `get_strength_label`: Strong from 5, Moderate from 3, Weak below 3. */
  function StrengthLabelOf(score: real): (l: StrengthLabel)
    ensures l == Strong <==> score >= 5.0
    ensures l == Moderate <==> 3.0 <= score < 5.0
    ensures l == Weak <==> score < 3.0
  {
    if score >= 5.0 then Strong
    else if score >= 3.0 then Moderate
    else Weak
  }

  function Tier(l: StrengthLabel): nat
  {
    match l
    case Weak => 0
    case Moderate => 1
    case Strong => 2
  }

  /** A higher score never gets a lower label. */
  lemma LabelMonotone(a: real, b: real)
    requires a <= b
    ensures Tier(StrengthLabelOf(a)) <= Tier(StrengthLabelOf(b))
  {
  }

  /** A blacklisted password is always labelled Weak. */
  lemma CommonIsWeak(password: string)
    requires IsCommon(password)
    ensures StrengthLabelOf(Evaluate(password).score) == Weak
  {
  }
}
