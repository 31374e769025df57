/**
 * Character classes and alphabets shared by the scorer and the generator.
 *
 * Classification is ASCII-only: an upper-case letter is 'A'..'Z', a
 * lower-case letter 'a'..'z', a digit '0'..'9', and a special character
 * one of the eight characters of SpecialChars.
 */
module Charset {

  /** The n consecutive characters starting at lo, in code-point order. */
  function Span(lo: char, n: nat): (s: string)
    requires lo as int + n <= 0xD800
    ensures |s| == n
    ensures forall i | 0 <= i < n :: s[i] as int == lo as int + i
  {
    seq(n, i requires 0 <= i < n => (lo as int + i) as char)
  }

  /** Python's `string.ascii_uppercase`, "ABC...Z". */
  const AsciiUppercase: string := Span('A', 26)
  /** Python's `string.ascii_lowercase`, "abc...z". */
  const AsciiLowercase: string := Span('a', 26)
  /** Python's `string.digits`, "0123456789". */
  const Digits: string := Span('0', 10)
  /** The special characters the meter accepts and draws from. */
  const SpecialChars: string := "!@#$%^&*"
  /** Python's `string.ascii_letters`: lower-case first, then upper-case. */
  const AsciiLetters: string := AsciiLowercase + AsciiUppercase
  /** The union alphabet the generator fills a password from. */
  const AllChars: string := AsciiLetters + Digits + SpecialChars

  predicate IsUpper(c: char) { 'A' <= c <= 'Z' }
  predicate IsLower(c: char) { 'a' <= c <= 'z' }
  predicate IsDigit(c: char) { '0' <= c <= '9' }
  predicate IsSpecial(c: char) { c in SpecialChars }

  /** The searches `[A-Z]`, `[a-z]`, `\d` and `[!@#$%^&*]` over a whole string. */
  predicate HasUpper(s: string) { exists i | 0 <= i < |s| :: IsUpper(s[i]) }
  predicate HasLower(s: string) { exists i | 0 <= i < |s| :: IsLower(s[i]) }
  predicate HasDigit(s: string) { exists i | 0 <= i < |s| :: IsDigit(s[i]) }
  predicate HasSpecial(s: string) { exists i | 0 <= i < |s| :: IsSpecial(s[i]) }

  /** Every character is drawn from the union alphabet. */
  predicate FromAlphabet(s: string) { forall i | 0 <= i < |s| :: s[i] in AllChars }

  /**
   * The search `(.)\1{2,}`: some character other than a newline (the
   * regular expression's `.` does not match one) occurs at least three
   * times in a row.
   */
  predicate HasRun(s: string)
  {
    exists i | 0 <= i < |s| - 2 :: s[i] != '\n' && s[i + 1] == s[i] && s[i + 2] == s[i]
  }

  /** The number of distinct characters, `len(set(s))`. */
  function DistinctCount(s: string): nat
  {
    |set i | 0 <= i < |s| :: s[i]|
  }

  /**
   * A string has no more distinct characters than it has characters, and
   * exactly as many when no character repeats.
   */
  lemma {:induction false} DistinctCountAtMostLength(s: string)
    ensures DistinctCount(s) <= |s|
    ensures (forall i, j | 0 <= i < j < |s| :: s[i] != s[j]) ==> DistinctCount(s) == |s|
  {
    if s != [] {
      var t := s[..|s| - 1];
      DistinctCountAtMostLength(t);
      var all, front := set i | 0 <= i < |s| :: s[i], set i | 0 <= i < |t| :: t[i];
      forall c | c in all
        ensures c in front + {s[|s| - 1]}
      {
        var i :| 0 <= i < |s| && s[i] == c;
        if i < |t| { assert t[i] == c; }
      }
      forall c | c in front
        ensures c in all
      {
        var i :| 0 <= i < |t| && t[i] == c;
        assert s[i] == c;
      }
      assert all == front + {s[|s| - 1]};
      if forall i, j | 0 <= i < j < |s| :: s[i] != s[j] {
        assert forall i, j | 0 <= i < j < |t| :: t[i] != t[j] by {
          forall i, j | 0 <= i < j < |t| ensures t[i] != t[j] { assert t[i] == s[i] && t[j] == s[j]; }
        }
      }
    }
  }

  /** ASCII case folding of one character. */
  function ToLower(c: char): (d: char)
    ensures IsUpper(c) ==> IsLower(d) && d as int == c as int + 32
    ensures !IsUpper(c) ==> d == c
  {
    if IsUpper(c) then (c as int + 32) as char else c
  }

  /** ASCII case folding of a string, `s.lower()`. */
  function Lower(s: string): (t: string)
    ensures |t| == |s|
    ensures forall i | 0 <= i < |s| :: t[i] == ToLower(s[i])
  {
    seq(|s|, i requires 0 <= i < |s| => ToLower(s[i]))
  }

  /** Each alphabet holds exactly the characters of its own class. */
  lemma AlphabetsAreClasses(c: char)
    ensures c in AsciiUppercase <==> IsUpper(c)
    ensures c in AsciiLowercase <==> IsLower(c)
    ensures c in Digits <==> IsDigit(c)
    ensures c in SpecialChars <==> IsSpecial(c)
  {
    if IsUpper(c) {
      assert AsciiUppercase[c as int - 'A' as int] == c;
    }
    if IsLower(c) {
      assert AsciiLowercase[c as int - 'a' as int] == c;
    }
    if IsDigit(c) {
      assert Digits[c as int - '0' as int] == c;
    }
  }

  /**
   * The union alphabet is exactly the four classes: a character is in
   * AllChars if and only if it is an upper-case letter, a lower-case
   * letter, a digit or a special character.
   */
  lemma AllCharsIsUnionOfClasses(c: char)
    ensures c in AllChars <==> IsUpper(c) || IsLower(c) || IsDigit(c) || IsSpecial(c)
  {
    AlphabetsAreClasses(c);
    assert c in AllChars <==> c in AsciiLetters + Digits || c in SpecialChars;
    assert c in AsciiLetters + Digits <==> c in AsciiLetters || c in Digits;
    assert c in AsciiLetters <==> c in AsciiLowercase || c in AsciiUppercase;
  }
}
