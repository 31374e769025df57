# Password strength meter, modelled in Dafny

This project models the core of a small password tool: the
`PasswordStrengthMeter` class and its blacklist. Module by module:

- **Charset** holds the character classes and alphabets that scoring and
  generation share. These are upper-case letters, lower-case letters,
  digits and the special characters `!@#$%^&*`, plus their union. The
  module also defines three string measures used by the rules: ASCII
  lower-casing, the number of distinct characters, and the "three equal
  characters in a row" search `(.)\1{2,}`.
- **Scoring** defines what an evaluation means:
  - the blacklist of ten common passwords, compared case-insensitively;
  - seven scoring rules, written as a table: length, upper-case, lower-case,
    digit, special character, variety and repetition;
  - `Evaluate`, which adds up the seven rules' points and concatenates
    their messages into an ordered feedback list;
  - `Tally`, the same evaluation written as a fold over the rule table,
    proved to agree with `Evaluate`;
  - the three-level label.

  The lemmas state what an evaluation promises:
  - the score lies in [0, 5] in steps of 0.5;
  - each message appears exactly when its rule fails;
  - messages come in rule order;
  - the top score is reached exactly when every rule passes;
  - a password with a special character is never blacklisted;
  - a few worked examples.
- **Shuffle** models `random.shuffle` as the Fisher-Yates shuffle. The model
  has two parts: a specification function on sequences, and the method that
  swaps in place in an array. The method's random draws are a parameter. The
  module proves that the result is a permutation of the input.
- **Meter** holds the class `PasswordStrengthMeter` and its fixed
  configuration: the special-character alphabet and a weight table in which
  every weight is 1.0. Its two methods work as follows.
  - `CheckPasswordStrength` is the source's straight-line chain of checks.
    It adds weighted points and appends messages, and it is proved to
    return exactly `Evaluate(password)`.
  - `GenerateStrongPassword` takes its random choices as parameters:
    - one index into each of the four class alphabets;
    - the fill indices into the union alphabet;
    - the shuffle draws.

    It builds the character list with a loop and shuffles it in an array.
    It is proved to return `Generated`, the specification of that
    construction. Every password `Generated` produces has these properties
    (`Meter.GeneratedPasswordIsAcceptable`):
    - its length is the requested one (12 for requests below 8);
    - it contains every character class and nothing outside the union
      alphabet;
    - it is never blacklisted;
    - its score is at least 3.5, and at least 4.0 from 12 characters on, so
      it is never labelled Weak;
    - it is a rearrangement of the four mandatory characters and the fill.

Scores are exact `real` numbers. The source returns the integer `0` whenever
no points are awarded (a blacklisted password, or one such as `~~~` that
passes no rule) and a float otherwise. Both are the number 0 or a
multiple of 0.5, and both compare the same way against the label
thresholds.

An empty password is evaluated by the code like any other short one. It
gets 0.5, the repetition bonus, together with five messages
(`Scoring.EmptyPassword`). It does not score 0. The page never submits an
empty password, because its `if password:` guard skips it.

## Model

| member | source | states |
|---|---|---|
| Scoring.CommonPasswordsHaveNoSpecial | password_strength_meter.py:7-10 | every blacklist entry is made of lower-case letters and digits only, and so none holds a special character |
| Scoring.SpecialCharNeverCommon | password_strength_meter.py:28 | a password containing a special character is never found in the blacklist, whatever its case |
| Scoring.ExampleCommonMixedCase | password_strength_meter.py:28-29 | the blacklist check is case-insensitive: "PassWord123" is caught and scores 0 with the single blacklist message |
| Scoring.CommonShortCircuits | password_strength_meter.py:28-29 | a blacklisted password scores 0 with exactly the blacklist message and nothing else |
| Scoring.CommonIsWeak | password_strength_meter.py:28-29 | a blacklisted password is always labelled Weak |
| Meter.PasswordStrengthMeter.constructor | password_strength_meter.py:13-22 | the meter's special characters are `!@#$%^&*` and its weight table has exactly the six keys, each with weight 1.0 |
| Meter.PasswordStrengthMeter.CheckPasswordStrength | password_strength_meter.py:24-74 | the imperative check chain returns exactly the score and feedback of the rule-table evaluation `Evaluate` |
| Scoring.ComplaintShape | password_strength_meter.py:34-72 | each rule emits at most one message, always of its own rank, and the variety rule never emits one |
| Scoring.TallySnoc | password_strength_meter.py:31-74 | tallying one more rule adds its points to the score and appends its message after the earlier ones |
| Scoring.TallyRules | password_strength_meter.py:31-74 | tallying the rule table gives the same score and feedback as the seven rules written out in source order |
| Scoring.TallyInOrder | password_strength_meter.py:31-74 | rules tallied in evaluation order give feedback in that order, with no message repeated |
| Scoring.ScoreIsSumOfRules | password_strength_meter.py:34-72 | outside the blacklist the score is 1.0/0.5/0 for length 12+/8+/less, plus 0.5 per letter case, 1.0 per digit or special, 0.5 for 8+ distinct characters and 0.5 for no run |
| Scoring.ScoreRange | password_strength_meter.py:31-74 | every score lies between 0 and 5.0 and is a whole multiple of 0.5 |
| Scoring.DisplayedMaximumUnreachable | password_strength_meter.py:149 | no score comes within a full point of the 6.0 the page prints as the maximum |
| Scoring.FeedbackIffRuleFails | password_strength_meter.py:28-72 | each message is in the feedback if and only if its rule fails, and the blacklist message if and only if the password is blacklisted |
| Scoring.AdviceIffRuleFails | password_strength_meter.py:34-72 | the concatenated complaints hold exactly the messages of the failing rules |
| Scoring.FeedbackOrdered | password_strength_meter.py:32-72 | feedback lists messages in rule order, each at most once, and has at most six entries |
| Scoring.TopScoreIffAllRulesPass | password_strength_meter.py:34-72 | the score is 5.0 if and only if the password is not blacklisted, has 12+ characters, every class, 8+ distinct characters and no run, and then the feedback is empty |
| Scoring.NoFeedbackIffChecksPass | password_strength_meter.py:28-72 | the feedback is empty if and only if the password is not blacklisted, has 8+ characters, every class and no run |
| Scoring.NoFeedbackMeansAtLeastModerate | password_strength_meter.py:28-72 | empty feedback implies a score of at least 4.0, hence a label other than Weak |
| Scoring.EveryClassScoresAtLeastModerate | password_strength_meter.py:34-72 | a password of 8+ characters that has every class is not blacklisted and scores at least 3.5, and at least 4.0 from 12 characters on |
| Scoring.EmptyPassword | password_strength_meter.py:31-74 | the empty password scores 0.5 and gets the length, upper, lower, digit and special messages in that order |
| Scoring.ExampleModerate | password_strength_meter.py:34-72 | "Abc12345!" scores 4.5 with no feedback and is labelled Moderate |
| Scoring.ExampleStrong | password_strength_meter.py:34-72 | "!#1234ABCabc" scores 5.0 with no feedback and is labelled Strong |
| Scoring.PassesEveryCheck | password_strength_meter.py:43-72 | the two example passwords have every class, all-distinct characters and no run, and are not blacklisted |
| Scoring.ExampleRun | password_strength_meter.py:34-72 | "aaa" scores 0.5 and gets the length, upper, digit, special and repetition messages |
| Scoring.RunFacts | password_strength_meter.py:43-72 | "aaa" is not blacklisted, has a lower-case letter and a run of three, and has no upper-case letter, digit or special character |
| Scoring.StrengthLabelOf | password_strength_meter.py:100-109 | the label is Strong exactly from 5, Moderate exactly in [3, 5), Weak exactly below 3 |
| Scoring.LabelMonotone | password_strength_meter.py:100-109 | a higher score never gets a lower label |
| Charset.Span | password_strength_meter.py:85-87 | the upper-case, lower-case and digit alphabets are consecutive code points in order, as Python's `string` constants are |
| Charset.ToLower | password_strength_meter.py:28 | an upper-case letter maps to its lower-case letter 32 code points up, and every other character is unchanged |
| Charset.Lower | password_strength_meter.py:28 | lower-casing keeps the length and folds each character on its own |
| Charset.DistinctCountAtMostLength | password_strength_meter.py:66 | the number of distinct characters is at most the length, and equals it when no character repeats |
| Charset.AlphabetsAreClasses | password_strength_meter.py:84-88 | each alphabet the generator draws from is exactly its character class |
| Charset.AllCharsIsUnionOfClasses | password_strength_meter.py:93 | the fill alphabet is exactly the union of the four classes |
| Meter.FillChars | password_strength_meter.py:92-94 | the fill picks stand for that many characters, each the picked one of the union alphabet |
| Meter.PasswordStrengthMeter.GenerateStrongPassword | password_strength_meter.py:76-98 | the in-place shuffle of the picked characters returns exactly `Generated`: the Fisher-Yates shuffle of the four mandatory characters followed by the fill |
| Meter.PasswordStrengthMeter.PickCharacters | password_strength_meter.py:80-94 | the list built before the shuffle is the four mandatory characters followed by one picked union-alphabet character per remaining position |
| Meter.GeneratedPasswordIsAcceptable | password_strength_meter.py:76-98 | for all choices, the generated password has the requested length (12 below 8), every class and only alphabet characters; it is never blacklisted; it scores at least 3.5 (4.0 from 12 characters) and is never Weak; it is a rearrangement (same multiset) of the four mandatory characters and the fill |
| Meter.Mandatory | password_strength_meter.py:84-89 | the four mandatory characters are, in order, an upper-case letter, a lower-case letter, a digit and a special character |
| Meter.GeneratedHasEveryClass | password_strength_meter.py:84-97 | whatever the draws, the shuffled mandatory characters and fill contain every class and nothing outside the union alphabet |
| Meter.DrawnFromAlphabet | password_strength_meter.py:84-94 | the mandatory characters and the fill all lie in the union alphabet |
| Meter.ShuffleKeepsClasses | password_strength_meter.py:97 | shuffling neither adds nor removes any character class, and it keeps the password inside the alphabet |
| Shuffle.Swap | password_strength_meter.py:97 | one exchange of two positions keeps the length |
| Shuffle.SwapIsPermutation | password_strength_meter.py:97 | one exchange keeps the multiset of elements |
| Shuffle.Shuffled | password_strength_meter.py:97 | the Fisher-Yates result keeps the length |
| Shuffle.ShuffledIsPermutation | password_strength_meter.py:97 | the shuffle is a permutation: it keeps every element with its multiplicity |
| Shuffle.ShuffledSameElements | password_strength_meter.py:97 | a character is in the shuffled list exactly when it was in the original |
| Shuffle.ShuffleInPlace | password_strength_meter.py:97 | the in-place swaps leave the array equal to the Fisher-Yates specification of its old contents, a permutation of them |

## Findings

| source | as written | input that shows it | evidently intended | confidence | as-written member | corrected member |
|---|---|---|---|---|---|---|
| password_strength_meter.py:149 | the score is printed out of 6.0, the number of weight-table entries | "!#1234ABCabc" passes every rule and shows "5.0/6.0" | the printed maximum is 5.0, the most the rules can award | medium, not executed | Scoring.DisplayedMaximumUnreachable | Scoring.ScoreRange |

The same "/6.0" appears on line 172 for generated passwords.
`Scoring.ScoreRange` bounds every score by `MaxScore` (5.0), and
`Scoring.ExampleStrong` shows that 5.0 is reached. One consequence follows
from the 5.0 maximum: the "Strong" label, given from 5 up, needs a perfect
score (`Scoring.TopScoreIffAllRulesPass`).

## Left out

- The Streamlit page (lines 1-4 and 111-194): its layout, tabs, colours,
  slider, button and markdown output are user-interface I/O. Only the
  printed maximum is discussed, under Findings.
- The random source: each `random.choice` becomes the index it picks, and
  `random.shuffle` becomes its Fisher-Yates draws, modelled after CPython's
  algorithm. The model does not capture that the choices are uniform. That
  every permutation is reachable by some draws is not proved here.
- The message texts and the label icons: each feedback text is one
  constructor of `Message`, and `get_strength_label`'s icon is left out
  because it is fixed by the label.
- Unicode digits: `\d` also matches non-ASCII decimal digits, but
  `HasDigit` accepts only `0`-`9`.
- Unicode lower-casing: `str.lower()` also folds non-ASCII characters, but
  `Lower` folds only `A`-`Z`. The blacklist decision is the same either way.
  The only non-ASCII character that lower-cases to a plain ASCII letter is
  the Kelvin sign, which becomes `k`, and no blacklist entry contains `k`.
- Meter.PasswordStrengthMeter.GenerateStrongPassword: the default argument `length=12` (line 76) is not
  modelled; every caller passes the length, because the random choices
  that go with it depend on it.
- Python's separate integer and float score types: the model uses one
  exact `real` for the score.
