/**
 * The field validator of shared/utility.ts: `checkValidity(value, rules)`
 * evaluates up to seven optional rules against a string and ANDs the results.
 * A rule whose parameter is falsy (`false`, `0`) or absent is skipped.
 */
module Validation {
  import opened Wrappers
  import opened JsBuiltins

  /** One key of the rule record together with its parameter. */
  datatype Rule =
    | Required(on: bool)
    | MinLength(n: int)
    | MaxLength(n: int)
    | Email(on: bool)
    | HasUpperCase(on: bool)
    | HasLowerCase(on: bool)
    | HasSpecialChar(on: bool)

  /** The rule record: every key is optional. */
  datatype RuleSet = RuleSet(
    required: Option<bool>,
    minLength: Option<int>,
    maxLength: Option<int>,
    email: Option<bool>,
    hasUpperCase: Option<bool>,
    hasLowerCase: Option<bool>,
    hasSpecialChar: Option<bool>)

  /** `{}` */
  const NoRules := RuleSet(None, None, None, None, None, None, None)

  /** The position of a rule's key in the record (and in the order of the checks). */
  function Key(rule: Rule): nat {
    match rule
    case Required(_) => 0
    case MinLength(_) => 1
    case MaxLength(_) => 2
    case Email(_) => 3
    case HasUpperCase(_) => 4
    case HasLowerCase(_) => 5
    case HasSpecialChar(_) => 6
  }

  /** The rules present in a record, in the order the checks run. */
  function Present(rules: RuleSet): seq<Rule> {
    (if rules.required.Some? then [Required(rules.required.value)] else [])
    + (if rules.minLength.Some? then [MinLength(rules.minLength.value)] else [])
    + (if rules.maxLength.Some? then [MaxLength(rules.maxLength.value)] else [])
    + (if rules.email.Some? then [Email(rules.email.value)] else [])
    + (if rules.hasUpperCase.Some? then [HasUpperCase(rules.hasUpperCase.value)] else [])
    + (if rules.hasLowerCase.Some? then [HasLowerCase(rules.hasLowerCase.value)] else [])
    + (if rules.hasSpecialChar.Some? then [HasSpecialChar(rules.hasSpecialChar.value)] else [])
  }

  /** The record with the key of `rule` set to its parameter (`{...rules, [key]: value}`). */
  function With(rules: RuleSet, rule: Rule): RuleSet {
    match rule
    case Required(b) => rules.(required := Some(b))
    case MinLength(n) => rules.(minLength := Some(n))
    case MaxLength(n) => rules.(maxLength := Some(n))
    case Email(b) => rules.(email := Some(b))
    case HasUpperCase(b) => rules.(hasUpperCase := Some(b))
    case HasLowerCase(b) => rules.(hasLowerCase := Some(b))
    case HasSpecialChar(b) => rules.(hasSpecialChar := Some(b))
  }

  /** `{ [key]: value }`: the record holding this one rule. */
  function Single(rule: Rule): RuleSet {
    With(NoRules, rule)
  }

  /** `Object.fromEntries(entries)`: later entries overwrite earlier ones with the same key. */
  function FromEntries(entries: seq<Rule>): RuleSet {
    if entries == [] then NoRules
    else With(FromEntries(entries[..|entries| - 1]), entries[|entries| - 1])
  }

  /** No two entries share a key. */
  predicate DistinctKeys(entries: seq<Rule>) {
    forall i, j | 0 <= i < j < |entries| :: Key(entries[i]) != Key(entries[j])
  }

  /** Keys that rise from each entry to the next are distinct. */
  lemma {:induction false} AscendingKeysDistinct(entries: seq<Rule>)
    requires forall i | 0 < i < |entries| :: Key(entries[i - 1]) < Key(entries[i])
    ensures forall i, j | 0 <= i < j < |entries| :: Key(entries[i]) < Key(entries[j])
    ensures DistinctKeys(entries)
    decreases |entries|
  {
    if entries != [] {
      var init := entries[..|entries| - 1];
      AscendingKeysDistinct(init);
      var last := |entries| - 1;
      forall i | 0 <= i < last ensures Key(entries[i]) < Key(entries[last]) {
        assert init[i] == entries[i];
        if i < last - 1 {
          assert Key(init[i]) < Key(init[last - 1]);
        }
      }
      assert forall i | 0 <= i < |init| :: init[i] == entries[i];
    }
  }

  // ---------------------------------------------------------------------
  // Character classes and the email shape
  // ---------------------------------------------------------------------

  datatype CharClass = Upper | Lower | Special

  /** `[A-Z]`, `[a-z]` and `[!@#$%^&*(),.?":{}|<>]`. */
  predicate InClass(c: char, cls: CharClass) {
    match cls
    case Upper => 'A' <= c <= 'Z'
    case Lower => 'a' <= c <= 'z'
    case Special => c in "!@#$%^&*(),.?\":{}|<>"
  }

  /** Some character of `v` belongs to `cls`. */
  predicate HasCharIn(v: string, cls: CharClass) {
    exists i | 0 <= i < |v| :: InClass(v[i], cls)
  }

  /** `[a-z0-9!#$%&'*+/=?^_`{|}~-]`: a character of the part before `@`. */
  predicate IsLocalChar(c: char) {
    ('a' <= c <= 'z') || ('0' <= c <= '9') || c in "!#$%&'*+/=?^_`{|}~-"
  }

  /** `[a-z0-9]` */
  predicate IsLabelEnd(c: char) {
    ('a' <= c <= 'z') || ('0' <= c <= '9')
  }

  /** `[a-z0-9-]` */
  predicate IsLabelChar(c: char) {
    IsLabelEnd(c) || c == '-'
  }

  /** `[L]+`: a non-empty run of local characters. */
  predicate IsLocalRun(s: string) {
    |s| > 0 && forall i | 0 <= i < |s| :: IsLocalChar(s[i])
  }

  /** `[L]+(?:\.[L]+)*`: runs of local characters separated by single dots. */
  predicate IsLocalPart(s: string)
    decreases |s|
  {
    IsLocalRun(s)
    || exists k | 0 < k < |s| :: s[k] == '.' && IsLocalRun(s[..k]) && IsLocalPart(s[k + 1..])
  }

  /** `[a-z0-9](?:[a-z0-9-]*[a-z0-9])?`: one DNS-style label. */
  predicate IsLabel(s: string) {
    |s| > 0 && IsLabelEnd(s[0]) && IsLabelEnd(s[|s| - 1])
    && forall i | 0 <= i < |s| :: IsLabelChar(s[i])
  }

  /** `(?:label\.)+label`: at least two labels separated by single dots. */
  predicate IsDomain(s: string)
    decreases |s|
  {
    exists k | 0 < k < |s| :: s[k] == '.' && IsLabel(s[..k]) && (IsLabel(s[k + 1..]) || IsDomain(s[k + 1..]))
  }

  /** The whole of `s` matches the email pattern: local part, `@`, domain. */
  predicate EmailShaped(s: string) {
    exists k | 0 < k < |s| :: s[k] == '@' && IsLocalPart(s[..k]) && IsDomain(s[k + 1..])
  }

  /** The unanchored `pattern.test(v)`: some substring of `v` matches the email pattern. */
  predicate ContainsEmail(v: string) {
    exists i, j | 0 <= i <= j <= |v| :: EmailShaped(v[i..j])
  }

  // ---------------------------------------------------------------------
  // The rules and checkValidity
  // ---------------------------------------------------------------------

  /** A rule whose parameter is `false` or `0` is skipped by the truthiness guard. */
  predicate IsActive(rule: Rule) {
    match rule
    case Required(b) => b
    case MinLength(n) => n != 0
    case MaxLength(n) => n != 0
    case Email(b) => b
    case HasUpperCase(b) => b
    case HasLowerCase(b) => b
    case HasSpecialChar(b) => b
  }

  /** What one rule demands of `v` when it is active. */
  predicate Demands(v: string, rule: Rule) {
    match rule
    case Required(_) => !IsBlank(v)
    case MinLength(n) => |v| >= n
    case MaxLength(n) => |v| <= n
    case Email(_) => ContainsEmail(v)
    case HasUpperCase(_) => HasCharIn(v, Upper)
    case HasLowerCase(_) => HasCharIn(v, Lower)
    case HasSpecialChar(_) => HasCharIn(v, Special)
  }

  /** `v` satisfies `rule`: the rule is skipped or its demand is met. */
  predicate Holds(v: string, rule: Rule) {
    IsActive(rule) ==> Demands(v, rule)
  }

  /** Every rule present in the record holds of `v`. */
  predicate Passes(v: string, rules: RuleSet) {
    forall r | r in Present(rules) :: Holds(v, r)
  }

  /** `/[A-Z]/.test(v)` and its siblings: a scan for a character of the class. */
  method TestClass(v: string, cls: CharClass) returns (found: bool)
    ensures found <==> HasCharIn(v, cls)
  {
    found := false;
    var i := 0;
    while i < |v| && !found
      invariant 0 <= i <= |v|
      invariant found <==> exists k | 0 <= k < i :: InClass(v[k], cls)
    {
      found := InClass(v[i], cls);
      i := i + 1;
    }
  }

  /** `checkValidity(value, rules)`: seven guarded updates of `isValid`. */
  method CheckValidity(value: string, rules: RuleSet) returns (isValid: bool)
    ensures isValid <==> Passes(value, rules)
  {
    TrimEmptyIffBlank(value);
    KeyHoldsByGuard(value, rules);
    isValid := true;
    if rules.required == Some(true) {
      isValid := Trim(value) != [] && isValid;
    }
    if rules.minLength.Some? && rules.minLength.value != 0 {
      isValid := |value| >= rules.minLength.value && isValid;
    }
    if rules.maxLength.Some? && rules.maxLength.value != 0 {
      isValid := |value| <= rules.maxLength.value && isValid;
    }
    if rules.email == Some(true) {
      isValid := ContainsEmail(value) && isValid;
    }
    if rules.hasUpperCase == Some(true) {
      var found := TestClass(value, Upper);
      isValid := found && isValid;
    }
    if rules.hasLowerCase == Some(true) {
      var found := TestClass(value, Lower);
      isValid := found && isValid;
    }
    if rules.hasSpecialChar == Some(true) {
      var found := TestClass(value, Special);
      isValid := found && isValid;
    }
    PassesByKey(value, rules);
  }

  /** The rule under key `k` holds of `v`, or the record has no such key. */
  predicate KeyHolds(v: string, rules: RuleSet, k: nat) {
    match k
    case 0 => rules.required.Some? ==> Holds(v, Required(rules.required.value))
    case 1 => rules.minLength.Some? ==> Holds(v, MinLength(rules.minLength.value))
    case 2 => rules.maxLength.Some? ==> Holds(v, MaxLength(rules.maxLength.value))
    case 3 => rules.email.Some? ==> Holds(v, Email(rules.email.value))
    case 4 => rules.hasUpperCase.Some? ==> Holds(v, HasUpperCase(rules.hasUpperCase.value))
    case 5 => rules.hasLowerCase.Some? ==> Holds(v, HasLowerCase(rules.hasLowerCase.value))
    case 6 => rules.hasSpecialChar.Some? ==> Holds(v, HasSpecialChar(rules.hasSpecialChar.value))
    case _ => true
  }

  /** Each key's verdict in terms of the truthiness guard and the test the code runs for it. */
  lemma KeyHoldsByGuard(v: string, rules: RuleSet)
    ensures KeyHolds(v, rules, 0) <==> (rules.required == Some(true) ==> !IsBlank(v))
    ensures KeyHolds(v, rules, 1) <==> (rules.minLength.Some? && rules.minLength.value != 0 ==> |v| >= rules.minLength.value)
    ensures KeyHolds(v, rules, 2) <==> (rules.maxLength.Some? && rules.maxLength.value != 0 ==> |v| <= rules.maxLength.value)
    ensures KeyHolds(v, rules, 3) <==> (rules.email == Some(true) ==> ContainsEmail(v))
    ensures KeyHolds(v, rules, 4) <==> (rules.hasUpperCase == Some(true) ==> HasCharIn(v, Upper))
    ensures KeyHolds(v, rules, 5) <==> (rules.hasLowerCase == Some(true) ==> HasCharIn(v, Lower))
    ensures KeyHolds(v, rules, 6) <==> (rules.hasSpecialChar == Some(true) ==> HasCharIn(v, Special))
  {
  }

  /** `Passes` taken key by key. */
  lemma PassesByKey(v: string, rules: RuleSet)
    ensures Passes(v, rules) <==>
      && KeyHolds(v, rules, 0) && KeyHolds(v, rules, 1) && KeyHolds(v, rules, 2) && KeyHolds(v, rules, 3)
      && KeyHolds(v, rules, 4) && KeyHolds(v, rules, 5) && KeyHolds(v, rules, 6)
  {
  }

  // ---------------------------------------------------------------------
  // Properties of the rule record
  // ---------------------------------------------------------------------

  /** The empty record accepts every string. */
  lemma EmptyAcceptsAll(v: string)
    ensures Passes(v, NoRules)
  {
  }

  /**
   * A rule whose parameter is `false` or `0` is skipped, not failed: on its
   * own it accepts every string, and in a record it leaves the verdict to the
   * other keys.
   */
  lemma FalsyRuleSkipped(v: string, rules: RuleSet, rule: Rule)
    requires !IsActive(rule)
    ensures Passes(v, Single(rule))
    ensures Passes(v, With(rules, rule)) <==> PassesExcept(v, rules, Key(rule))
  {
    PresentWith(rules, rule);
    PresentWith(NoRules, rule);
  }

  /** Every present rule other than the one with key `key` holds. */
  predicate PassesExcept(v: string, rules: RuleSet, key: nat) {
    forall r | r in Present(rules) && Key(r) != key :: Holds(v, r)
  }

  /** `{ [key]: value }` passes exactly when that one rule holds. */
  lemma SingleRule(v: string, rule: Rule)
    ensures Passes(v, Single(rule)) <==> Holds(v, rule)
  {
    assert Present(Single(rule)) == [rule];
  }

  /** The result is the AND over the single-rule records drawn from the record. */
  lemma AndComposition(v: string, rules: RuleSet)
    ensures Passes(v, rules) <==> forall r | r in Present(rules) :: Passes(v, Single(r))
  {
    forall r | r in Present(rules) ensures Passes(v, Single(r)) <==> Holds(v, r) {
      SingleRule(v, r);
    }
  }

  /** Setting a key replaces the rule with that key and keeps the others. */
  lemma PresentWith(rules: RuleSet, rule: Rule)
    ensures forall r :: r in Present(With(rules, rule)) <==> r == rule || (r in Present(rules) && Key(r) != Key(rule))
  {
  }

  /** The record built from a table with distinct keys holds exactly the table's rules. */
  lemma {:induction false} FromEntriesPresent(entries: seq<Rule>)
    requires DistinctKeys(entries)
    ensures forall r :: r in Present(FromEntries(entries)) <==> r in entries
    decreases |entries|
  {
    if entries != [] {
      var init, last := entries[..|entries| - 1], entries[|entries| - 1];
      assert DistinctKeys(init);
      FromEntriesPresent(init);
      PresentWith(FromEntries(init), last);
      assert entries == init + [last];
      forall r | r in init ensures Key(r) != Key(last) {
        var i :| 0 <= i < |init| && init[i] == r;
        assert entries[i] == r;
      }
    }
  }

  /** A table with distinct keys passes exactly when each of its rules holds. */
  lemma TablePasses(v: string, entries: seq<Rule>)
    requires DistinctKeys(entries)
    ensures Passes(v, FromEntries(entries)) <==> forall i | 0 <= i < |entries| :: Holds(v, entries[i])
  {
    FromEntriesPresent(entries);
  }

  // ---------------------------------------------------------------------
  // Properties of the individual rules
  // ---------------------------------------------------------------------

  /** `required` fails exactly for the empty and the all-whitespace strings. */
  lemma RequiredRule(v: string)
    ensures Holds(v, Required(true)) <==> Trim(v) != []
    ensures !Holds(v, Required(true)) <==> |v| == 0 || forall i | 0 <= i < |v| :: IsWhitespace(v[i])
  {
    TrimEmptyIffBlank(v);
  }

  /**
   * `minLength n` and `maxLength n` compare the length in code points
   * (Unicode scalar values). JavaScript counts UTF-16 code units, so the two
   * differ for characters outside the Basic Multilingual Plane; README.md
   * lists this under "Left out".
   */
  lemma LengthRules(v: string, n: int)
    requires n != 0
    ensures Holds(v, MinLength(n)) <==> |v| >= n
    ensures Holds(v, MaxLength(n)) <==> |v| <= n
  {
  }

  lemma LabelExamples()
    ensures IsLabel("b") && IsLabel("c") && IsLabel("cd") && IsLabel("ef")
  {
  }

  lemma DomainExamples()
    ensures IsDomain("b.c") && IsDomain("cd.ef")
  {
    LabelExamples();
    assert "b.c"[..1] == "b" && "b.c"[2..] == "c";
    assert "cd.ef"[..2] == "cd" && "cd.ef"[3..] == "ef";
  }

  lemma EmailShapeExamples()
    ensures EmailShaped("a@b.c") && EmailShaped("b@cd.ef")
  {
    DomainExamples();
    assert IsLocalRun("a") && IsLocalRun("b");
    assert "a@b.c"[..1] == "a" && "a@b.c"[2..] == "b.c";
    assert "b@cd.ef"[..1] == "b" && "b@cd.ef"[2..] == "cd.ef";
  }

  /** Any string containing an email-shaped substring passes the `email` rule. */
  lemma EmailAnywhere(prefix: string, s: string, suffix: string)
    requires EmailShaped(s)
    ensures Holds(prefix + s + suffix, Email(true))
  {
    var v := prefix + s + suffix;
    assert v[|prefix|..|prefix| + |s|] == s;
  }

  /** "a@b.c" passes the `email` rule. */
  lemma EmailExampleExact()
    ensures Holds("a@b.c", Email(true))
  {
    var v := "a@b.c";
    EmailShapeExamples();
    assert v[0..|v|] == v;
  }

  /** "Ab@cd.ef" passes the `email` rule through its substring "b@cd.ef". */
  lemma EmailExampleInside()
    ensures Holds("Ab@cd.ef", Email(true))
  {
    var v := "Ab@cd.ef";
    assert v[1..8] == "b@cd.ef";
    EmailShapeExamples();
    assert EmailShaped(v[1..8]);
  }

  /** Without an `@` no substring has the email shape. */
  lemma EmailNeedsAt(v: string)
    requires forall i | 0 <= i < |v| :: v[i] != '@'
    ensures !Holds(v, Email(true))
  {
    forall i, j | 0 <= i <= j <= |v| ensures !EmailShaped(v[i..j]) {
      var s := v[i..j];
      forall k | 0 < k < |s| ensures s[k] != '@' { assert s[k] == v[i + k]; }
    }
  }

  /** The local part ends with a local character. */
  lemma {:induction false} LocalPartLastChar(s: string)
    requires IsLocalPart(s)
    ensures |s| > 0 && IsLocalChar(s[|s| - 1])
    decreases |s|
  {
    if !IsLocalRun(s) {
      var k :| 0 < k < |s| && s[k] == '.' && IsLocalRun(s[..k]) && IsLocalPart(s[k + 1..]);
      LocalPartLastChar(s[k + 1..]);
      assert s[|s| - 1] == s[k + 1..][|s| - k - 2];
    }
  }

  /** A string with no character of the local-part class has no email-shaped substring. */
  lemma EmailNeedsLocalChar(v: string)
    requires forall i | 0 <= i < |v| :: !IsLocalChar(v[i])
    ensures !Holds(v, Email(true))
  {
    forall i, j | 0 <= i <= j <= |v| ensures !EmailShaped(v[i..j]) {
      var s := v[i..j];
      if EmailShaped(s) {
        var k :| 0 < k < |s| && s[k] == '@' && IsLocalPart(s[..k]) && IsDomain(s[k + 1..]);
        LocalPartLastChar(s[..k]);
        assert false;
      }
    }
  }

  /** The character classes are lower-case only, so an upper-case address is refused. */
  lemma EmailUpperCaseRefused()
    ensures !Holds("USER@EXAMPLE.COM", Email(true))
  {
    var v := "USER@EXAMPLE.COM";
    forall i | 0 <= i < |v| ensures !IsLocalChar(v[i]) {
      assert 'A' <= v[i] <= 'Z' || v[i] == '@' || v[i] == '.';
      NotLocalChars(v[i]);
    }
    EmailNeedsLocalChar(v);
  }

  /** Upper-case letters, `@` and `.` are not local-part characters. */
  lemma NotLocalChars(c: char)
    requires 'A' <= c <= 'Z' || c == '@' || c == '.'
    ensures !IsLocalChar(c)
  {
  }

  /** The three character-class rules hold exactly when some character is in the class. */
  lemma CharClassRules(v: string)
    ensures Holds(v, HasUpperCase(true)) <==> exists i | 0 <= i < |v| :: 'A' <= v[i] <= 'Z'
    ensures Holds(v, HasLowerCase(true)) <==> exists i | 0 <= i < |v| :: 'a' <= v[i] <= 'z'
    ensures Holds(v, HasSpecialChar(true)) <==> exists i | 0 <= i < |v| :: v[i] in "!@#$%^&*(),.?\":{}|<>"
  {
  }

  /** The special-character class holds no letter. */
  lemma LettersAreNotSpecial(c: char)
    requires InClass(c, Upper) || InClass(c, Lower)
    ensures !InClass(c, Special)
  {
  }
}
