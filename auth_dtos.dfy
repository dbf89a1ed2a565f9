/** The account request bodies (backend/src/auth/dtos) and the two password regular expressions.

    A regular expression is modelled by what it accepts. A lookahead `(?=.*[C])` at position k
    holds when a character of class C occurs at or after k with no line terminator before it,
    since `.` does not match a line terminator. The four classes `[A-Z]`, `[a-z]`, `\d` and
    `[^A-Za-z0-9]` split every character into exactly one class. */
module AuthDtos {
  import opened Common

  datatype CharClass = Upper | Lower | Digit | Other

  function ClassOf(c: char): CharClass {
    if IsUpper(c) then Upper else if IsLower(c) then Lower else if IsDigit(c) then Digit else Other
  }

  /** No line terminator in s[from..to]. */
  predicate NoLineTerminatorIn(s: string, from: nat, to: nat) {
    forall m :: from <= m < to && m < |s| ==> !IsLineTerminator(s[m])
  }

  /** `(?=.*[C])` tried at position k. */
  predicate LookaheadAt(s: string, k: nat, c: CharClass) {
    exists j :: k <= j < |s| && ClassOf(s[j]) == c && NoLineTerminatorIn(s, k, j)
  }

  predicate AnyLookaheadAt(s: string, k: nat) {
    LookaheadAt(s, k, Upper) || LookaheadAt(s, k, Lower) || LookaheadAt(s, k, Digit) || LookaheadAt(s, k, Other)
  }

  /** `/(?=.*[A-Z])|(?=.*[a-z])|(?=.*\d)|(?=.*[^A-Za-z0-9])/g`, the rule of registration and of a
      password change: `@Matches` succeeds when one of the alternatives matches at some position. */
  predicate RegisterRegexMatches(s: string) {
    exists k: nat :: k <= |s| && AnyLookaheadAt(s, k)
  }

  /** The registration rule holds exactly of the non-empty strings: the first character belongs
      to one of the four classes, so the lookahead succeeds at position 0 without consuming anything. */
  lemma RegisterRegexIffNonEmpty(s: string)
    ensures RegisterRegexMatches(s) <==> |s| > 0
  {
    if |s| > 0 {
      assert ClassOf(s[0]) == ClassOf(s[0]) && NoLineTerminatorIn(s, 0, 0);
      assert LookaheadAt(s, 0, ClassOf(s[0]));
      assert AnyLookaheadAt(s, 0);
    }
  }

  /** `(?:(?=.*[a-z])(?=.*[A-Z])|…|(?=.*\d)(?=.*[^A-Za-z0-9]))` at position 0: one of the six pairs. */
  predicate PairLookaheads(s: string) {
    || (LookaheadAt(s, 0, Lower) && LookaheadAt(s, 0, Upper))
    || (LookaheadAt(s, 0, Lower) && LookaheadAt(s, 0, Digit))
    || (LookaheadAt(s, 0, Lower) && LookaheadAt(s, 0, Other))
    || (LookaheadAt(s, 0, Upper) && LookaheadAt(s, 0, Digit))
    || (LookaheadAt(s, 0, Upper) && LookaheadAt(s, 0, Other))
    || (LookaheadAt(s, 0, Digit) && LookaheadAt(s, 0, Other))
  }

  /** The reset rule `/^(?:…pairs…).*$/`: the pairs hold at 0, and `.*$` reaches the end of the
      input, so the whole string is free of line terminators. */
  predicate ResetRegexMatches(s: string) {
    PairLookaheads(s) && NoLineTerminatorIn(s, 0, |s|)
  }

  /** Two characters of s belong to different classes. */
  predicate TwoClasses(s: string) {
    exists i, j :: 0 <= i < |s| && 0 <= j < |s| && ClassOf(s[i]) != ClassOf(s[j])
  }

  lemma LookaheadFromStart(s: string, c: CharClass)
    requires NoLineTerminatorIn(s, 0, |s|)
    ensures LookaheadAt(s, 0, c) <==> exists i :: 0 <= i < |s| && ClassOf(s[i]) == c
  {
    if exists i :: 0 <= i < |s| && ClassOf(s[i]) == c {
      var i :| 0 <= i < |s| && ClassOf(s[i]) == c;
      assert NoLineTerminatorIn(s, 0, i);
    }
  }

  lemma TwoClassesGivePairs(s: string)
    requires NoLineTerminatorIn(s, 0, |s|) && TwoClasses(s)
    ensures PairLookaheads(s)
  {
    var i, j :| 0 <= i < |s| && 0 <= j < |s| && ClassOf(s[i]) != ClassOf(s[j]);
    LookaheadFromStart(s, ClassOf(s[i]));
    LookaheadFromStart(s, ClassOf(s[j]));
  }

  lemma PairsGiveTwoClasses(s: string)
    requires NoLineTerminatorIn(s, 0, |s|) && PairLookaheads(s)
    ensures TwoClasses(s)
  {
    var a, b :| a != b && LookaheadAt(s, 0, a) && LookaheadAt(s, 0, b);
    LookaheadFromStart(s, a);
    LookaheadFromStart(s, b);
    var i :| 0 <= i < |s| && ClassOf(s[i]) == a;
    var j :| 0 <= j < |s| && ClassOf(s[j]) == b;
  }

  /** The reset rule accepts exactly the one-line strings that mix at least two of lower-case,
      upper-case, digits and other characters. */
  lemma ResetRegexIff(s: string)
    ensures ResetRegexMatches(s) <==> NoLineTerminatorIn(s, 0, |s|) && TwoClasses(s)
  {
    if NoLineTerminatorIn(s, 0, |s|) {
      if TwoClasses(s) {
        TwoClassesGivePairs(s);
      }
      if PairLookaheads(s) {
        PairsGiveTwoClasses(s);
      }
    }
  }

  /** However long, a password drawn from one class only (all lower-case, say) fails the reset rule. */
  lemma OneClassFailsReset(s: string, c: CharClass)
    requires forall i :: 0 <= i < |s| ==> ClassOf(s[i]) == c
    ensures !ResetRegexMatches(s)
  {
    ResetRegexIff(s);
  }

  // ---------------------------------------------------------------- request bodies

  /** `@IsNotEmpty()`: present and not ''. */
  predicate Present(s: Option<string>) {
    s.Some? && s.value != ""
  }

  /** `@MinLength(n)` on a present string. */
  predicate AtLeast(s: Option<string>, n: nat) {
    s.Some? && |s.value| >= n
  }

  datatype RegisterDto = RegisterDto(
    email: Option<string>,
    username: Option<string>,
    password: Option<string>,
    confirmPassword: Option<string>,
    birthday: Option<string>,
    location: Option<string>)

  /** RegisterDto's rules. `isEmail` stands for `@IsEmail`, `parseDate` for `@Type(() => Date)`
      followed by `@IsDate` (None for an invalid date). */
  predicate ValidRegister(d: RegisterDto, isEmail: string -> bool, parseDate: string -> Option<int>) {
    && Present(d.email) && isEmail(d.email.value)
    && Present(d.username)
    && Present(d.password) && AtLeast(d.password, 8) && RegisterRegexMatches(d.password.value)
    && Present(d.confirmPassword)
    && (d.birthday.None? || parseDate(d.birthday.value).Some?)
  }

  /** Of the registration password rules only the length has any effect. */
  lemma RegisterPasswordIsLengthOnly(d: RegisterDto, isEmail: string -> bool, parseDate: string -> Option<int>)
    requires Present(d.email) && isEmail(d.email.value) && Present(d.username) && Present(d.confirmPassword)
    requires d.birthday.None? || parseDate(d.birthday.value).Some?
    ensures ValidRegister(d, isEmail, parseDate) <==> d.password.Some? && |d.password.value| >= 8
  {
    if d.password.Some? {
      RegisterRegexIffNonEmpty(d.password.value);
    }
  }

  datatype ResetPasswordDto = ResetPasswordDto(token: Option<string>, password: Option<string>, confirmPassword: Option<string>)

  predicate ValidReset(d: ResetPasswordDto) {
    && Present(d.token)
    && Present(d.password) && AtLeast(d.password, 8) && ResetRegexMatches(d.password.value)
    && Present(d.confirmPassword)
  }

  /** A valid reset request carries a token and a one-line password of eight or more characters
      mixing two classes. */
  lemma ValidResetMeaning(d: ResetPasswordDto)
    ensures ValidReset(d) <==>
      && Present(d.token) && Present(d.confirmPassword)
      && d.password.Some? && |d.password.value| >= 8
      && NoLineTerminatorIn(d.password.value, 0, |d.password.value|) && TwoClasses(d.password.value)
  {
    if d.password.Some? {
      ResetRegexIff(d.password.value);
    }
  }

  /** "abcdefgh" satisfies registration's rule and fails the reset rule. */
  lemma ResetStricterThanRegister()
    ensures RegisterRegexMatches("abcdefgh")
    ensures !ResetRegexMatches("abcdefgh")
  {
    RegisterRegexIffNonEmpty("abcdefgh");
    OneClassFailsReset("abcdefgh", Lower);
  }
}
