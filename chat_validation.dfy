/** The two checks `submitUserInfo` runs before it contacts the webhook
    (src/composables/useChat.ts:73 and :79-80): every field non-blank, and
    the email matching `/^[^\s@]+@[^\s@]+\.[^\s@]+$/`. The pattern is the
    component's own, not any email standard. */
module ChatValidation {
  import opened JsText

  /** `[^\s@]`: a character that each of the pattern's three runs accepts. */
  predicate IsPatternChar(c: char) {
    !IsWhitespace(c) && c != '@'
  }

  /** `emailRegex.test(email)`, written as the pattern's own shape: a
      non-empty run before the `@` at `at`, a non-empty run, the `.` at
      `dot`, a non-empty run, and nothing else; every position except `at`
      holds a pattern character (the `.` at `dot` is one). Backtracking lets
      `dot` be any dot of the domain that has a pattern character on both
      sides. */
  predicate EmailPatternTest(email: string)
    ensures EmailPatternTest(email) ==> |email| >= 5 && '@' in email && '.' in email
  {
    exists at, dot :: 0 < at < |email| && at + 1 < dot < |email| - 1
      && email[at] == '@' && email[dot] == '.'
      && forall k :: 0 <= k < |email| && k != at ==> IsPatternChar(email[k])
  }

  /** How many times `c` occurs in `s`. */
  function Count(s: string, c: char): (n: nat)
    ensures n <= |s|
  {
    if s == [] then 0 else (if s[0] == c then 1 else 0) + Count(s[1..], c)
  }

  /** Where `c` first occurs in `s`, or `|s|` when it does not occur: a
      helper that locates the `@` for `EmailShape`. */
  function IndexOf(s: string, c: char): (i: nat)
    ensures i <= |s|
    ensures i < |s| ==> s[i] == c
    ensures forall k :: 0 <= k < i ==> s[k] != c
  {
    if s == [] then 0 else if s[0] == c then 0 else 1 + IndexOf(s[1..], c)
  }

  /** A `.` that is neither the first nor the last character. */
  predicate HasInnerDot(d: string) {
    exists k :: 0 < k < |d| - 1 && d[k] == '.'
  }

  /** The same pattern described by parts: no whitespace, exactly one `@`,
      a non-empty local part, and a domain holding a `.` that is neither its
      first nor its last character. */
  predicate EmailShape(email: string) {
    && (forall k :: 0 <= k < |email| ==> !IsWhitespace(email[k]))
    && Count(email, '@') == 1
    && 0 < IndexOf(email, '@') < |email|
    && HasInnerDot(email[IndexOf(email, '@') + 1..])
  }

  lemma {:induction false} CountSingle(s: string, c: char, i: nat)
    requires i < |s| && s[i] == c
    requires forall k :: 0 <= k < |s| && k != i ==> s[k] != c
    ensures Count(s, c) == 1
  {
    if i == 0 {
      CountAbsent(s[1..], c);
    } else {
      CountSingle(s[1..], c, i - 1);
    }
  }

  lemma {:induction false} CountAbsent(s: string, c: char)
    requires forall k :: 0 <= k < |s| ==> s[k] != c
    ensures Count(s, c) == 0
  {
    if s != [] {
      CountAbsent(s[1..], c);
    }
  }

  lemma {:induction false} CountPresent(s: string, c: char, i: nat)
    requires i < |s| && s[i] == c
    ensures Count(s, c) >= 1
  {
    if i > 0 {
      CountPresent(s[1..], c, i - 1);
    }
  }

  lemma {:induction false} CountTwice(s: string, c: char, i: nat, j: nat)
    requires i < j < |s| && s[i] == c && s[j] == c
    ensures Count(s, c) >= 2
  {
    if i == 0 {
      CountPresent(s[1..], c, j - 1);
    } else {
      CountTwice(s[1..], c, i - 1, j - 1);
    }
  }

  /** The pattern test holds exactly when the email has the described
      shape. */
  lemma EmailPatternIffShape(email: string)
    ensures EmailPatternTest(email) <==> EmailShape(email)
  {
    if EmailPatternTest(email) {
      var at, dot :| 0 < at < |email| && at + 1 < dot < |email| - 1
        && email[at] == '@' && email[dot] == '.'
        && forall k :: 0 <= k < |email| && k != at ==> IsPatternChar(email[k]);
      CountSingle(email, '@', at);
      assert IndexOf(email, '@') == at;
      var domain := email[at + 1..];
      assert domain[dot - at - 1] == '.';
    }
    if EmailShape(email) {
      var at := IndexOf(email, '@');
      var domain := email[at + 1..];
      var k :| 0 < k < |domain| - 1 && domain[k] == '.';
      var dot := at + 1 + k;
      forall j | 0 <= j < |email| && j != at
        ensures IsPatternChar(email[j])
      {
        if email[j] == '@' {
          if j < at {
            assert false;
          } else {
            CountTwice(email, '@', at, j);
          }
        }
      }
      assert email[dot] == '.';
    }
  }

  /** A plain address passes the pattern. */
  lemma AcceptedEmail()
    ensures EmailPatternTest("ana@mail.ph")
  {
    var good := "ana@mail.ph";
    assert good[3] == '@' && good[8] == '.';
    assert forall k :: 0 <= k < |good| && k != 3 ==> IsPatternChar(good[k]);
  }

  /** Without a dot after the `@` the pattern fails. */
  lemma RejectedNoDot()
    ensures !EmailPatternTest("ana@mail")
  {
    assert '.' !in "ana@mail";
  }

  /** The email is tested untrimmed: a leading space fails the pattern. */
  lemma RejectedLeadingSpace()
    ensures !EmailPatternTest(" ana@mail.ph")
  {
    assert IsWhitespace(" ana@mail.ph"[0]);
  }

  /** A second `@` fails the pattern, whichever `@` the match tries. */
  lemma RejectedDoubleAt()
    ensures !EmailPatternTest("ana@@mail.ph")
  {
    var bad := "ana@@mail.ph";
    assert bad[3] == '@' && bad[4] == '@';
  }
}
