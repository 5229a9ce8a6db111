/** The sign-up and login pages: the e-mail check, the form validators,
    the per-field check run when a field loses focus, and the single
    `userData` record through which sign-up and login meet. */
module Auth {
  import opened Options
  import opened JsText
  import opened Base64
  import opened Storage

  const UserDataKey: string := "userData"
  const LoggedInKey: string := "isLoggedIn"
  const RememberMeKey: string := "rememberMe"
  const FlagOn: string := "true"

  const MinFullNameLength: nat := 2
  const MinPasswordLength: nat := 6

  const FullNameMessage: string := "Full name must be at least 2 characters long"
  const EmailMessage: string := "Please enter a valid email address"
  const PasswordMessage: string := "Password must be at least 6 characters long"
  const ConfirmMessage: string := "Passwords do not match"

  // ---------------------------------------------------------------------
  // isValidEmail

  /** A run that `[^\s@]+` matches: non-empty, with no white space and no '@'. */
  predicate IsAtom(t: string) {
    |t| > 0 && forall i :: 0 <= i < |t| ==> !IsSpace(t[i]) && t[i] != '@'
  }

  /** A whole-string match of `^[^\s@]+@[^\s@]+\.[^\s@]+$`: the string
      splits at some '@' and some later '.' into three atoms. */
  ghost predicate MatchesEmailPattern(s: string) {
    exists a, d :: 0 <= a < d < |s| && s[a] == '@' && s[d] == '.'
      && IsAtom(s[..a]) && IsAtom(s[a + 1..d]) && IsAtom(s[d + 1..])
  }

  /** The position of the first `c` in `s`. */
  function FirstIndex(s: string, c: char): (r: Option<nat>)
    ensures r.Some? ==> r.value < |s| && s[r.value] == c && c !in s[..r.value]
    ensures r.None? ==> c !in s
  {
    if s == [] then None
    else if s[0] == c then Some(0)
    else match FirstIndex(s[1..], c)
      case None => None
      case Some(i) =>
        assert s[..i + 1] == [s[0]] + s[1..][..i];
        Some(i + 1)
  }

  /** A '.' that is neither the first nor the last character. */
  predicate HasInnerDot(t: string) {
    exists k :: 0 < k < |t| - 1 && t[k] == '.'
  }

  /** The regular expression read off as a scan: the part before the first
      '@' and the part after it are atoms (so there is no second '@'), and
      the part after it has a '.' with something on either side. */
  predicate SplitsAsEmail(s: string) {
    match FirstIndex(s, '@')
    case None => false
    case Some(a) => IsAtom(s[..a]) && IsAtom(s[a + 1..]) && HasInnerDot(s[a + 1..])
  }

  lemma AtomSplit(t: string, k: nat)
    requires IsAtom(t) && 0 < k < |t| - 1
    ensures IsAtom(t[..k]) && IsAtom(t[k + 1..])
  {
  }

  lemma AtomJoin(x: string, y: string)
    requires IsAtom(x) && IsAtom(y)
    ensures IsAtom(x + "." + y)
  {
    var t := x + "." + y;
    forall i | 0 <= i < |t|
      ensures !IsSpace(t[i]) && t[i] != '@'
    {
      if i < |x| { assert t[i] == x[i]; }
      else if i > |x| { assert t[i] == y[i - |x| - 1]; }
    }
  }

  lemma ValidEmailMatches(s: string)
    requires SplitsAsEmail(s)
    ensures MatchesEmailPattern(s)
  {
    var a := FirstIndex(s, '@').value;
    var domain := s[a + 1..];
    var k :| 0 < k < |domain| - 1 && domain[k] == '.';
    AtomSplit(domain, k);
    var d := a + 1 + k;
    assert s[a + 1..d] == domain[..k] && s[d + 1..] == domain[k + 1..];
    assert s[d] == '.';
  }

  lemma MatchIsValidEmail(s: string, a: nat, d: nat)
    requires a < d < |s| && s[a] == '@' && s[d] == '.'
    requires IsAtom(s[..a]) && IsAtom(s[a + 1..d]) && IsAtom(s[d + 1..])
    ensures SplitsAsEmail(s)
  {
    var r := FirstIndex(s, '@');
    assert r.Some? by { assert s[a] in s; }
    assert r.value == a;
    var domain := s[a + 1..];
    assert domain == s[a + 1..d] + "." + s[d + 1..];
    AtomJoin(s[a + 1..d], s[d + 1..]);
    assert domain[d - a - 1] == '.';
  }

  /** The scan accepts exactly the strings the regular expression matches. */
  lemma SplitsAsEmailMatchesPattern(s: string)
    ensures SplitsAsEmail(s) <==> MatchesEmailPattern(s)
  {
    if SplitsAsEmail(s) {
      ValidEmailMatches(s);
    }
    if MatchesEmailPattern(s) {
      var a, d :| 0 <= a < d < |s| && s[a] == '@' && s[d] == '.'
        && IsAtom(s[..a]) && IsAtom(s[a + 1..d]) && IsAtom(s[d + 1..]);
      MatchIsValidEmail(s, a, d);
    }
  }

  /** isValidEmail: true exactly when `^[^\s@]+@[^\s@]+\.[^\s@]+$` matches. */
  function IsValidEmail(s: string): (r: bool)
    ensures r <==> MatchesEmailPattern(s)
  {
    SplitsAsEmailMatchesPattern(s);
    SplitsAsEmail(s)
  }

  /** A valid address holds exactly one '@'. */
  lemma ValidEmailHasOneAt(s: string)
    requires IsValidEmail(s)
    ensures multiset(s)['@'] == 1
  {
    var a := FirstIndex(s, '@').value;
    assert s == s[..a] + [s[a]] + s[a + 1..];
    assert multiset(s[..a])['@'] == 0;
    assert multiset(s[a + 1..])['@'] == 0;
  }

  // ---------------------------------------------------------------------
  // validateSignupForm and validateLoginForm

  /** The inputs a validator can flag, in the order the form checks them;
      `Terms` is reported by an alert rather than beside a field. */
  datatype Field = FullName | Email | Password | ConfirmPassword | Terms

  function Rank(f: Field): nat {
    match f
    case FullName => 0
    case Email => 1
    case Password => 2
    case ConfirmPassword => 3
    case Terms => 4
  }

  predicate InFormOrder(flagged: seq<Field>) {
    forall i, j :: 0 <= i < j < |flagged| ==> Rank(flagged[i]) < Rank(flagged[j])
  }

  /** The values `FormData.get` returns for the sign-up form; an unchecked
      box gives null (None). */
  datatype SignupForm = SignupForm(fullName: string, email: string, password: string,
                                   confirmPassword: string, terms: Option<string>)

  /** The values `FormData.get` returns for the login form. */
  datatype LoginForm = LoginForm(email: string, password: string, rememberMe: Option<string>)

  /** What validateSignupForm accepts: the name is checked trimmed, the
      e-mail and the password as typed. */
  predicate SignupFormValid(f: SignupForm) {
    && |Trim(f.fullName)| >= MinFullNameLength
    && IsValidEmail(f.email)
    && |f.password| >= MinPasswordLength
    && f.password == f.confirmPassword
    && Truthy(f.terms)
  }

  predicate LoginFormValid(f: LoginForm) {
    IsValidEmail(f.email) && |f.password| > 0
  }

  /** `[field]` when its check fails, else nothing. */
  function FlagIf(fails: bool, field: Field): seq<Field> {
    if fails then [field] else []
  }

  /** The inputs flagged when the five sign-up checks fail as given, in
      the order the form checks them. */
  function FlagsFor(badName: bool, badEmail: bool, badPassword: bool, mismatch: bool, noTerms: bool): seq<Field> {
    FlagIf(badName, FullName) + FlagIf(badEmail, Email) + FlagIf(badPassword, Password)
    + FlagIf(mismatch, ConfirmPassword) + FlagIf(noTerms, Terms)
  }

  lemma AppendInOrder(flagged: seq<Field>, fails: bool, field: Field)
    requires InFormOrder(flagged)
    requires forall g :: g in flagged ==> Rank(g) < Rank(field)
    ensures InFormOrder(flagged + FlagIf(fails, field))
  {
  }

  lemma FlagsForMeaning(badName: bool, badEmail: bool, badPassword: bool, mismatch: bool, noTerms: bool)
    ensures var flagged := FlagsFor(badName, badEmail, badPassword, mismatch, noTerms);
      && (flagged == [] <==> !badName && !badEmail && !badPassword && !mismatch && !noTerms)
      && (FullName in flagged <==> badName) && (Email in flagged <==> badEmail)
      && (Password in flagged <==> badPassword) && (ConfirmPassword in flagged <==> mismatch)
      && (Terms in flagged <==> noTerms)
      && InFormOrder(flagged)
  {
    var s1 := FlagIf(badName, FullName);
    var s2 := s1 + FlagIf(badEmail, Email);
    var s3 := s2 + FlagIf(badPassword, Password);
    var s4 := s3 + FlagIf(mismatch, ConfirmPassword);
    AppendInOrder(s1, badEmail, Email);
    AppendInOrder(s2, badPassword, Password);
    AppendInOrder(s3, mismatch, ConfirmPassword);
    AppendInOrder(s4, noTerms, Terms);
  }

  /** The inputs validateSignupForm flags. */
  function SignupFlags(f: SignupForm): seq<Field> {
    FlagsFor(|Trim(f.fullName)| < MinFullNameLength, !IsValidEmail(f.email),
             |f.password| < MinPasswordLength, f.password != f.confirmPassword, !Truthy(f.terms))
  }

  /** Every check runs: an input is flagged exactly when its own check
      fails, the flags come in form order, and the form is valid exactly
      when nothing is flagged. */
  lemma SignupFlagsMeaning(f: SignupForm)
    ensures SignupFlags(f) == [] <==> SignupFormValid(f)
    ensures FullName in SignupFlags(f) <==> |Trim(f.fullName)| < MinFullNameLength
    ensures Email in SignupFlags(f) <==> !IsValidEmail(f.email)
    ensures Password in SignupFlags(f) <==> |f.password| < MinPasswordLength
    ensures ConfirmPassword in SignupFlags(f) <==> f.password != f.confirmPassword
    ensures Terms in SignupFlags(f) <==> !Truthy(f.terms)
    ensures InFormOrder(SignupFlags(f))
  {
    FlagsForMeaning(|Trim(f.fullName)| < MinFullNameLength, !IsValidEmail(f.email),
                    |f.password| < MinPasswordLength, f.password != f.confirmPassword, !Truthy(f.terms));
  }

  /** validateSignupForm: clears the flag only when a check fails and never
      stops early. */
  method ValidateSignupForm(f: SignupForm) returns (isValid: bool, flagged: seq<Field>)
    ensures flagged == SignupFlags(f)
    ensures isValid <==> SignupFormValid(f)
  {
    var badName, badEmail := |Trim(f.fullName)| < MinFullNameLength, !IsValidEmail(f.email);
    var badPassword, mismatch, noTerms := |f.password| < MinPasswordLength, f.password != f.confirmPassword, !Truthy(f.terms);
    isValid, flagged := true, [];
    if badName {
      flagged, isValid := flagged + [FullName], false;
    }
    assert flagged == FlagIf(badName, FullName) && (isValid <==> !badName);
    if badEmail {
      flagged, isValid := flagged + [Email], false;
    }
    assert flagged == FlagIf(badName, FullName) + FlagIf(badEmail, Email);
    assert isValid <==> !badName && !badEmail;
    ghost var upToEmail := flagged;
    if badPassword {
      flagged, isValid := flagged + [Password], false;
    }
    assert flagged == upToEmail + FlagIf(badPassword, Password);
    assert isValid <==> !badName && !badEmail && !badPassword;
    ghost var upToPassword := flagged;
    if mismatch {
      flagged, isValid := flagged + [ConfirmPassword], false;
    }
    assert flagged == upToPassword + FlagIf(mismatch, ConfirmPassword);
    assert isValid <==> !badName && !badEmail && !badPassword && !mismatch;
    ghost var upToConfirm := flagged;
    if noTerms {
      flagged, isValid := flagged + [Terms], false;
    }
    assert flagged == upToConfirm + FlagIf(noTerms, Terms);
    assert flagged == FlagsFor(badName, badEmail, badPassword, mismatch, noTerms);
    FlagsForMeaning(badName, badEmail, badPassword, mismatch, noTerms);
  }

  /** validateLoginForm: both checks run; the password is only required to
      be non-empty. */
  method ValidateLoginForm(f: LoginForm) returns (isValid: bool, flagged: seq<Field>)
    ensures isValid <==> LoginFormValid(f)
    ensures isValid <==> flagged == []
    ensures Email in flagged <==> !IsValidEmail(f.email)
    ensures Password in flagged <==> f.password == ""
    ensures forall g :: g in flagged ==> g == Email || g == Password
    ensures InFormOrder(flagged)
  {
    isValid, flagged := true, [];
    if !IsValidEmail(f.email) {
      flagged, isValid := flagged + [Email], false;
    }
    if |f.password| == 0 {
      flagged, isValid := flagged + [Password], false;
    }
  }

  // ---------------------------------------------------------------------
  // validateField, run when an input loses focus

  /** The error shown for one field, or None when the field is marked as
      fine. Every field is trimmed first; the confirmation is compared with
      the password field's untrimmed value; unknown ids are always fine. */
  function ValidateField(fieldId: string, value: string, passwordValue: string): (error: Option<string>)
    ensures error.Some? ==> fieldId in {"fullName", "email", "password", "confirmPassword"}
    ensures fieldId == "fullName" ==> (error.Some? <==> |Trim(value)| < MinFullNameLength)
    ensures fieldId == "email" ==> (error.Some? <==> !IsValidEmail(Trim(value)))
    ensures fieldId == "password" ==> (error.Some? <==> |Trim(value)| < MinPasswordLength)
    ensures fieldId == "confirmPassword" ==> (error.Some? <==> Trim(value) != passwordValue)
    ensures error.Some? ==> error.value == (if fieldId == "fullName" then FullNameMessage
                                            else if fieldId == "email" then EmailMessage
                                            else if fieldId == "password" then PasswordMessage
                                            else ConfirmMessage)
  {
    var v := Trim(value);
    if fieldId == "fullName" then
      if |v| < MinFullNameLength then Some(FullNameMessage) else None
    else if fieldId == "email" then
      if !IsValidEmail(v) then Some(EmailMessage) else None
    else if fieldId == "password" then
      if |v| < MinPasswordLength then Some(PasswordMessage) else None
    else if fieldId == "confirmPassword" then
      if v != passwordValue then Some(ConfirmMessage) else None
    else None
  }

  /** The field check on the password is at least as strict as the form's,
      which counts surrounding white space: a password the field check
      passes also passes the form's length check. */
  lemma PasswordFieldStricterThanForm(value: string, other: string)
    requires ValidateField("password", value, other).None?
    ensures |value| >= MinPasswordLength
  {
  }

  lemma TrimPadded()
    ensures Trim("  abc  ") == "abc"
  {
    assert "  abc  " == "  " + "abc" + "  ";
    TrimStripsPadding("  ", "abc", "  ");
  }

  /** The converse fails: "  abc  " has seven characters, enough for the
      form, but only three once trimmed, so the field check flags it. */
  lemma PaddedPasswordPassesFormOnly()
    ensures |"  abc  "| >= MinPasswordLength
    ensures ValidateField("password", "  abc  ", "").Some?
  {
    TrimPadded();
    assert |Trim("  abc  ")| < MinPasswordLength;
  }

  /** A valid address holds no white space at all. */
  lemma ValidEmailHasNoSpace(s: string)
    requires IsValidEmail(s)
    ensures NoSpace(s) && s != []
  {
    var a := FirstIndex(s, '@').value;
    assert s == s[..a] + [s[a]] + s[a + 1..];
    forall i | 0 <= i < |s|
      ensures !IsSpace(s[i])
    {
      if i < a { assert s[i] == s[..a][i]; }
      else if i > a { assert s[i] == s[a + 1..][i - a - 1]; }
    }
  }

  /** The e-mail field check trims, the form check does not: a valid
      address with white space around it passes the field check and fails
      the form. */
  lemma PaddedEmailPassesFieldOnly(lead: string, address: string, trail: string, passwordValue: string)
    requires IsValidEmail(address) && AllSpace(lead) && AllSpace(trail) && lead + trail != []
    ensures ValidateField("email", lead + address + trail, passwordValue).None?
    ensures !IsValidEmail(lead + address + trail)
  {
    PaddedEmailTrims(lead, address, trail);
    PaddedHasSpace(lead, address, trail);
    if IsValidEmail(lead + address + trail) {
      ValidEmailHasNoSpace(lead + address + trail);
    }
  }

  lemma PaddedEmailTrims(lead: string, address: string, trail: string)
    requires IsValidEmail(address) && AllSpace(lead) && AllSpace(trail)
    ensures Trim(lead + address + trail) == address
  {
    ValidEmailHasNoSpace(address);
    TrimStripsPadding(lead, address, trail);
  }

  lemma PaddedHasSpace(lead: string, core: string, trail: string)
    requires AllSpace(lead) && AllSpace(trail) && lead + trail != []
    ensures !NoSpace(lead + core + trail)
  {
    var padded := lead + core + trail;
    if lead != [] {
      assert padded[0] == lead[0];
    } else {
      assert padded[|padded| - 1] == trail[|trail| - 1];
    }
  }

  /** A password with white space at either end can never be confirmed by
      the field check, since the trimmed confirmation cannot equal it, while
      the form accepts the identical confirmation. */
  lemma PaddedPasswordNeverConfirmedByField(password: string, confirm: string)
    requires !IsTrimmed(password)
    ensures ValidateField("confirmPassword", confirm, password).Some?
  {
  }

  // ---------------------------------------------------------------------
  // handleSignup and handleLogin, over the one `userData` record

  datatype SignupOutcome = SignupRejected | EncodingFailed | SignedUp

  datatype LoginOutcome = LoginRejected | NoAccount | InvalidCredentials | ReadFailed | LoggedIn

  /** Storage after a sign-up attempt: an invalid form changes nothing; a
      password `btoa` cannot encode throws before anything is written;
      otherwise the one `userData` record is overwritten and the user is
      marked as logged in. */
  function SignupEffect(entries: map<string, Stored>, f: SignupForm, createdAt: string): map<string, Stored> {
    if !SignupFormValid(f) then entries
    else match Btoa(f.password)
      case None => entries
      case Some(encoded) =>
        entries[UserDataKey := UserJson(UserRecord(f.fullName, f.email, encoded, createdAt))]
               [LoggedInKey := Text(FlagOn)]
  }

  function SignupResult(f: SignupForm): SignupOutcome {
    if !SignupFormValid(f) then SignupRejected
    else if Btoa(f.password).None? then EncodingFailed
    else SignedUp
  }

  /** What a login attempt concludes from the stored record: with none (or
      an empty one) there is no account; text that is not JSON makes
      `JSON.parse` throw; a stored list has no e-mail and so mismatches;
      a record matches when its e-mail is the one typed and `atob` of its
      password is the password typed (`atob` is only reached once the
      e-mails agree, and throws on a malformed value). */
  function LoginVerdict(entries: map<string, Stored>, f: LoginForm): LoginOutcome {
    if !LoginFormValid(f) then LoginRejected
    else if UserDataKey !in entries || entries[UserDataKey] == Text("") then NoAccount
    else match entries[UserDataKey]
      case Text(_) => ReadFailed
      case ImageList(_) => InvalidCredentials
      case UserJson(u) =>
        if u.email != f.email then InvalidCredentials
        else match Atob(u.password)
          case None => ReadFailed
          case Some(p) => if p == f.password then LoggedIn else InvalidCredentials
  }

  /** Storage after a login attempt: only a successful one writes, setting
      `isLoggedIn`, and `rememberMe` when the box was ticked. */
  function LoginEffect(entries: map<string, Stored>, f: LoginForm): map<string, Stored> {
    if LoginVerdict(entries, f) != LoggedIn then entries
    else if Truthy(f.rememberMe) then entries[LoggedInKey := Text(FlagOn)][RememberMeKey := Text(FlagOn)]
    else entries[LoggedInKey := Text(FlagOn)]
  }

  /** handleSignup with its timer collapsed: validate, then encode and
      store. */
  method HandleSignup(store: LocalStorage, f: SignupForm, createdAt: string) returns (r: SignupOutcome)
    modifies store
    ensures r == SignupResult(f)
    ensures store.entries == SignupEffect(old(store.entries), f, createdAt)
  {
    var isValid, _ := ValidateSignupForm(f);
    if !isValid {
      return SignupRejected;
    }
    var encoded := Btoa(f.password);
    if encoded.None? {
      return EncodingFailed;
    }
    var userData := UserRecord(f.fullName, f.email, encoded.value, createdAt);
    store.SetItem(UserDataKey, UserJson(userData));
    store.SetItem(LoggedInKey, Text(FlagOn));
    r := SignedUp;
  }

  /** handleLogin with its timer collapsed: validate, read the record,
      compare, and on success set the flags. */
  method HandleLogin(store: LocalStorage, f: LoginForm) returns (r: LoginOutcome)
    modifies store
    ensures r == LoginVerdict(old(store.entries), f)
    ensures store.entries == LoginEffect(old(store.entries), f)
  {
    var isValid, _ := ValidateLoginForm(f);
    if !isValid {
      return LoginRejected;
    }
    var stored := store.GetItem(UserDataKey);
    if !IsTruthy(stored) {
      return NoAccount;
    }
    match stored.value {
      case Text(_) =>
        return ReadFailed;
      case ImageList(_) =>
        return InvalidCredentials;
      case UserJson(u) =>
        if u.email != f.email {
          return InvalidCredentials;
        }
        var decoded := Atob(u.password);
        if decoded.None? {
          return ReadFailed;
        }
        if decoded.value != f.password {
          return InvalidCredentials;
        }
    }
    store.SetItem(LoggedInKey, Text(FlagOn));
    if Truthy(f.rememberMe) {
      store.SetItem(RememberMeKey, Text(FlagOn));
    }
    r := LoggedIn;
  }

  /** Signing up and then logging in with the same e-mail and password
      succeeds, whatever storage held before: `atob` undoes `btoa`. */
  lemma SignupThenLogin(entries: map<string, Stored>, f: SignupForm, createdAt: string, rememberMe: Option<string>)
    requires SignupFormValid(f) && IsLatin1(f.password)
    ensures LoginVerdict(SignupEffect(entries, f, createdAt), LoginForm(f.email, f.password, rememberMe)) == LoggedIn
  {
    var encoded := Btoa(f.password).value;
    AtobBtoa(f.password, encoded);
  }

  /** Sign-up overwrites the single record: after a second sign-up with a
      different e-mail the first account can no longer log in, and the
      second can. */
  lemma SecondSignupLocksOutFirst(entries: map<string, Stored>, first: SignupForm, second: SignupForm,
                                  t1: string, t2: string, rememberMe: Option<string>)
    requires SignupFormValid(first) && IsLatin1(first.password)
    requires SignupFormValid(second) && IsLatin1(second.password)
    requires first.email != second.email
    ensures var after := SignupEffect(SignupEffect(entries, first, t1), second, t2);
      && LoginVerdict(after, LoginForm(first.email, first.password, rememberMe)) == InvalidCredentials
      && LoginVerdict(after, LoginForm(second.email, second.password, rememberMe)) == LoggedIn
  {
    SignupThenLogin(SignupEffect(entries, first, t1), second, t2, rememberMe);
  }

  /** A login succeeds only against a stored record with the typed e-mail
      whose password field is exactly `btoa` of the typed password. */
  lemma LoginNeedsMatchingRecord(entries: map<string, Stored>, f: LoginForm)
    requires LoginVerdict(entries, f) == LoggedIn
    ensures UserDataKey in entries && entries[UserDataKey].UserJson?
    ensures entries[UserDataKey].user.email == f.email
    ensures Btoa(f.password) == Some(entries[UserDataKey].user.password)
  {
    var u := entries[UserDataKey].user;
    AtobBtoa(f.password, u.password);
  }

  /** A failed login writes nothing; a successful one sets `isLoggedIn`,
      sets `rememberMe` exactly when the box was ticked, and leaves every
      other key alone. */
  lemma LoginEffectWrites(entries: map<string, Stored>, f: LoginForm)
    ensures LoginVerdict(entries, f) != LoggedIn ==> LoginEffect(entries, f) == entries
    ensures LoginVerdict(entries, f) == LoggedIn ==>
      var after := LoginEffect(entries, f);
      && after[LoggedInKey] == Text(FlagOn)
      && (Truthy(f.rememberMe) ==> after[RememberMeKey] == Text(FlagOn))
      && forall k :: k != LoggedInKey && !(k == RememberMeKey && Truthy(f.rememberMe)) ==>
           (k in after <==> k in entries) && (k in after ==> after[k] == entries[k])
  {
  }
}
