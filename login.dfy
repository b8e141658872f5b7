/** The sign-in and registration form. Sign-in needs both fields before it calls the auth service.
    Registration runs five checks in a fixed order and reports the first that fails; only a form that
    passes all five is sent, with the phone for a Learner and the expertise otherwise. The email check
    is the pattern `^[\w.-]+@[\w.-]+\.\w+$`, written out here as a scan and proved equal to the
    pattern's language. The auth service's answers are inputs. */
module Login {
  import opened Common

  // ---------------------------------------------------------------- the email pattern

  /** `\w` without the Unicode flag. */
  predicate WordChar(c: char) {
    'A' <= c <= 'Z' || 'a' <= c <= 'z' || '0' <= c <= '9' || c == '_'
  }

  /** `[\w.-]`. */
  predicate NameChar(c: char) {
    WordChar(c) || c == '.' || c == '-'
  }

  predicate AllWord(s: string) {
    forall m :: 0 <= m < |s| ==> WordChar(s[m])
  }

  predicate AllName(s: string) {
    forall m :: 0 <= m < |s| ==> NameChar(s[m])
  }

  /** `s` splits as `a@d.t` at positions `i` ('@') and `k` (the '.'), with `a` and `d` non-empty runs of
      `[\w.-]` and `t` a non-empty run of `\w`. */
  ghost predicate EmailSplit(s: string, i: int, k: int) {
    0 < i && i + 1 < k && k + 1 < |s| && s[i] == '@' && s[k] == '.'
    && AllName(s[..i]) && AllName(s[i + 1..k]) && AllWord(s[k + 1..])
  }

  /** The language of `^[\w.-]+@[\w.-]+\.\w+$`. */
  ghost predicate MatchesEmailPattern(s: string) {
    exists i, k :: EmailSplit(s, i, k)
  }

  /** Position of the last `c` in `s`. */
  function LastIndexOf(s: string, c: char): (r: Option<nat>)
    ensures r.Some? ==> r.value < |s| && s[r.value] == c && forall m :: r.value < m < |s| ==> s[m] != c
    ensures r.None? ==> forall m :: 0 <= m < |s| ==> s[m] != c
  {
    if s == [] then None
    else if s[|s| - 1] == c then Some(|s| - 1)
    else
      var r := LastIndexOf(s[..|s| - 1], c);
      assert forall m :: 0 <= m < |s| - 1 ==> s[..|s| - 1][m] == s[m];
      r
  }

  /** `IndexOf` finds the first occurrence. */
  lemma {:induction false} IndexOfIsFirst(s: string, c: char)
    ensures IndexOf(s, c) < |s| ==> s[IndexOf(s, c)] == c
    ensures forall m :: 0 <= m < IndexOf(s, c) ==> s[m] != c
  {
    if s != [] && s[0] != c {
      IndexOfIsFirst(s[1..], c);
      assert forall m :: 1 <= m < |s| ==> s[m] == s[1..][m - 1];
    }
  }

  /** `validateEmail(email)`: split at the first '@', then the part after it at its last '.'. */
  function ValidateEmail(email: string): bool {
    var at := IndexOf(email, '@');
    if at >= |email| then false
    else
      var local, rest := email[..at], email[at + 1..];
      match LastIndexOf(rest, '.')
      case None => false
      case Some(dot) =>
        |local| > 0 && AllName(local) && dot > 0 && dot + 1 < |rest|
        && AllName(rest[..dot]) && AllWord(rest[dot + 1..])
  }

  /** The scan accepts exactly the pattern's language. */
  lemma ValidateEmailIsPattern(email: string)
    ensures ValidateEmail(email) <==> MatchesEmailPattern(email)
  {
    if ValidateEmail(email) {
      ScanMatchesPattern(email);
    }
    if MatchesEmailPattern(email) {
      PatternPassesScan(email);
    }
  }

  lemma ScanMatchesPattern(email: string)
    requires ValidateEmail(email)
    ensures MatchesEmailPattern(email)
  {
    IndexOfIsFirst(email, '@');
    var at := IndexOf(email, '@');
    var rest := email[at + 1..];
    var dot := LastIndexOf(rest, '.').value;
    var k := at + 1 + dot;
    assert email[at + 1..k] == rest[..dot];
    assert email[k + 1..] == rest[dot + 1..];
    assert EmailSplit(email, at, k);
  }

  lemma PatternPassesScan(email: string)
    requires MatchesEmailPattern(email)
    ensures ValidateEmail(email)
  {
    var i, k :| EmailSplit(email, i, k);
    SplitPassesScan(email, i, k);
  }

  lemma SplitPassesScan(email: string, i: int, k: int)
    requires EmailSplit(email, i, k)
    ensures ValidateEmail(email)
  {
    FirstAtIsSplit(email, i);
    var rest := email[i + 1..];
    var dot := k - i - 1;
    SuffixSlices(email, i + 1, k);
    assert rest[dot] == email[k];
    LastDotAt(rest, dot);
  }

  /** Slicing the suffix from `a` at `k - a` is slicing the whole at `k`. */
  lemma SuffixSlices(s: string, a: int, k: int)
    requires 0 <= a <= k < |s|
    ensures s[a..][..k - a] == s[a..k] && s[a..][k - a + 1..] == s[k + 1..]
  {
  }

  /** The '@' that ends a run of `[\w.-]` is the first one. */
  lemma FirstAtIsSplit(email: string, i: int)
    requires 0 <= i < |email| && email[i] == '@' && AllName(email[..i])
    ensures IndexOf(email, '@') == i
  {
    IndexOfIsFirst(email, '@');
    if IndexOf(email, '@') != i {
      assert false;
    }
  }

  /** A '.' followed only by word characters is the last one. */
  lemma LastDotAt(rest: string, dot: int)
    requires 0 <= dot < |rest| && rest[dot] == '.' && AllWord(rest[dot + 1..])
    ensures LastIndexOf(rest, '.') == Some(dot)
  {
    if LastIndexOf(rest, '.') != Some(dot) {
      assert false;
    }
  }

  /** An accepted address holds exactly one '@'. */
  lemma ValidEmailHasOneAt(email: string)
    requires ValidateEmail(email)
    ensures exists i :: 0 <= i < |email| && email[i] == '@'
    ensures forall m, n :: 0 <= m < |email| && 0 <= n < |email| && email[m] == '@' && email[n] == '@' ==> m == n
  {
    ValidateEmailIsPattern(email);
    var i, k :| EmailSplit(email, i, k);
    forall m | 0 <= m < |email| && email[m] == '@' ensures m == i {
      if m < i {
        assert false;
      } else if i < m < k {
        assert false;
      } else if m > k {
        assert false;
      }
    }
  }

  // ---------------------------------------------------------------- sign-in

  const FillBothFields: string := "Please fill in both fields."
  const LoginFailed: string := "Login failed. Please check your credentials."
  const CoursesPage: string := "/courses"

  /** What a submit leads to: the error shown (empty for none), whether `login` was called, and the
      page navigated to. */
  datatype LoginResult = LoginResult(error: string, loginCalled: bool, navigateTo: Option<string>)

  /** `handleLogin` with `loginOk` the answer of `login(username, password, role)`. */
  function HandleLogin(username: string, password: string, loginOk: bool): (r: LoginResult)
    ensures username == "" || password == "" ==> r == LoginResult(FillBothFields, false, None)
    ensures r.loginCalled <==> username != "" && password != ""
    ensures r.navigateTo.Some? <==> r.loginCalled && loginOk
    ensures r.error == "" <==> r.navigateTo.Some?
  {
    if username == "" || password == "" then LoginResult(FillBothFields, false, None)
    else if loginOk then LoginResult("", true, Some(CoursesPage))
    else LoginResult(LoginFailed, true, None)
  }

  // ---------------------------------------------------------------- registration

  datatype RegisterForm = RegisterForm(
    fullName: string, username: string, email: string, password: string, confirmPassword: string,
    phone: string, expertise: string, role: string)

  /** The body sent to `register`. */
  datatype UserData = UserData(
    username: string, password: string, role: string, name: string, email: string,
    phone: Option<string>, expertise: Option<string>)

  /** The five checks, in the order the form runs them. */
  datatype Check = MissingField | ShortPassword | BadEmail | PasswordMismatch | BadPhone

  const MinPasswordLength: nat := 8
  const MinPhoneLength: nat := 9

  function Message(c: Check): string {
    match c
    case MissingField => "Please fill in all required fields."
    case ShortPassword => "Password must be at least 8 characters long."
    case BadEmail => "Please enter a valid email address (e.g., example@gmail.com)."
    case PasswordMismatch => "Passwords do not match."
    case BadPhone => "Invalid phone number."
  }

  function Rank(c: Check): nat {
    match c
    case MissingField => 0
    case ShortPassword => 1
    case BadEmail => 2
    case PasswordMismatch => 3
    case BadPhone => 4
  }

  /** What each check rejects, on its own. The phone is required only of a Learner and the expertise
      only of an Instructor. */
  predicate Fails(f: RegisterForm, c: Check) {
    match c
    case MissingField =>
      f.fullName == "" || f.username == "" || f.email == "" || f.password == "" || f.confirmPassword == ""
      || (f.role == "Learner" && f.phone == "") || (f.role == "Instructor" && f.expertise == "")
    case ShortPassword => |f.password| < MinPasswordLength
    case BadEmail => !ValidateEmail(f.email)
    case PasswordMismatch => f.password != f.confirmPassword
    case BadPhone => f.role == "Learner" && |f.phone| < MinPhoneLength
  }

  /** The validation chain of `handleRegister`. */
  function FirstFailure(f: RegisterForm): Option<Check> {
    if Fails(f, MissingField) then Some(MissingField)
    else if |f.password| < MinPasswordLength then Some(ShortPassword)
    else if !ValidateEmail(f.email) then Some(BadEmail)
    else if f.password != f.confirmPassword then Some(PasswordMismatch)
    else if f.role == "Learner" && |f.phone| < MinPhoneLength then Some(BadPhone)
    else None
  }

  /** The check reported is the earliest that fails; no report means no check fails. */
  lemma FirstFailureIsEarliest(f: RegisterForm)
    ensures FirstFailure(f).Some? ==>
              Fails(f, FirstFailure(f).value)
              && forall c :: Rank(c) < Rank(FirstFailure(f).value) ==> !Fails(f, c)
    ensures FirstFailure(f).None? ==> forall c :: !Fails(f, c)
  {
  }

  /** `userData`: the phone for a Learner, the expertise for any other role. */
  function MakeUserData(f: RegisterForm): (u: UserData)
    ensures u.phone.Some? <==> f.role == "Learner"
    ensures u.expertise.Some? <==> f.role != "Learner"
    ensures u.phone.Some? ==> u.phone.value == f.phone
    ensures u.expertise.Some? ==> u.expertise.value == f.expertise
    ensures (u.username, u.password, u.role, u.name, u.email) == (f.username, f.password, f.role, f.fullName, f.email)
  {
    var base := UserData(f.username, f.password, f.role, f.fullName, f.email, None, None);
    if f.role == "Learner" then base.(phone := Some(f.phone)) else base.(expertise := Some(f.expertise))
  }

  /** The answer of `register(userData)`: true, false, or an exception with its message. */
  datatype RegisterReply = Registered | NotRegistered | Threw(message: string)

  const RegisterFailed: string := "Registration failed. Please try again later."
  const AutoLoginFailed: string := "Registration successful but login failed. Please try logging in manually."

  /** What a registration submit leads to: the error shown, the body sent (if any), whether the
      automatic `login` ran, and the page navigated to. A `false` from `register` shows nothing. */
  datatype RegisterResult = RegisterResult(error: string, sent: Option<UserData>, loginCalled: bool, navigateTo: Option<string>)

  /** `handleRegister`, with `reply` the answer of `register` and `loginOk` that of the automatic login. */
  function HandleRegister(f: RegisterForm, reply: RegisterReply, loginOk: bool): (r: RegisterResult)
    ensures FirstFailure(f).Some? ==> r == RegisterResult(Message(FirstFailure(f).value), None, false, None)
    ensures FirstFailure(f).None? ==> r.sent == Some(MakeUserData(f))
    // the message shown once the form is sent: the thrown one (or the generic text), the automatic
    // login's failure text, or none
    ensures FirstFailure(f).None? && reply.Threw? ==>
              r.error == (if reply.message == "" then RegisterFailed else reply.message)
    ensures FirstFailure(f).None? && reply == Registered ==> r.error == (if loginOk then "" else AutoLoginFailed)
    ensures FirstFailure(f).None? && reply == NotRegistered ==> r.error == ""
    ensures r.loginCalled <==> r.sent.Some? && reply == Registered
    ensures r.navigateTo.Some? <==> r.loginCalled && loginOk
  {
    match FirstFailure(f)
    case Some(c) => RegisterResult(Message(c), None, false, None)
    case None =>
      var u := MakeUserData(f);
      match reply
      case Registered =>
        if loginOk then RegisterResult("", Some(u), true, Some(CoursesPage))
        else RegisterResult(AutoLoginFailed, Some(u), true, None)
      case NotRegistered => RegisterResult("", Some(u), false, None)
      case Threw(m) => RegisterResult(if m == "" then RegisterFailed else m, Some(u), false, None)
  }

  /** Only a valid form is sent: every required field present, the password long enough and confirmed,
      the address in the pattern's language with exactly one '@', and a Learner's phone long enough. */
  lemma SentFormsAreValid(f: RegisterForm, reply: RegisterReply, loginOk: bool)
    requires HandleRegister(f, reply, loginOk).sent.Some?
    ensures f.fullName != "" && f.username != "" && f.email != ""
    ensures |f.password| >= MinPasswordLength && f.password == f.confirmPassword
    ensures MatchesEmailPattern(f.email)
    ensures forall m, n :: 0 <= m < |f.email| && 0 <= n < |f.email| && f.email[m] == '@' && f.email[n] == '@' ==> m == n
    ensures f.role == "Learner" ==> |f.phone| >= MinPhoneLength
    ensures f.role == "Instructor" ==> f.expertise != ""
  {
    ValidateEmailIsPattern(f.email);
    ValidEmailHasOneAt(f.email);
  }

  /** Outside the Learner role the phone plays no part in validation, and outside the Instructor role
      the expertise plays none. */
  lemma PhoneAndExpertiseByRole(f: RegisterForm, other: string)
    ensures f.role != "Learner" ==> FirstFailure(f.(phone := other)) == FirstFailure(f)
    ensures f.role != "Instructor" ==> FirstFailure(f.(expertise := other)) == FirstFailure(f)
  {
  }

  /** A short password is reported even when the address is also malformed. */
  lemma ShortPasswordBeforeBadEmail(f: RegisterForm)
    requires !Fails(f, MissingField) && |f.password| < MinPasswordLength && !ValidateEmail(f.email)
    ensures HandleRegister(f, Registered, true).error == Message(ShortPassword)
  {
  }
}
