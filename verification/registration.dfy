/** The sign-up form: the live email and password hints and the checks `register` runs
    before it sends anything. */
module Registration {
  import opened Wrappers
  import opened Text

  datatype RegisterForm = RegisterForm(
    username: string,
    password: string,
    email: string,
    error: string,
    success: string,
    emailError: string,
    passwordError: string)

  /** The body of the registration request. */
  datatype UserDraft = UserDraft(username: string, password: string, email: string)

  const AdminMessage := "Username or Email cannot contain \"admin\""
  const EmailMessage := "Invalid email format"
  const PasswordMessage := "Password must be at least 8 characters long and contain both uppercase and lowercase letters"
  const ShortPasswordMessage := "Password must be at least 8 characters long"

  // ---------------------------------------------------------------- email

  /** `[a-zA-Z0-9._%+-]` */
  predicate IsLocalChar(c: char) {
    IsLetter(c) || IsDigit(c) || c == '.' || c == '_' || c == '%' || c == '+' || c == '-'
  }

  /** `[a-zA-Z0-9.-]` */
  predicate IsDomainChar(c: char) {
    IsLetter(c) || IsDigit(c) || c == '.' || c == '-'
  }

  /** `^[a-zA-Z0-9._%+-]+@[a-zA-Z0-9.-]+\.[a-zA-Z]{2,}$` matches `s` with its '@' at
      `at` and the '.' before the final letters at `dot`. */
  predicate EmailSplit(s: string, at: int, dot: int) {
    && 0 < at && at + 1 < dot && dot + 2 < |s|
    && (forall i :: 0 <= i < at ==> IsLocalChar(s[i]))
    && s[at] == '@'
    && (forall i :: at < i < dot ==> IsDomainChar(s[i]))
    && s[dot] == '.'
    && (forall i :: dot < i < |s| ==> IsLetter(s[i]))
  }

  /** The email regular expression accepts the whole of `s`. */
  ghost predicate EmailMatches(s: string) {
    exists at, dot :: EmailSplit(s, at, dot)
  }

  /** The last position of `c` before `upto`, or -1 when there is none. */
  function LastIndexOf(s: string, c: char, upto: nat): (i: int)
    requires upto <= |s|
    ensures -1 <= i < upto
    ensures i >= 0 ==> s[i] == c
    ensures forall j :: i < j < upto ==> s[j] != c
    decreases upto
  {
    if upto == 0 then -1 else if s[upto - 1] == c then upto - 1 else LastIndexOf(s, c, upto - 1)
  }

  /** Any accepting split puts the '@' at the first '@' (no class before it admits one)
      and the dot at the last '.' (the letters after it admit none). */
  lemma EmailSplitUnique(s: string, at: int, dot: int)
    requires EmailSplit(s, at, dot)
    ensures at == IndexOf(s, '@', 0) && dot == LastIndexOf(s, '.', |s|)
  {
    assert !IsLocalChar('@');
    assert !IsLetter('.');
  }

  /** The email test: since the split is forced, it is enough to check that one. */
  function IsValidEmail(s: string): (r: bool)
    ensures r <==> EmailMatches(s)
  {
    var at := IndexOf(s, '@', 0);
    var dot := LastIndexOf(s, '.', |s|);
    assert forall a, d :: EmailSplit(s, a, d) ==> a == at && d == dot by {
      forall a, d | EmailSplit(s, a, d) ensures a == at && d == dot {
        EmailSplitUnique(s, a, d);
      }
    }
    EmailSplit(s, at, dot)
  }

  // ---------------------------------------------------------------- password

  /** The password regular expression `^(?=.*[a-z])(?=.*[A-Z]).{8,}$`, read literally:
      each lookahead finds its letter after a run of non-terminators, and the body is at
      least eight non-terminator characters reaching the end. */
  ghost predicate PasswordMatches(s: string) {
    && (exists j :: 0 <= j < |s| && IsLower(s[j]) && forall m :: 0 <= m < j ==> !IsLineTerminator(s[m]))
    && (exists j :: 0 <= j < |s| && IsUpper(s[j]) && forall m :: 0 <= m < j ==> !IsLineTerminator(s[m]))
    && |s| >= 8
    && forall m :: 0 <= m < |s| ==> !IsLineTerminator(s[m])
  }

  function HasLower(s: string): (r: bool)
    ensures r <==> exists j :: 0 <= j < |s| && IsLower(s[j])
    decreases |s|
  {
    if |s| == 0 then false
    else IsLower(s[|s| - 1]) || (assert forall j :: 0 <= j < |s| - 1 ==> s[..|s| - 1][j] == s[j]; HasLower(s[..|s| - 1]))
  }

  function HasUpper(s: string): (r: bool)
    ensures r <==> exists j :: 0 <= j < |s| && IsUpper(s[j])
    decreases |s|
  {
    if |s| == 0 then false
    else IsUpper(s[|s| - 1]) || (assert forall j :: 0 <= j < |s| - 1 ==> s[..|s| - 1][j] == s[j]; HasUpper(s[..|s| - 1]))
  }

  /** The password test: at least eight characters, none a line terminator, with a
      lower-case and an upper-case ASCII letter somewhere. */
  function IsStrongPassword(s: string): (r: bool)
    ensures r <==> PasswordMatches(s)
  {
    |s| >= 8 && (forall m :: 0 <= m < |s| ==> !IsLineTerminator(s[m])) && HasLower(s) && HasUpper(s)
  }

  // ---------------------------------------------------------------- live hints

  /** `validateEmail`: a hint only for a non-empty address the regular expression rejects. */
  function ValidateEmail(f: RegisterForm): (r: RegisterForm)
    ensures r.emailError == "" <==> f.email == "" || EmailMatches(f.email)
    ensures r.emailError != "" ==> r.emailError == EmailMessage
    ensures r == f.(emailError := r.emailError)
  {
    f.(emailError := if f.email != "" && !IsValidEmail(f.email) then EmailMessage else "")
  }

  /** `validatePassword`: a hint only for a non-empty password shorter than eight. */
  function ValidatePassword(f: RegisterForm): (r: RegisterForm)
    ensures r.passwordError == "" <==> f.password == "" || |f.password| >= 8
    ensures r.passwordError != "" ==> r.passwordError == ShortPasswordMessage
    ensures r == f.(passwordError := r.passwordError)
  {
    f.(passwordError := if f.password != "" && |f.password| < 8 then ShortPasswordMessage else "")
  }

  /** Every password `register` accepts also passes the live hint. */
  lemma StrongPasswordHasNoHint(f: RegisterForm)
    requires PasswordMatches(f.password)
    ensures ValidatePassword(f).passwordError == ""
  {
  }

  /** The live hint is weaker than `register`: an all-lower-case password of eight
      letters gets no hint but is refused on submission. */
  lemma HintWeakerThanRegister()
    ensures ValidatePassword(RegisterForm("", "password", "", "", "", "", "")).passwordError == ""
    ensures !PasswordMatches("password")
  {
    assert !HasUpper("password");
  }

  // ---------------------------------------------------------------- register

  /** The lower-cased username or email contains "admin". */
  predicate MentionsAdmin(username: string, email: string) {
    Includes(ToLower(username), "admin") || Includes(ToLower(email), "admin")
  }

  /** `register` up to the remote call: clears both messages, then refuses on "admin",
      then on the email, then on the password, in that order; otherwise it sends the
      three fields unchanged. */
  function Register(f: RegisterForm): (r: (RegisterForm, Option<UserDraft>))
    ensures r.1.Some? <==> !MentionsAdmin(f.username, f.email) && EmailMatches(f.email) && PasswordMatches(f.password)
    ensures r.1.Some? ==> r.1.value == UserDraft(f.username, f.password, f.email) && r.0.error == ""
    ensures MentionsAdmin(f.username, f.email) ==> r.0.error == AdminMessage
    ensures !MentionsAdmin(f.username, f.email) && !EmailMatches(f.email) ==> r.0.error == EmailMessage
    ensures !MentionsAdmin(f.username, f.email) && EmailMatches(f.email) && !PasswordMatches(f.password) ==>
      r.0.error == PasswordMessage
    ensures r.0 == f.(error := r.0.error, success := "")
  {
    var cleared := f.(error := "", success := "");
    if MentionsAdmin(f.username, f.email) then (cleared.(error := AdminMessage), None)
    else if !IsValidEmail(f.email) then (cleared.(error := EmailMessage), None)
    else if !IsStrongPassword(f.password) then (cleared.(error := PasswordMessage), None)
    else (cleared, Some(UserDraft(f.username, f.password, f.email)))
  }

  /** The "admin" ban ignores case: an address that is well formed is still refused
      when its lower-cased form contains "admin". */
  lemma AdminBanIgnoresCase()
    ensures Register(RegisterForm("bob", "Secret123", "ADMIN@shop.com", "", "", "", "")).0.error == AdminMessage
  {
    var lowered := ToLower("ADMIN@shop.com");
    assert lowered[0..5] == "admin";
    assert OccursAt(lowered, "admin", 0);
  }
}
