/**
 * components/AuthModal.tsx: the captcha and the login / registration
 * submit handler. The user list is the parsed `smartpic_users` entry
 * (`[]` when absent); the handler returns the list it writes back.
 */
module AuthModal {
  import opened Wrappers
  import opened Lists
  import opened RandomSource
  import opened Types

  // ---------------------------------------------------------------------
  // Captcha
  // ---------------------------------------------------------------------

  const CaptchaChars: string := "0123456789ABCDEFGHIJKLMNOPQRSTUVWXYZ"
  const CaptchaLength: nat := 4

  /** `generateCaptcha`: four characters drawn uniformly from the alphabet;
      `random(i)` is the i-th `Math.random()` draw. */
  method GenerateCaptcha(random: nat -> Unit) returns (code: string)
    ensures |code| == CaptchaLength
    ensures forall i :: 0 <= i < CaptchaLength ==> code[i] == CaptchaChars[Scale(random(i), |CaptchaChars|)]
    ensures forall i :: 0 <= i < |code| ==> code[i] in CaptchaChars && UpperAlnum(code[i])
  {
    AlphabetIsUpperAlnum();
    code := "";
    for i := 0 to CaptchaLength
      invariant |code| == i
      invariant forall k :: 0 <= k < i ==> code[k] == CaptchaChars[Scale(random(k), |CaptchaChars|)]
    {
      code := code + [CaptchaChars[Scale(random(i), |CaptchaChars|)]];
    }
  }

  /** `toUpperCase` on the ASCII letters. */
  function UpperChar(c: char): (u: char)
    ensures 'a' <= c <= 'z' ==> u as int == c as int - 32
    ensures !('a' <= c <= 'z') ==> u == c
  {
    if 'a' <= c <= 'z' then (c as int - 32) as char else c
  }

  function Upper(s: string): (r: string)
    ensures |r| == |s| && forall i :: 0 <= i < |s| ==> r[i] == UpperChar(s[i])
  {
    seq(|s|, i requires 0 <= i < |s| => UpperChar(s[i]))
  }

  function LowerChar(c: char): char {
    if 'A' <= c <= 'Z' then (c as int + 32) as char else c
  }

  /** A digit or an upper-case ASCII letter. */
  predicate UpperAlnum(c: char) {
    '0' <= c <= '9' || 'A' <= c <= 'Z'
  }

  lemma AlphabetIsUpperAlnum()
    ensures forall k :: 0 <= k < |CaptchaChars| ==> UpperAlnum(CaptchaChars[k])
  {
  }

  /** A code of digits and upper-case letters passes the check whether it
      is typed as shown or in lower case. */
  lemma CaptchaCaseInsensitive(code: string)
    requires forall i :: 0 <= i < |code| ==> UpperAlnum(code[i])
    ensures Upper(code) == code
    ensures Upper(seq(|code|, i requires 0 <= i < |code| => LowerChar(code[i]))) == code
  {
    assert forall i :: 0 <= i < |code| ==> Upper(code)[i] == code[i];
  }

  // ---------------------------------------------------------------------
  // Submit
  // ---------------------------------------------------------------------

  datatype Tab = Login | Register

  /** The form's fields, `""` when left empty. */
  datatype Form = Form(phone: string, password: string, confirmPassword: string, captcha: string, department: string)

  datatype AuthError =
    | WrongAdminPassword   // 密码错误
    | MissingFields        // 请填写所有字段并选择部门
    | WrongCaptcha         // 验证码错误
    | PasswordMismatch     // 两次输入的密码不一致
    | PhoneTaken           // 该手机号已注册
    | BadCredentials       // 手机号或密码错误

  datatype Outcome = LoggedIn(profile: UserProfile) | Registered | Rejected(error: AuthError)

  /** What one click on submit does: the outcome, the user list written
      back, whether a new captcha is drawn, and the tab shown next. */
  datatype Submission = Submission(outcome: Outcome, users: seq<UserProfile>, newCaptcha: bool, nextTab: Tab)

  const AdminPhone: string := "admin"

  /** The profile of the built-in administrator (`admin` / `admin`). */
  function BootstrapAdmin(): UserProfile {
    UserProfile(AdminPhone, None, None, Some("超级管理员"), None, Some(SuperAdmin))
  }

  function StoredAdmin(users: seq<UserProfile>): Option<UserProfile> {
    FindFirst(users, (u: UserProfile) => u.phone == AdminPhone)
  }

  predicate PhoneTakenIn(users: seq<UserProfile>, phone: string) {
    exists u :: u in users && u.phone == phone
  }

  predicate Matches(u: UserProfile, f: Form) {
    u.phone == f.phone && u.password == Some(f.password)
  }

  /** The record a registration stores. */
  function NewUser(f: Form): UserProfile {
    UserProfile(f.phone, Some(f.password), Some(f.department), None, None, Some(User))
  }

  /** The profile handed over on login: no password, role `user` by default. */
  function PublicProfile(u: UserProfile): UserProfile {
    UserProfile(u.phone, None, u.department, u.nickname, u.avatarUrl, Some(u.role.GetOr(User)))
  }

  predicate FieldsFilled(tab: Tab, f: Form) {
    f.phone != "" && f.password != "" && f.captcha != "" && (tab == Register ==> f.department != "")
  }

  /** The administrator branch: only the login tab with phone `admin`. */
  predicate AdminAttempt(tab: Tab, f: Form) {
    tab == Login && f.phone == AdminPhone
  }

  /** The administrator branch decides the outcome: an administrator is
      stored, or the built-in `admin` password was typed. Any other login
      with phone `admin` falls through to the ordinary checks. */
  predicate AdminHandled(tab: Tab, f: Form, users: seq<UserProfile>) {
    AdminAttempt(tab, f) && (StoredAdmin(users).Some? || f.password == "admin")
  }

  /** The first stored user with the typed phone and password. */
  function Credentials(users: seq<UserProfile>, f: Form): Option<UserProfile> {
    FindFirst(users, (u: UserProfile) => Matches(u, f))
  }

  /** `handleSubmit`. */
  function HandleSubmit(tab: Tab, f: Form, captchaCode: string, users: seq<UserProfile>): (r: Submission)
    // a stored administrator takes precedence, and is checked before the captcha
    ensures AdminAttempt(tab, f) && StoredAdmin(users).Some? ==>
              r.outcome == (if StoredAdmin(users).value.password == Some(f.password)
                            then LoggedIn(StoredAdmin(users).value) else Rejected(WrongAdminPassword))
    // the built-in administrator only while none is stored
    ensures r.outcome == LoggedIn(BootstrapAdmin()) <==>
              AdminAttempt(tab, f) && StoredAdmin(users).None? && f.password == "admin"
    // the list is written only by a registration, which appends the new user
    ensures r.users != users ==> r.outcome == Registered
    ensures r.outcome == Registered <==>
              tab == Register && FieldsFilled(tab, f) && Upper(f.captcha) == captchaCode &&
              f.password == f.confirmPassword && !PhoneTakenIn(users, f.phone)
    ensures r.outcome == Registered ==> r.users == users + [NewUser(f)] && r.nextTab == Login
    ensures r.outcome != Registered ==> r.users == users && r.nextTab == tab
    // past the captcha a registration checks the passwords, then the phone
    ensures tab == Register && FieldsFilled(tab, f) && Upper(f.captcha) == captchaCode ==>
              && (f.password != f.confirmPassword ==> r.outcome == Rejected(PasswordMismatch))
              && (f.password == f.confirmPassword && PhoneTakenIn(users, f.phone) ==> r.outcome == Rejected(PhoneTaken))
    // outside the administrator branch the fields and the captcha are checked first
    ensures !AdminHandled(tab, f, users) && !FieldsFilled(tab, f) ==> r.outcome == Rejected(MissingFields)
    ensures !AdminHandled(tab, f, users) && FieldsFilled(tab, f) && Upper(f.captcha) != captchaCode ==>
              r.outcome == Rejected(WrongCaptcha)
    // an ordinary login is the public profile of the first user with that phone and password
    ensures r.outcome.LoggedIn? && !AdminHandled(tab, f, users) ==>
              tab == Login && FieldsFilled(tab, f) && Upper(f.captcha) == captchaCode &&
              Credentials(users, f).Some? && r.outcome.profile == PublicProfile(Credentials(users, f).value)
    ensures tab == Login && !AdminHandled(tab, f, users) && FieldsFilled(tab, f) && Upper(f.captcha) == captchaCode ==>
              (r.outcome.LoggedIn? <==> exists u :: u in users && Matches(u, f)) &&
              (r.outcome.Rejected? ==> r.outcome.error == BadCredentials)
    // a new captcha is drawn after a wrong password or captcha, failed credentials, or a registration
    ensures r.newCaptcha <==>
              r.outcome in {Rejected(WrongAdminPassword), Rejected(WrongCaptcha), Rejected(BadCredentials), Registered}
  {
    var storedAdmin := StoredAdmin(users);
    if AdminAttempt(tab, f) && storedAdmin.Some? then
      if storedAdmin.value.password == Some(f.password)
      then Submission(LoggedIn(storedAdmin.value), users, false, tab)
      else Submission(Rejected(WrongAdminPassword), users, true, tab)
    else if AdminAttempt(tab, f) && f.password == "admin" then
      Submission(LoggedIn(BootstrapAdmin()), users, false, tab)
    else if !FieldsFilled(tab, f) then
      Submission(Rejected(MissingFields), users, false, tab)
    else if Upper(f.captcha) != captchaCode then
      Submission(Rejected(WrongCaptcha), users, true, tab)
    else if tab == Register then
      if f.password != f.confirmPassword then Submission(Rejected(PasswordMismatch), users, false, tab)
      else if FindFirst(users, (u: UserProfile) => u.phone == f.phone).Some? then
        Submission(Rejected(PhoneTaken), users, false, tab)
      else Submission(Registered, users + [NewUser(f)], true, Login)
    else
      match Credentials(users, f)
      case None => Submission(Rejected(BadCredentials), users, true, tab)
      case Some(u) => Submission(LoggedIn(PublicProfile(u)), users, false, tab)
  }

  /** With no administrator stored, phone `admin` and any password but
      `admin` is an ordinary login that no stored user can match: it never
      logs in. */
  lemma AdminPhoneFallsThrough(f: Form, captchaCode: string, users: seq<UserProfile>)
    requires AdminAttempt(Login, f) && StoredAdmin(users).None? && f.password != "admin"
    ensures HandleSubmit(Login, f, captchaCode, users).outcome.Rejected?
    ensures FieldsFilled(Login, f) && Upper(f.captcha) == captchaCode ==>
              HandleSubmit(Login, f, captchaCode, users).outcome == Rejected(BadCredentials)
  {
    assert Credentials(users, f).None? by {
      forall u | u in users ensures !Matches(u, f) {
      }
    }
  }

  /** No two stored users share a phone number. */
  predicate UniquePhones(users: seq<UserProfile>) {
    forall i, j :: 0 <= i < j < |users| ==> users[i].phone != users[j].phone
  }

  /** Every submission keeps phone numbers unique. */
  lemma SubmitKeepsPhonesUnique(tab: Tab, f: Form, captchaCode: string, users: seq<UserProfile>)
    requires UniquePhones(users)
    ensures UniquePhones(HandleSubmit(tab, f, captchaCode, users).users)
  {
    var r := HandleSubmit(tab, f, captchaCode, users);
    if r.outcome == Registered {
      assert forall i :: 0 <= i < |users| ==> users[i].phone != f.phone by {
        forall i | 0 <= i < |users| ensures users[i].phone != f.phone {
          assert users[i] in users;
        }
      }
    }
  }

  /** A user who has just registered logs in with the same phone and
      password, and gets the role `user` and the chosen department. */
  lemma {:induction false} RegisterThenLogin(f: Form, captchaCode: string, users: seq<UserProfile>, typed: string, nextCode: string)
    requires HandleSubmit(Register, f, captchaCode, users).outcome == Registered
    requires f.phone != AdminPhone
    requires typed != "" && Upper(typed) == nextCode
    ensures var after := HandleSubmit(Register, f, captchaCode, users).users;
            HandleSubmit(Login, Form(f.phone, f.password, "", typed, ""), nextCode, after).outcome ==
            LoggedIn(UserProfile(f.phone, None, Some(f.department), None, None, Some(User)))
  {
    var after := users + [NewUser(f)];
    var login := Form(f.phone, f.password, "", typed, "");
    var found := Credentials(after, login);
    assert Matches(after[|users|], login);
    assert found.Some?;
    var i :| 0 <= i < |after| && after[i] == found.value && Matches(after[i], login);
    assert i == |users|;
  }

  /** Registering the phone `admin` while no administrator is stored is
      accepted, stores an ordinary user, and from then on the built-in
      `admin` / `admin` login is no longer available. */
  lemma AdminPhoneRegistrationShadowsBootstrap(f: Form, captchaCode: string, users: seq<UserProfile>, later: Form, laterCode: string)
    requires f.phone == AdminPhone && HandleSubmit(Register, f, captchaCode, users).outcome == Registered
    requires later.phone == AdminPhone
    ensures var after := HandleSubmit(Register, f, captchaCode, users).users;
            StoredAdmin(after) == Some(NewUser(f)) && NewUser(f).role == Some(User) &&
            HandleSubmit(Login, later, laterCode, after).outcome != LoggedIn(BootstrapAdmin())
  {
    var after := users + [NewUser(f)];
    var found := StoredAdmin(after);
    assert after[|users|].phone == AdminPhone;
    var i :| 0 <= i < |after| && after[i] == found.value && after[i].phone == AdminPhone;
    assert i == |users|;
  }
}
