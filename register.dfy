/** The registration form (Register.tsx:21-98): the three validators, the
    order in which handleSubmit applies its checks, and what it hands to
    onRegister. */
module RegisterView {
  import opened Wrappers
  import opened TextFormat
  import opened Users

  /** String.prototype.length: the number of UTF-16 code units, two for a
      character outside the Basic Multilingual Plane. */
  function Utf16Length(s: string): (n: nat)
    ensures |s| <= n <= 2 * |s|
  {
    if s == [] then 0 else (if s[0] as int >= 0x1_0000 then 2 else 1) + Utf16Length(s[1..])
  }

  /** A string of Basic Multilingual Plane characters is as long in UTF-16 as
      it has characters. */
  lemma {:induction false} Utf16LengthBmp(s: string)
    requires forall k :: 0 <= k < |s| ==> s[k] as int < 0x1_0000
    ensures Utf16Length(s) == |s|
  {
    if s != [] {
      assert forall k :: 0 <= k < |s[1..]| ==> s[1..][k] == s[k + 1];
      Utf16LengthBmp(s[1..]);
    }
  }

  /** validateUsername (Register.tsx:37-39). */
  predicate ValidUsername(username: string) {
    3 <= Utf16Length(username) <= 20
  }

  /** validatePassword (Register.tsx:41-43). */
  predicate ValidPassword(password: string) {
    Utf16Length(password) >= 8
  }

  /** The characters \s matches in a JavaScript regular expression: the
      ECMAScript WhiteSpace and LineTerminator characters. */
  predicate JsSpace(c: char) {
    var k := c as int;
    (0x09 <= k <= 0x0D) || k == 0x20 || k == 0xA0 || k == 0x1680
    || (0x2000 <= k <= 0x200A) || k == 0x2028 || k == 0x2029 || k == 0x202F
    || k == 0x205F || k == 0x3000 || k == 0xFEFF
  }

  /** [^\s@]. */
  predicate Plain(c: char) {
    !JsSpace(c) && c != '@'
  }

  /** [^\s@]+. */
  predicate PlainRun(s: string) {
    |s| >= 1 && forall k :: 0 <= k < |s| ==> Plain(s[k])
  }

  /** /^[^\s@]+@[^\s@]+\.[^\s@]+$/ matches s: there is an '@' at i and a dot
      at j with a non-empty [^\s@] run before, between and after them. */
  predicate MatchesEmailPattern(s: string) {
    exists i, j :: 0 <= i < j < |s| && s[i] == '@' && s[j] == '.'
                   && PlainRun(s[..i]) && PlainRun(s[i + 1..j]) && PlainRun(s[j + 1..])
  }

  /** The position of the first c in s, or |s| when there is none. */
  function IndexOf(c: char, s: string): (i: nat)
    ensures i <= |s|
    ensures i < |s| ==> s[i] == c
    ensures forall k :: 0 <= k < i ==> s[k] != c
  {
    if s == [] then 0 else if s[0] == c then 0 else 1 + IndexOf(c, s[1..])
  }

  /** validateEmail (Register.tsx:32-35), by its conditions: no white space,
      exactly one '@', something before it, and a dot after it that is
      neither the first nor the last character of the part after it. */
  predicate ValidEmail(email: string) {
    && (forall k :: 0 <= k < |email| ==> !JsSpace(email[k]))
    && Count('@', email) == 1
    && var at := IndexOf('@', email);
       && at > 0
       && exists k :: at + 1 < k < |email| - 1 && email[k] == '.'
  }

  /** The conditions are exactly what the regular expression accepts. */
  lemma EmailPatternIff(s: string)
    ensures ValidEmail(s) <==> MatchesEmailPattern(s)
  {
    if ValidEmail(s) {
      ValidEmailMatches(s);
    }
    if MatchesEmailPattern(s) {
      var i, j :| 0 <= i < j < |s| && s[i] == '@' && s[j] == '.'
                  && PlainRun(s[..i]) && PlainRun(s[i + 1..j]) && PlainRun(s[j + 1..]);
      MatchIsValid(s, i, j);
    }
  }

  lemma ValidEmailMatches(s: string)
    requires ValidEmail(s)
    ensures MatchesEmailPattern(s)
  {
    var at := IndexOf('@', s);
    if at == |s| {
      CountAbsent('@', s);
    }
    var j :| at + 1 < j < |s| - 1 && s[j] == '.';
    OnlyAt(s, at);
    assert PlainRun(s[..at]);
    assert PlainRun(s[at + 1..j]);
    assert PlainRun(s[j + 1..]);
  }

  /** With a single '@' in s, at position at, no '@' follows it. */
  lemma OnlyAt(s: string, at: int)
    requires 0 <= at < |s| && s[at] == '@' && Count('@', s) == 1
    ensures forall k :: at < k < |s| ==> s[k] != '@'
  {
    var rest := s[at + 1..];
    assert s == s[..at] + [s[at]] + rest;
    CountConcat3('@', s[..at], [s[at]], rest);
    CountAbsent('@', rest);
    assert forall k :: at < k < |s| ==> s[k] == rest[k - at - 1];
  }

  lemma MatchIsValid(s: string, i: int, j: int)
    requires 0 <= i < j < |s| && s[i] == '@' && s[j] == '.'
    requires PlainRun(s[..i]) && PlainRun(s[i + 1..j]) && PlainRun(s[j + 1..])
    ensures ValidEmail(s)
  {
    assert s == s[..i] + ['@'] + s[i + 1..j] + ['.'] + s[j + 1..];
    ShapeIsValid(s[..i], s[i + 1..j], s[j + 1..]);
  }

  /** Three [^\s@] runs around an '@' and a '.' make a valid address. */
  lemma ShapeIsValid(a: string, b: string, c: string)
    requires PlainRun(a) && PlainRun(b) && PlainRun(c)
    ensures ValidEmail(a + ['@'] + b + ['.'] + c)
  {
    var t := a + ['@'] + b + ['.'] + c;
    forall k | 0 <= k < |t|
      ensures !JsSpace(t[k])
    {
      if k < |a| {
        assert t[k] == a[k];
      } else if |a| < k < |a| + 1 + |b| {
        assert t[k] == b[k - |a| - 1];
      } else if |a| + 1 + |b| < k {
        assert t[k] == c[k - |a| - |b| - 2];
      }
    }
    CountAbsent('@', a);
    CountAbsent('@', b);
    CountAbsent('@', c);
    CountConcat3('@', a, ['@'], b);
    CountConcat3('@', a + ['@'] + b, ['.'], c);
    IndexPastPrefix('@', a, ['@'] + b + ['.'] + c);
    assert a + ['@'] + b + ['.'] + c == a + (['@'] + b + ['.'] + c);
    assert t[|a| + 1 + |b|] == '.';
  }

  /** The first c of a + rest is the head of rest when a holds no c. */
  lemma {:induction false} IndexPastPrefix(c: char, a: string, rest: string)
    requires forall k :: 0 <= k < |a| ==> a[k] != c
    requires rest != [] && rest[0] == c
    ensures IndexOf(c, a + rest) == |a|
  {
    if a != [] {
      assert (a + rest)[1..] == a[1..] + rest;
      IndexPastPrefix(c, a[1..], rest);
    } else {
      assert a + rest == rest;
    }
  }

  /** The requirement a failed check reports: t.requiredField,
      t.usernameRequirements, t.invalidEmail, t.passwordRequirements and
      t.passwordMismatch. */
  datatype Requirement =
    | RequiredField
    | UsernameRequirements
    | InvalidEmail
    | PasswordRequirements
    | PasswordMismatch

  /** The checks of handleSubmit in their order (Register.tsx:49-83): the first
      one that fails, or None when all pass. */
  function FirstFailure(username: string, email: string, password: string, confirm: string): (r: Option<Requirement>)
    ensures r == None <==> ValidUsername(username) && ValidEmail(email) && ValidPassword(password) && password == confirm
    ensures r == Some(UsernameRequirements) <==> username != "" && !ValidUsername(username)
    ensures r == Some(InvalidEmail) <==> ValidUsername(username) && email != "" && !ValidEmail(email)
    ensures r == Some(PasswordRequirements) <==> ValidUsername(username) && ValidEmail(email) && password != "" && !ValidPassword(password)
    ensures r == Some(PasswordMismatch) <==> ValidUsername(username) && ValidEmail(email) && ValidPassword(password) && password != confirm
    ensures r == Some(RequiredField) <==>
      || username == ""
      || (ValidUsername(username) && email == "")
      || (ValidUsername(username) && ValidEmail(email) && password == "")
  {
    EmptyRejected();
    if username == "" then Some(RequiredField)
    else if !ValidUsername(username) then Some(UsernameRequirements)
    else if email == "" then Some(RequiredField)
    else if !ValidEmail(email) then Some(InvalidEmail)
    else if password == "" then Some(RequiredField)
    else if !ValidPassword(password) then Some(PasswordRequirements)
    else if password != confirm then Some(PasswordMismatch)
    else None
  }

  /** The validators all reject the empty string, so the emptiness checks only
      choose which message is shown. */
  lemma EmptyRejected()
    ensures !ValidUsername("") && !ValidEmail("") && !ValidPassword("")
  {
    assert Count('@', "") == 0;
  }

  /** The payload of onRegister: the name only when it is non-empty
      (Register.tsx:87-92). */
  function Payload(username: string, email: string, password: string, name: string): (d: RegisterData)
    ensures d.username == username && d.email == email && d.password == password
    ensures d.name.Some? <==> name != ""
    ensures d.name.Some? ==> d.name.value == name
  {
    RegisterData(username, email, password, if name != "" then Some(name) else None)
  }

  /** A payload every check accepts. */
  predicate Acceptable(d: RegisterData) {
    ValidUsername(d.username) && ValidEmail(d.email) && ValidPassword(d.password)
  }

  /** What the form shows as its error: an unmet requirement, or the message
      onRegister was rejected with. */
  datatype RegisterError = Unmet(requirement: Requirement) | Rejected(message: string)

  /** A field of the form. */
  datatype Field = Username | Email | Password | ConfirmPassword | Name

  class RegisterForm {
    var username: string
    var email: string
    var password: string
    var confirmPassword: string
    var name: string
    var error: Option<RegisterError>
    var isLoading: bool
    /** Every payload handed to onRegister, oldest first. */
    var sent: seq<RegisterData>

    /** Only payloads that pass every check are ever handed on. */
    predicate Valid()
      reads this
    {
      forall k :: 0 <= k < |sent| ==> Acceptable(sent[k])
    }

    constructor()
      ensures username == "" && email == "" && password == "" && confirmPassword == "" && name == ""
      ensures error == None && !isLoading && sent == []
      ensures Valid()
    {
      username, email, password, confirmPassword, name := "", "", "", "", "";
      error := None;
      isLoading := false;
      sent := [];
    }

    /** The onChange handler of one field. */
    method Enter(field: Field, value: string)
      modifies this
      ensures username == (if field == Username then value else old(username))
      ensures email == (if field == Email then value else old(email))
      ensures password == (if field == Password then value else old(password))
      ensures confirmPassword == (if field == ConfirmPassword then value else old(confirmPassword))
      ensures name == (if field == Name then value else old(name))
      ensures error == old(error) && isLoading == old(isLoading) && sent == old(sent)
      ensures Valid() == old(Valid())
    {
      match field
      case Username => username := value;
      case Email => email := value;
      case Password => password := value;
      case ConfirmPassword => confirmPassword := value;
      case Name => name := value;
    }

    /** handleSubmit (Register.tsx:45-98). The error is cleared; the first
        failed check sets its requirement and nothing is sent; otherwise the
        payload goes to onRegister, whose rejection message becomes the error,
        and the form is no longer loading. outcome is what onRegister does. */
    method Submit(outcome: Outcome<string>)
      requires Valid()
      modifies this
      ensures Valid()
      ensures username == old(username) && email == old(email) && password == old(password)
      ensures confirmPassword == old(confirmPassword) && name == old(name)
      ensures match FirstFailure(username, email, password, confirmPassword)
        case Some(req) =>
          error == Some(Unmet(req)) && sent == old(sent) && isLoading == old(isLoading)
        case None =>
          && sent == old(sent) + [Payload(username, email, password, name)]
          && !isLoading
          && error == (if outcome.Fail? then Some(Rejected(outcome.error)) else None)
    {
      error := None;
      var failure := FirstFailure(username, email, password, confirmPassword);
      if failure.Some? {
        error := Some(Unmet(failure.value));
        return;
      }
      isLoading := true;
      sent := sent + [Payload(username, email, password, name)];
      if outcome.Fail? {
        error := Some(Rejected(outcome.error));
      }
      isLoading := false;
    }
  }
}
