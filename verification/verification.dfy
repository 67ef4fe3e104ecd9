/** Verification codes: e-mail and phone codes for registration and login,
    and the phone code that unlocks a password reset. Codes live in a store
    keyed by (address, purpose); a code registered for one purpose never
    answers for another. */
module Verification {
  import opened Results
  import Text

  datatype Purpose = EmailVerification | PasswordReset | PhoneVerification

  /** The code store: the code currently registered per address and
      purpose. */
  type CodeStore = map<(string, Purpose), string>

  /** Registering replaces whatever code the key held. */
  function Register(codes: CodeStore, key: string, purpose: Purpose, code: string): (r: CodeStore)
    ensures (key, purpose) in r && r[(key, purpose)] == code
    ensures forall k :: k != (key, purpose) ==> (k in r <==> k in codes) && (k in codes ==> r[k] == codes[k])
  {
    codes[(key, purpose) := code]
  }

  /** A code is accepted when it is the one registered for that key and
      purpose. */
  predicate Verify(codes: CodeStore, key: string, code: string, purpose: Purpose)
  {
    (key, purpose) in codes && codes[(key, purpose)] == code
  }

  /** Forgetting a key and purpose; every other entry stays. */
  function Forget(codes: CodeStore, key: string, purpose: Purpose): (r: CodeStore)
    ensures (key, purpose) !in r
    ensures forall k :: k != (key, purpose) ==> (k in r <==> k in codes) && (k in codes ==> r[k] == codes[k])
  {
    codes - {(key, purpose)}
  }

  // ---------------------------------------------------------------------
  // E-mail verification
  // ---------------------------------------------------------------------

  /** The deployment's e-mail rules: an optional domain whitelist and an
      optional ban on aliases ('+' or '.' in the local part). */
  datatype EmailPolicy = EmailPolicy(domainRestriction: bool, whitelist: seq<string>, aliasRestriction: bool)

  predicate DomainAllowed(policy: EmailPolicy, domain: string)
  {
    !policy.domainRestriction || domain in policy.whitelist
  }

  predicate AliasAllowed(policy: EmailPolicy, local: string)
  {
    !policy.aliasRestriction || !(Text.Contains(local, "+") || Text.Contains(local, "."))
  }

  /** `SendEmailVerification`. `validatorOk` is the verdict of the e-mail
      format validator; `registered` the addresses already in the user
      table; `code` the freshly drawn six-character code; `sendOk` whether
      the mail went out. The code is registered before the mail is sent, so
      a failed send leaves it registered. */
  function SendEmailVerification(codes: CodeStore, email: string, validatorOk: bool, policy: EmailPolicy, registered: set<string>, code: string, sendOk: bool): (r: Reply<CodeStore, ()>)
    ensures email == "" || !validatorOk ==> r == Reply(codes, Err(Invalid(BadFormat)))
    ensures r.result.Err? && r.result.error != StoreFailure ==> r.state == codes
    ensures r.state != codes ==> r.state == Register(codes, email, EmailVerification, code)
    ensures r.result.Ok? ==>
      && |Text.Split(email, '@')| == 2 && Text.Count(email, '@') == 1
      && DomainAllowed(policy, Text.Split(email, '@')[1])
      && AliasAllowed(policy, Text.Split(email, '@')[0])
      && email !in registered
      && Verify(r.state, email, code, EmailVerification)
    ensures r.result.Err? && r.result.error == Invalid(EmailInUse) ==> email in registered
  {
    if email == "" || !validatorOk then Reply(codes, Err(Invalid(BadFormat)))
    else
      var parts := Text.Split(email, '@');
      Text.SplitInTwo(email, '@');
      if |parts| != 2 then Reply(codes, Err(Invalid(MalformedEmail)))
      else if !DomainAllowed(policy, parts[1]) then Reply(codes, Err(Invalid(DomainNotAllowed)))
      else if !AliasAllowed(policy, parts[0]) then Reply(codes, Err(Invalid(AliasNotAllowed)))
      else if email in registered then Reply(codes, Err(Invalid(EmailInUse)))
      else
        var after := Register(codes, email, EmailVerification, code);
        Reply(after, if sendOk then Ok(()) else Err(StoreFailure))
  }

  /** The rules an address must meet, stated on its parts: exactly one '@'
      between a local part and a domain, the domain whitelisted when the
      whitelist is on, the local part free of '+' and '.' when aliases are
      banned, and not yet registered. */
  ghost predicate EmailAcceptable(email: string, policy: EmailPolicy, registered: set<string>)
  {
    exists local: string, domain: string ::
      && email == local + "@" + domain
      && '@' !in local && '@' !in domain
      && DomainAllowed(policy, domain)
      && (!policy.aliasRestriction || ('+' !in local && '.' !in local))
      && email !in registered
  }

  /** A code is issued and mailed exactly when the address passes the
      validator and meets the rules above, and the mail goes out. */
  lemma EmailAcceptedIff(codes: CodeStore, email: string, validatorOk: bool, policy: EmailPolicy, registered: set<string>, code: string, sendOk: bool)
    ensures SendEmailVerification(codes, email, validatorOk, policy, registered, code, sendOk).result.Ok? <==>
      email != "" && validatorOk && EmailAcceptable(email, policy, registered) && sendOk
  {
    var r := SendEmailVerification(codes, email, validatorOk, policy, registered, code, sendOk);
    var parts := Text.Split(email, '@');
    if r.result.Ok? {
      Text.SplitInTwo(email, '@');
      Text.SplitJoin(email, '@');
      assert parts[1] == parts[|parts| - 1];
      Text.ContainsChar(parts[0], '+');
      Text.ContainsChar(parts[0], '.');
      assert email == parts[0] + "@" + parts[1];
    }
    if email != "" && validatorOk && EmailAcceptable(email, policy, registered) && sendOk {
      var local: string, domain: string :|
        && email == local + "@" + domain
        && '@' !in local && '@' !in domain
        && DomainAllowed(policy, domain)
        && (!policy.aliasRestriction || ('+' !in local && '.' !in local))
        && email !in registered;
      assert local + "@" + domain == local + ['@'] + domain;
      Text.SplitAround(local, domain, '@');
      Text.ContainsChar(local, '+');
      Text.ContainsChar(local, '.');
    }
  }

  /** Once a code is issued, the verifier accepts that code for that
      address, and a phone or reset code for the same text is untouched. */
  lemma EmailCodeVerifies(codes: CodeStore, email: string, validatorOk: bool, policy: EmailPolicy, registered: set<string>, code: string, sendOk: bool, other: Purpose)
    requires other != EmailVerification
    ensures var r := SendEmailVerification(codes, email, validatorOk, policy, registered, code, sendOk);
      && (r.result.Ok? ==> Verify(r.state, email, code, EmailVerification))
      && (Verify(r.state, email, code, other) <==> Verify(codes, email, code, other))
  {
  }

  // ---------------------------------------------------------------------
  // Phone codes and password reset
  // ---------------------------------------------------------------------

  /** Length a phone number must have, in characters. */
  const PhoneLength := 11
  /** The code every phone request issues: SMS delivery is not wired up. */
  const FixedCode := "1111"
  /** The purpose that asks for a login code rather than a registration
      code. */
  const LoginPurpose := "login"

  /** `SendPhoneVerification`: a login code needs a registered phone; any
      other purpose, the empty one included, is registration and needs an
      unregistered phone. The code is answered to the client. */
  function SendPhoneVerification(codes: CodeStore, phone: string, purpose: string, registered: set<string>): (r: Reply<CodeStore, string>)
    ensures |phone| != PhoneLength ==> r == Reply(codes, Err(Invalid(BadFormat)))
    ensures r.result.Err? ==> r.state == codes
    ensures r.result.Ok? ==> r.result.value == FixedCode && r.state == Register(codes, phone, PhoneVerification, FixedCode)
    ensures r.result.Err? && r.result.error == Invalid(PhoneNotRegistered) ==> purpose == LoginPurpose
    ensures r.result.Err? && r.result.error == Invalid(PhoneInUse) ==> purpose != LoginPurpose
  {
    if |phone| != PhoneLength then Reply(codes, Err(Invalid(BadFormat)))
    else if purpose == LoginPurpose && phone !in registered then Reply(codes, Err(Invalid(PhoneNotRegistered)))
    else if purpose != LoginPurpose && phone in registered then Reply(codes, Err(Invalid(PhoneInUse)))
    else Reply(Register(codes, phone, PhoneVerification, FixedCode), Ok(FixedCode))
  }

  /** The purpose rule both ways: a code is issued exactly when the phone
      has eleven characters and is registered if and only if the purpose is
      login. */
  lemma PhonePurposeRule(codes: CodeStore, phone: string, purpose: string, registered: set<string>)
    ensures SendPhoneVerification(codes, phone, purpose, registered).result.Ok? <==>
      |phone| == PhoneLength && (phone in registered <==> purpose == LoginPurpose)
  {
  }

  /** `SendPasswordResetPhone`: only a registered phone gets a reset code. */
  function SendPasswordResetPhone(codes: CodeStore, phone: string, registered: set<string>): (r: Reply<CodeStore, string>)
    ensures r.result.Ok? <==> |phone| == PhoneLength && phone in registered
    ensures |phone| != PhoneLength ==> r.result == Err(Invalid(BadFormat))
    ensures |phone| == PhoneLength && phone !in registered ==> r.result == Err(Invalid(PhoneNotRegistered))
    ensures r.result.Err? ==> r.state == codes
    ensures r.result.Ok? ==> r.result.value == FixedCode && Verify(r.state, phone, FixedCode, PasswordReset)
    ensures forall k :: k != (phone, PasswordReset) ==> (k in r.state <==> k in codes)
  {
    if |phone| != PhoneLength then Reply(codes, Err(Invalid(BadFormat)))
    else if phone !in registered then Reply(codes, Err(Invalid(PhoneNotRegistered)))
    else Reply(Register(codes, phone, PasswordReset, FixedCode), Ok(FixedCode))
  }

  /** `ResetPassword`: phone and token are required; the token must be the
      registered reset code; the new password (`password`, drawn at random)
      is written (`resetOk`), and only then is the code forgotten, so a
      code unlocks one reset. */
  function ResetPassword(codes: CodeStore, phone: string, token: string, password: string, resetOk: bool): (r: Reply<CodeStore, string>)
    ensures phone == "" || token == "" ==> r == Reply(codes, Err(Invalid(MissingParameter)))
    ensures r.result.Ok? <==> phone != "" && token != "" && Verify(codes, phone, token, PasswordReset) && resetOk
    ensures r.result.Err? ==> r.state == codes
    ensures r.result.Ok? ==> r.result.value == password && r.state == Forget(codes, phone, PasswordReset)
  {
    if phone == "" || token == "" then Reply(codes, Err(Invalid(MissingParameter)))
    else if !Verify(codes, phone, token, PasswordReset) then Reply(codes, Err(Invalid(CodeMismatch)))
    else if !resetOk then Reply(codes, Err(StoreFailure))
    else Reply(Forget(codes, phone, PasswordReset), Ok(password))
  }

  /** A reset code works once: replaying it after a successful reset is
      refused. */
  lemma ResetCodeIsSingleUse(codes: CodeStore, phone: string, token: string, p1: string, p2: string, ok2: bool)
    requires ResetPassword(codes, phone, token, p1, true).result.Ok?
    ensures var after := ResetPassword(codes, phone, token, p1, true).state;
      ResetPassword(after, phone, token, p2, ok2) == Reply(after, Err(Invalid(CodeMismatch)))
  {
  }

  /** Asking for a reset code and then presenting it resets the password. */
  lemma RequestThenReset(codes: CodeStore, phone: string, registered: set<string>, password: string)
    requires |phone| == PhoneLength && phone in registered
    ensures var sent := SendPasswordResetPhone(codes, phone, registered);
      ResetPassword(sent.state, phone, sent.result.value, password, true).result == Ok(password)
  {
  }

  /** A registration or login code does not unlock a password reset. */
  lemma PhoneCodeDoesNotReset(codes: CodeStore, phone: string, purpose: string, registered: set<string>, password: string, resetOk: bool)
    requires (phone, PasswordReset) !in codes
    ensures var sent := SendPhoneVerification(codes, phone, purpose, registered);
      ResetPassword(sent.state, phone, FixedCode, password, resetOk).result.Err?
  {
  }

  /** A reset that fails while writing the password keeps the code, so the
      user can retry with it. */
  lemma FailedResetKeepsCode(codes: CodeStore, phone: string, token: string, password: string)
    requires phone != "" && token != "" && Verify(codes, phone, token, PasswordReset)
    ensures var r := ResetPassword(codes, phone, token, password, false);
      r.result == Err(StoreFailure) && ResetPassword(r.state, phone, token, password, true).result == Ok(password)
  {
  }
}
