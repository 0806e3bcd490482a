/**
 * Self-registration (SysRegisterServiceImpl): the one-shot captcha check and
 * the ordered checks before a new account is created.
 */
module Register {
  import opened Common
  import opened Text
  import opened Stores

  /** The captcha cache key of a request's uuid; a blank or null uuid gives the bare prefix. */
  function CaptchaKey(uuid: Option<string>): (k: string)
    ensures IsBlank(uuid) ==> k == CAPTCHA_CODE_KEY
    ensures !IsBlank(uuid) ==> k == CAPTCHA_CODE_KEY + uuid.value
  {
    CAPTCHA_CODE_KEY + (if IsBlank(uuid) then "" else uuid.value)
  }

  /** What a validation answers for the stored captcha and the submitted code. */
  function CaptchaVerdict(stored: Option<string>, code: Option<string>): (r: Outcome)
    ensures stored.None? ==> r == Fail(CaptchaExpireException)
    ensures stored.Some? ==> (r == Pass <==> EqualsIgnoreCase(code, stored.value))
    ensures stored.Some? && r.Fail? ==> r == Fail(CaptchaException)
  {
    if stored.None? then Fail(CaptchaExpireException)
    else if !EqualsIgnoreCase(code, stored.value) then Fail(CaptchaException)
    else Pass
  }

  /** Case does not matter: a code matches the captcha exactly when its lower-case form does. */
  lemma CaptchaIgnoresCase(stored: string, code: string)
    ensures CaptchaVerdict(Some(stored), Some(code)) == CaptchaVerdict(Some(stored), Some(ToLower(code)))
  {
    assert ToLower(ToLower(code)) == ToLower(code) by {
      forall i | 0 <= i < |code| ensures ToLowerChar(ToLowerChar(code[i])) == ToLowerChar(code[i]) {
      }
    }
  }

  /** The message key of the audit event of a refused captcha. */
  function CaptchaFailureKey(e: Exception): string {
    if e == CaptchaExpireException then "user.jcaptcha.expire" else "user.jcaptcha.error"
  }

  /** The captcha of a uuid can be used once: after any validation the next one finds it expired. */
  lemma CaptchaSingleUse(entries: map<string, Entry<string>>, uuid: Option<string>, code: Option<string>)
    ensures var after := entries - {CaptchaKey(uuid)};
      CaptchaVerdict(if CaptchaKey(uuid) in after then Some(after[CaptchaKey(uuid)].value) else None, code)
        == Fail(CaptchaExpireException)
  {
  }

  /** RegisterBody: the fields of a registration request. */
  datatype RegisterBody = RegisterBody(
    tenantId: Option<string>,
    username: string,
    password: string,
    userType: Option<string>,
    code: Option<string>,
    uuid: Option<string>)

  /** SysUserBo as handed to registerUser. */
  datatype NewUser = NewUser(userName: string, nickName: string, password: string, userType: string)

  const REGISTER_SAVE_ERROR: string := "user.register.save.error"
  const REGISTER_ERROR: string := "user.register.error"

  class RegisterService {
    const captchas: KeyValueCache<string, string>
    const bus: EventBus
    const i18n: Localizer
    /** captcha.enable of the configuration. */
    const captchaEnabled: bool

    constructor (captchas: KeyValueCache<string, string>, bus: EventBus, i18n: Localizer, captchaEnabled: bool)
      ensures this.captchas == captchas && this.bus == bus && this.i18n == i18n
      ensures this.captchaEnabled == captchaEnabled
    {
      this.captchas := captchas;
      this.bus := bus;
      this.i18n := i18n;
      this.captchaEnabled := captchaEnabled;
    }

    /**
     * validateCaptcha: read the captcha, delete it whatever follows, then
     * refuse an expired one or a code that differs ignoring case, auditing the refusal.
     */
    method ValidateCaptcha(tenantId: Option<string>, username: string, code: Option<string>, uuid: Option<string>,
                           request: RequestInfo) returns (r: Outcome)
      modifies captchas, bus
      ensures captchas.entries == old(captchas.entries) - {CaptchaKey(uuid)}
      ensures r == CaptchaVerdict(old(captchas.Get(CaptchaKey(uuid))), code)
      ensures r.Fail? ==>
        bus.published == old(bus.published) +
          [LoginInfoEvent(tenantId, Some(username), LOGIN_FAIL, i18n(CaptchaFailureKey(r.error), []), request)]
      ensures r == Pass ==> bus.published == old(bus.published)
    {
      var verifyKey := CaptchaKey(uuid);
      var captcha := captchas.Get(verifyKey);
      captchas.Delete(verifyKey);
      if captcha.None? {
        bus.Publish(LoginInfoEvent(tenantId, Some(username), LOGIN_FAIL, i18n("user.jcaptcha.expire", []), request));
        return Fail(CaptchaExpireException);
      }
      if !EqualsIgnoreCase(code, captcha.value) {
        bus.Publish(LoginInfoEvent(tenantId, Some(username), LOGIN_FAIL, i18n("user.jcaptcha.error", []), request));
        return Fail(CaptchaException);
      }
      r := Pass;
    }

    /**
     * register: `userType` is the resolved user type (None when the requested
     * one is unknown), `taken` whether the username is taken in the tenant,
     * `registered` what registerUser answers and `hash` the password hash.
     * `submitted` is the account handed to registerUser, if it got that far.
     */
    method Register(body: RegisterBody, userType: Option<string>, taken: bool, registered: bool,
                    hash: string -> string, request: RequestInfo) returns (r: Outcome, submitted: Option<NewUser>)
      modifies captchas, bus
      ensures var captchaOk := !captchaEnabled
          || CaptchaVerdict(old(captchas.Get(CaptchaKey(body.uuid))), body.code) == Pass;
        (submitted.Some? <==> userType.Some? && captchaOk && !taken)
        && (r == Pass <==> submitted.Some? && registered)
      ensures submitted.Some? ==>
        submitted.value == NewUser(body.username, body.username, hash(body.password), userType.value)
      ensures userType.None? ==> r == Fail(UnknownUserType)
      ensures userType.Some? && captchaEnabled ==>
        var c := CaptchaVerdict(old(captchas.Get(CaptchaKey(body.uuid))), body.code);
        c.Fail? ==> r == c
      // A taken username is refused before registerUser is called.
      ensures var captchaOk := !captchaEnabled
          || CaptchaVerdict(old(captchas.Get(CaptchaKey(body.uuid))), body.code) == Pass;
        userType.Some? && captchaOk && taken ==>
          r == Fail(UserException(REGISTER_SAVE_ERROR, [Str(body.username)])) && submitted.None?
      ensures submitted.Some? && !registered ==> r == Fail(UserException(REGISTER_ERROR, []))
      // The captcha is consumed only when it is checked.
      ensures captchas.entries == if userType.Some? && captchaEnabled
        then old(captchas.entries) - {CaptchaKey(body.uuid)} else old(captchas.entries)
      // A REGISTER event only after a successful registration.
      ensures r == Pass ==>
        bus.published == old(bus.published) +
          [LoginInfoEvent(body.tenantId, Some(body.username), REGISTER, i18n("user.register.success", []), request)]
      ensures r.Fail? ==> forall k :: |old(bus.published)| <= k < |bus.published| ==> bus.published[k].status == LOGIN_FAIL
      // Only a refused captcha is audited: an unknown user type, a taken name or a failed registerUser publish nothing.
      ensures var captchaOk := !captchaEnabled
          || CaptchaVerdict(old(captchas.Get(CaptchaKey(body.uuid))), body.code) == Pass;
        (userType.None? || captchaOk) && r.Fail? ==> bus.published == old(bus.published)
    {
      submitted := None;
      if userType.None? {
        return Fail(UnknownUserType), None;
      }
      if captchaEnabled {
        var c := ValidateCaptcha(body.tenantId, body.username, body.code, body.uuid, request);
        if c.Fail? {
          return c, None;
        }
      }
      var user := NewUser(body.username, body.username, hash(body.password), userType.value);
      if taken {
        return Fail(UserException(REGISTER_SAVE_ERROR, [Str(body.username)])), None;
      }
      submitted := Some(user);
      if !registered {
        return Fail(UserException(REGISTER_ERROR, [])), submitted;
      }
      bus.Publish(LoginInfoEvent(body.tenantId, Some(body.username), REGISTER, i18n("user.register.success", []), request));
      r := Pass;
    }
  }
}
