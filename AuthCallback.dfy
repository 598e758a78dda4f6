/** The auth callback route (`GET /auth/callback`): it completes a sign-in
    either by exchanging a PKCE `code` or by verifying an email OTP
    (`token_hash` and `type`), and always answers with one redirect. The two
    auth provider calls are parameters: each maps its arguments to success or
    to an error message. The request URL is reduced to its query; every
    redirect overwrites the path. */
module AuthCallback {

  import opened Wrappers
  import opened SearchParams

  /** What the auth provider answered. */
  datatype AuthOutcome = AuthOk | AuthError(message: string)

  /** The auth call the route made, if any. */
  datatype AuthCall = NoAuthCall | ExchangeCode(code: string) | VerifyOtp(otpType: string, tokenHash: string)

  /** The redirect target: path and query (origin and the rest are unchanged
      from the request). */
  datatype Url = Url(pathname: string, query: Query)

  const LoginSuccessMessage: string := "Đăng nhập thành công!"
  const EmailVerifiedMessage: string := "Xác thực email thành công! Vui lòng đăng nhập."
  const PkceErrorPrefix: string := "Lỗi xác thực (PKCE): "
  const OtpErrorPrefix: string := "Lỗi xác thực (OTP): "
  const InvalidLinkError: string := "Link không hợp lệ (Thiếu code/token). Vui lòng thử lại."
  const ResetPasswordPath: string := "/reset-password"
  const LoginPath: string := "/login"

  /** A parameter is truthy when present and not empty. */
  predicate Truthy(v: Option<string>)
  {
    v.Some? && v.value != ""
  }

  /** `searchParams.get("next") ?? "/"`: only an absent parameter defaults; an
      empty one is kept. */
  function NextPath(q: Query): (r: string)
    ensures Get(q, "next").None? ==> r == "/"
    ensures Get(q, "next").Some? ==> r == Get(q, "next").value
  {
    match Get(q, "next")
    case None => "/"
    case Some(n) => n
  }

  /** Which auth call the query leads to: a truthy `code` wins whatever else is
      present; otherwise both `token_hash` and `type` must be truthy. */
  function SelectCall(q: Query): (r: AuthCall)
    ensures r.ExchangeCode? <==> Truthy(Get(q, "code"))
    ensures r.VerifyOtp? <==> !Truthy(Get(q, "code")) && Truthy(Get(q, "token_hash")) && Truthy(Get(q, "type"))
    ensures r.ExchangeCode? ==> r.code == Get(q, "code").value
    ensures r.VerifyOtp? ==> r.otpType == Get(q, "type").value && r.tokenHash == Get(q, "token_hash").value
  {
    var code := Get(q, "code");
    var tokenHash := Get(q, "token_hash");
    var otpType := Get(q, "type");
    if Truthy(code) then ExchangeCode(code.value)
    else if Truthy(tokenHash) && Truthy(otpType) then VerifyOtp(otpType.value, tokenHash.value)
    else NoAuthCall
  }

  /** The provider's answer to the call made, if one was made. */
  function AnswerTo(call: AuthCall, exchangeCode: string -> AuthOutcome,
                    verifyOtp: (string, string) -> AuthOutcome): Option<AuthOutcome>
  {
    match call
    case NoAuthCall => None
    case ExchangeCode(c) => Some(exchangeCode(c))
    case VerifyOtp(t, h) => Some(verifyOtp(t, h))
  }

  /** PKCE success: the path becomes `next`, `code` is removed, and the login
      message is set unless `next` is the password reset page. */
  method PkceSuccessRedirect(request: Url, next: string) returns (redirectTo: Url)
    ensures redirectTo.pathname == next
    ensures Named(redirectTo.query, "code") == []
    ensures forall m :: m != "code" && m != "message" ==> Named(redirectTo.query, m) == Named(request.query, m)
    ensures next != ResetPasswordPath ==>
              Named(redirectTo.query, "message") == [Param("message", LoginSuccessMessage)]
    ensures next == ResetPasswordPath ==> Named(redirectTo.query, "message") == Named(request.query, "message")
  {
    var isPasswordReset := next == ResetPasswordPath;
    redirectTo := request;
    redirectTo := redirectTo.(pathname := next);
    redirectTo := redirectTo.(query := Delete(redirectTo.query, "code"));
    if !isPasswordReset {
      redirectTo := redirectTo.(query := Set(redirectTo.query, "message", LoginSuccessMessage));
    }
  }

  /** OTP success: the path becomes `next`, `token_hash` and `type` are
      removed, and the verified message is set unless `next` is the password
      reset page. */
  method OtpSuccessRedirect(request: Url, next: string) returns (redirectTo: Url)
    ensures redirectTo.pathname == next
    ensures Named(redirectTo.query, "token_hash") == [] && Named(redirectTo.query, "type") == []
    ensures forall m :: m != "token_hash" && m != "type" && m != "message" ==>
              Named(redirectTo.query, m) == Named(request.query, m)
    ensures next != ResetPasswordPath ==>
              Named(redirectTo.query, "message") == [Param("message", EmailVerifiedMessage)]
    ensures next == ResetPasswordPath ==> Named(redirectTo.query, "message") == Named(request.query, "message")
  {
    redirectTo := request;
    redirectTo := redirectTo.(pathname := next);
    redirectTo := redirectTo.(query := Delete(redirectTo.query, "token_hash"));
    redirectTo := redirectTo.(query := Delete(redirectTo.query, "type"));
    var isPasswordReset := next == ResetPasswordPath;
    if !isPasswordReset {
      redirectTo := redirectTo.(query := Set(redirectTo.query, "message", EmailVerifiedMessage));
    }
  }

  /** Failure: the login page, with `error` set and nothing else changed. */
  function ErrorRedirect(request: Url, error: string): (r: Url)
    ensures r.pathname == LoginPath
    ensures Named(r.query, "error") == [Param("error", error)]
    ensures forall m :: m != "error" ==> Named(r.query, m) == Named(request.query, m)
  {
    request.(pathname := LoginPath).(query := Set(request.query, "error", error))
  }

  /** The route handler. `call` is the single auth call made (or none) and
      `redirect` the single redirect returned. */
  method Callback(request: Url, exchangeCode: string -> AuthOutcome,
                  verifyOtp: (string, string) -> AuthOutcome)
    returns (call: AuthCall, redirect: Url)
    ensures call == SelectCall(request.query)
    // success: go to `next`, drop the parameters that were used up, and add
    // the success message unless this is a password reset
    ensures AnswerTo(call, exchangeCode, verifyOtp) == Some(AuthOk) ==>
              && redirect.pathname == NextPath(request.query)
              && (NextPath(request.query) != ResetPasswordPath ==>
                    Named(redirect.query, "message") ==
                    [Param("message", if call.ExchangeCode? then LoginSuccessMessage else EmailVerifiedMessage)])
              && (NextPath(request.query) == ResetPasswordPath ==>
                    Named(redirect.query, "message") == Named(request.query, "message"))
    ensures call.ExchangeCode? && AnswerTo(call, exchangeCode, verifyOtp) == Some(AuthOk) ==>
              && Named(redirect.query, "code") == []
              && forall m :: m != "code" && m != "message" ==> Named(redirect.query, m) == Named(request.query, m)
    ensures call.VerifyOtp? && AnswerTo(call, exchangeCode, verifyOtp) == Some(AuthOk) ==>
              && Named(redirect.query, "token_hash") == []
              && Named(redirect.query, "type") == []
              && forall m :: m != "token_hash" && m != "type" && m != "message" ==>
                   Named(redirect.query, m) == Named(request.query, m)
    // failure: back to the login page with the branch's prefix and the
    // provider's message; nothing else changes
    ensures AnswerTo(call, exchangeCode, verifyOtp).Some? && AnswerTo(call, exchangeCode, verifyOtp).value.AuthError? ==>
              redirect == ErrorRedirect(request, (if call.ExchangeCode? then PkceErrorPrefix else OtpErrorPrefix)
                                                 + AnswerTo(call, exchangeCode, verifyOtp).value.message)
    // neither a code nor a complete OTP: the invalid-link error, no auth call
    ensures call == NoAuthCall ==> redirect == ErrorRedirect(request, InvalidLinkError)
  {
    var tokenHash := Get(request.query, "token_hash");
    var otpType := Get(request.query, "type");
    var code := Get(request.query, "code");
    var next := NextPath(request.query);

    if Truthy(code) {
      call := ExchangeCode(code.value);
      var outcome := exchangeCode(code.value);
      if outcome.AuthOk? {
        redirect := PkceSuccessRedirect(request, next);
      } else {
        redirect := ErrorRedirect(request, PkceErrorPrefix + outcome.message);
      }
      return;
    }

    if Truthy(tokenHash) && Truthy(otpType) {
      call := VerifyOtp(otpType.value, tokenHash.value);
      var outcome := verifyOtp(otpType.value, tokenHash.value);
      if outcome.AuthOk? {
        redirect := OtpSuccessRedirect(request, next);
      } else {
        redirect := ErrorRedirect(request, OtpErrorPrefix + outcome.message);
      }
      return;
    }

    call := NoAuthCall;
    redirect := ErrorRedirect(request, InvalidLinkError);
  }

  /** `token_hash` without `type` is an invalid link, and an empty `code` is
      as good as none. */
  lemma IncompleteParametersExamples()
    ensures SelectCall([Param("token_hash", "h")]) == NoAuthCall
    ensures SelectCall([Param("code", ""), Param("token_hash", "h"), Param("type", "email")]) ==
            VerifyOtp("email", "h")
    ensures SelectCall([Param("code", "c"), Param("token_hash", "h"), Param("type", "email")]) == ExchangeCode("c")
  {
  }

  /** An empty `next` is kept as the redirect path. */
  lemma EmptyNextIsKept()
    ensures NextPath([Param("next", "")]) == ""
    ensures NextPath([]) == "/"
  {
  }
}
