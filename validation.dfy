/**
 * `validateApiKey`: classifies the identity endpoint's reply into a
 * `{valid, message}` value; every failure path yields a value, none throws.
 */
module Validation {
  import opened Wrappers
  import opened JsText

  /** The `account` object of a `GET /api/user/` reply. */
  datatype Account = Account(email: Option<string>, apiTier: Option<string>)

  /** What the identity request produced. */
  datatype UserReply =
    | Answered(status: nat, account: Option<Account>)        // a non-throwing response
    | RequestError(errorStatus: Option<nat>, message: string)   // a thrown error; HTTP status when there was a response

  datatype ValidationResult = ValidationResult(valid: bool, message: string)

  /** `apiKey || this.getApiKey()`. */
  function KeyToValidate(explicit: Option<string>, stored: Option<string>): (r: Option<string>)
    ensures Truthy(explicit) ==> r == explicit
    ensures !Truthy(explicit) ==> r == stored
  {
    if Truthy(explicit) then explicit else stored
  }

  const NoKeyMessage := "No API key found"
  const InvalidResponsePrefix := "Invalid response: HTTP "
  const ExpiredMessage := "Invalid or expired API key"
  const FailedPrefix := "Validation failed: "

  /** The classification of lib/auth.js `validateApiKey` for the key it settled on. */
  function Validate(key: Option<string>, reply: UserReply): (r: ValidationResult)
    ensures r.valid <==> Truthy(key) && reply.Answered? && reply.status == 200
    ensures !Truthy(key) ==> r == ValidationResult(false, NoKeyMessage)
    ensures Truthy(key) && reply.Answered? && reply.status != 200 ==>
              r.message == InvalidResponsePrefix + NatToString(reply.status)
    ensures Truthy(key) && reply.RequestError? ==>
              r.message == if reply.errorStatus == Some(401) then ExpiredMessage else FailedPrefix + reply.message
  {
    if !Truthy(key) then ValidationResult(false, NoKeyMessage)
    else match reply
      case Answered(status, account) =>
        if status == 200 then
          var a := account.GetOr(Account(None, None));
          ValidationResult(true, "Valid - " + OrElse(a.email, "Unknown") + " (" + OrElse(a.apiTier, "Unknown") + " tier)")
        else ValidationResult(false, InvalidResponsePrefix + NatToString(status))
      case RequestError(status, message) =>
        if status == Some(401) then ValidationResult(false, ExpiredMessage)
        else ValidationResult(false, FailedPrefix + message)
  }

  /** Without a key no request is made: the reply cannot influence the result. */
  lemma NoKeyIgnoresReply(key: Option<string>, reply1: UserReply, reply2: UserReply)
    requires !Truthy(key)
    ensures Validate(key, reply1) == Validate(key, reply2)
  {
  }

  /**
   * An accepted key reports the account's email and tier, "Unknown" for each
   * one missing; a reply without an `account` object reads as `{}`.
   */
  lemma ValidMessage(key: Option<string>, account: Option<Account>)
    requires Truthy(key)
    ensures var a := account.GetOr(Account(None, None));
            Validate(key, Answered(200, account)).message
            == "Valid - " + OrElse(a.email, "Unknown") + " (" + OrElse(a.apiTier, "Unknown") + " tier)"
    ensures account.None? ==> Validate(key, Answered(200, account)).message == "Valid - Unknown (Unknown tier)"
  {
  }

  /** The unexpected HTTP status can be read back from an "Invalid response" message. */
  lemma InvalidResponseStatus(key: Option<string>, status: nat, account: Option<Account>)
    requires Truthy(key) && status != 200
    ensures var m := Validate(key, Answered(status, account)).message;
            |m| > |InvalidResponsePrefix| && m[..|InvalidResponsePrefix|] == InvalidResponsePrefix
            && ParseNat(m[|InvalidResponsePrefix|..]) == Some(status)
  {
    var m := Validate(key, Answered(status, account)).message;
    assert m[|InvalidResponsePrefix|..] == NatToString(status);
    NatToStringRoundTrip(status);
  }
}
