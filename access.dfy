/** The API key check guarding the agent-facing endpoints. */
module Access {
  import opened Wrappers
  import opened Text

  /** How a request fares: let through, refused with 401, or a 500 because the comparison raised. */
  datatype Verdict = Allowed | Denied | ServerError

  /** `secrets.compare_digest` on two `str` values: equality, but it raises a TypeError (`None`) when
      either one holds a character outside ASCII. */
  function CompareDigest(a: string, b: string): Option<bool>
  {
    if IsAscii(a) && IsAscii(b) then Some(a == b) else None
  }

  /** The `Authorization` test: only a non-empty header starting with `Bearer ` is compared. */
  function BearerCheck(authorization: Option<string>, key: string): Option<bool>
  {
    if Truthy(authorization) && StartsWith(authorization.value, "Bearer ") then
      CompareDigest(authorization.value[7..], key)
    else Some(false)
  }

  /** `verify_api_key`: with no key configured every request passes; otherwise the bearer token, then
      the `X-API-Key` header, must equal the key. A header that is not ASCII makes the comparison
      raise. */
  function VerifyApiKey(key: string, authorization: Option<string>, xApiKey: Option<string>): (r: Verdict)
    ensures key == "" ==> r == Allowed
    ensures r == Allowed ==> key == "" || authorization == Some("Bearer " + key) || xApiKey == Some(key)
    ensures key != "" && !IsAscii(key) ==> r != Allowed
    ensures IsAscii(key) && authorization == Some("Bearer " + key) ==> r == Allowed
    ensures IsAscii(key) && (authorization.Some? ==> IsAscii(authorization.value)) && xApiKey == Some(key) ==> r == Allowed
    ensures (IsAscii(key) && (authorization.Some? ==> IsAscii(authorization.value))
             && (xApiKey.Some? ==> IsAscii(xApiKey.value))) ==> r != ServerError
  {
    if key == "" then Allowed
    else
      assert authorization.Some? && StartsWith(authorization.value, "Bearer ") ==>
             authorization.value == "Bearer " + authorization.value[7..];
      assert authorization == Some("Bearer " + key) ==> authorization.value[7..] == key;
      assert authorization.Some? && 7 <= |authorization.value| && IsAscii(authorization.value) ==>
             IsAscii(authorization.value[7..]) by {
        if authorization.Some? && 7 <= |authorization.value| && IsAscii(authorization.value) {
          AsciiSuffix(authorization.value, 7);
        }
      }
      match BearerCheck(authorization, key)
      case None => ServerError
      case Some(true) => Allowed
      case Some(false) =>
        if Truthy(xApiKey) then
          match CompareDigest(xApiKey.value, key)
          case None => ServerError
          case Some(same) => if same then Allowed else Denied
        else Denied
  }

  /** With an ASCII key and ASCII headers the check admits exactly the requests that present the
      key, as a bearer token or as `X-API-Key`, and refuses the others with 401. */
  lemma AsciiKeyAdmitsExactlyTheKey(key: string, authorization: Option<string>, xApiKey: Option<string>)
    requires key != "" && IsAscii(key)
    requires authorization.Some? ==> IsAscii(authorization.value)
    requires xApiKey.Some? ==> IsAscii(xApiKey.value)
    ensures VerifyApiKey(key, authorization, xApiKey) == Allowed <==>
              authorization == Some("Bearer " + key) || xApiKey == Some(key)
    ensures VerifyApiKey(key, authorization, xApiKey) != Allowed ==> VerifyApiKey(key, authorization, xApiKey) == Denied
  {
  }
}
