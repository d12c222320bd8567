/**
 * Reading a bearer token from an `Authorization` header, as both servers do:
 * the header must start with the exact prefix "Bearer " (the scheme of
 * section 2.1 of RFC 6750, compared case-sensitively here), and the rest is
 * trimmed.
 */
module Bearer {
  import opened Wrappers
  import opened JsString

  /** `auth.startsWith("Bearer ") ? auth.slice(7).trim() : ""` with `auth = header || ""`. */
  function BearerToken(authorization: Option<string>): (t: string)
    ensures IsTrimmed(t)
    ensures t != "" ==> authorization.Some? && StartsWith(authorization.value, "Bearer ")
  {
    var auth := authorization.GetOr("");
    if StartsWith(auth, "Bearer ") then Trim(auth[7..]) else ""
  }

  /** A header "Bearer " + credentials carries the trimmed credentials. */
  lemma BearerOfScheme(credentials: string)
    ensures BearerToken(Some("Bearer " + credentials)) == Trim(credentials)
  {
    var h := "Bearer " + credentials;
    assert h[..7] == "Bearer ";
    assert h[7..] == credentials;
  }

  /** The scheme prefix is matched case-sensitively: "bearer x" carries no token. */
  lemma LowerCaseSchemeCarriesNothing()
    ensures BearerToken(Some("bearer x")) == ""
  {
    assert "bearer x"[..7][0] != "Bearer "[0];
  }
}
