/**
 * The access decision of tests/auth_test.rs (`is_access_allowed`): a
 * request is admitted when authentication is off, or when it presents the
 * configured, non-empty token.
 */
module Auth {
  import opened Wrappers

  datatype AuthConfig = AuthConfig(enabled: bool, token: Option<string>)

  /** `is_access_allowed`, over the optional auth settings and the token the request presents. */
  function IsAccessAllowed(auth: Option<AuthConfig>, provided: Option<string>): (allowed: bool)
    // No auth settings, or auth switched off: everyone is admitted.
    ensures auth.None? ==> allowed
    ensures auth.Some? && !auth.value.enabled ==> allowed
    // Auth on but no usable configured token: a misconfiguration that admits nobody.
    ensures auth.Some? && auth.value.enabled && auth.value.token.UnwrapOr("") == "" ==> !allowed
    // Auth on and no token presented: refused.
    ensures auth.Some? && auth.value.enabled && provided.UnwrapOr("") == "" ==> !allowed
    // Auth on with a configured token: admitted exactly when the presented token equals it.
    ensures auth.Some? && auth.value.enabled && auth.value.token.UnwrapOr("") != "" ==>
      (allowed <==> provided == auth.value.token)
  {
    if auth.Some? && auth.value.enabled then
      var given := provided.UnwrapOr("");
      var expected := auth.value.token.UnwrapOr("");
      if expected == [] then false
      else if given == [] then false
      else given == expected
    else true
  }

  /** Whoever is admitted under enabled auth presented the configured token, and it is not empty. */
  lemma AdmittedOnlyWithToken(auth: AuthConfig, provided: Option<string>)
    requires auth.enabled && IsAccessAllowed(Some(auth), provided)
    ensures provided.Some? && provided == auth.token && provided.value != ""
  {
  }
}
