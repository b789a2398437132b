/**
 * The bearer-token check in front of the server's HTTP routes
 * (server/auth-middleware.ts). The configured token (the WS_AUTH_TOKEN
 * environment variable, "" when unset) is a parameter.
 */
module Auth {
  import opened Common
  import opened Text

  /** Pass the request on, or answer it with status 401 or 403. */
  datatype AuthOutcome = Next | Status401 | Status403

  const BearerPrefix: string := "Bearer "

  /** authMiddleware: no configured token lets everything through; otherwise the header must be "Bearer " and the token. */
  function AuthDecision(configuredToken: string, authorization: Option<string>): (r: AuthOutcome)
    ensures configuredToken == "" ==> r == Next
    ensures configuredToken != "" && (authorization.None? || !StartsWith(authorization.value, BearerPrefix)) ==> r == Status401
    ensures configuredToken != "" && authorization.Some? && StartsWith(authorization.value, BearerPrefix) ==>
      (r == Next <==> authorization.value[|BearerPrefix|..] == configuredToken) &&
      (r == Status403 <==> authorization.value[|BearerPrefix|..] != configuredToken)
  {
    if configuredToken == "" then Next
    else if authorization.None? || !StartsWith(authorization.value, BearerPrefix) then Status401
    else if authorization.value[7..] != configuredToken then Status403
    else Next
  }

  /** With a token configured, a request passes exactly when its header is "Bearer " followed by that token. */
  lemma AuthPassesExactly(configuredToken: string, authorization: Option<string>)
    requires configuredToken != ""
    ensures AuthDecision(configuredToken, authorization) == Next <==> authorization == Some(BearerPrefix + configuredToken)
  {
    if authorization == Some(BearerPrefix + configuredToken) {
      assert (BearerPrefix + configuredToken)[..|BearerPrefix|] == BearerPrefix;
      assert (BearerPrefix + configuredToken)[|BearerPrefix|..] == configuredToken;
    }
    if AuthDecision(configuredToken, authorization) == Next {
      var h := authorization.value;
      assert h == h[..|BearerPrefix|] + h[|BearerPrefix|..];
    }
  }
}
