/**
 * Properties of the token authority across operations: what a client sees
 * through Validate after Auth, Refresh, Invalidate and Signout.
 */
module Protocol {
  import opened GoTypes
  import opened TokenStore

  /** A successful Auth issues a token that validates, with or without its client token, and heads its chain. */
  lemma AuthIssuesValidToken(st: Store, req: AuthRequest, newAccessToken: Str, mintedClientToken: Str, now: Timestamp)
    requires newAccessToken !in st.accessTokens
    requires AuthStep(st, req, newAccessToken, mintedClientToken, now).result.Ok?
    ensures var s := AuthStep(st, req, newAccessToken, mintedClientToken, now);
      var ct := s.result.value.clientToken;
      && Validates(s.store, ValidateRequest(newAccessToken, []))
      && Validates(s.store, ValidateRequest(newAccessToken, ct))
      && s.store.clientTokens[ct] == newAccessToken
  {
  }

  /** After a successful Refresh the old token validates under no client token; the new one does, on the same client token. */
  lemma RefreshRotatesToken(st: Store, req: RefreshRequest, newAccessToken: Str, now: Timestamp)
    requires newAccessToken !in st.accessTokens
    requires RefreshStep(st, req, newAccessToken, now).result.Ok?
    ensures var s := RefreshStep(st, req, newAccessToken, now);
      && (forall c :: !Validates(s.store, ValidateRequest(req.accessToken, c)))
      && Validates(s.store, ValidateRequest(newAccessToken, []))
      && Validates(s.store, ValidateRequest(newAccessToken, s.result.value.clientToken))
      && s.result.value.clientToken == st.accessTokens[req.accessToken].clientToken
  {
  }

  /**
   * Of two Refresh calls with the same request, at most the first succeeds; the
   * second fails with InvalidToken and changes nothing.
   */
  lemma RefreshSucceedsOnce(st: Store, req: RefreshRequest, token1: Str, token2: Str, now1: Timestamp, now2: Timestamp)
    requires token1 !in st.accessTokens
    requires RefreshStep(st, req, token1, now1).result.Ok?
    requires token2 !in RefreshStep(st, req, token1, now1).store.accessTokens
    ensures var s1 := RefreshStep(st, req, token1, now1);
      RefreshStep(s1.store, req, token2, now2) == Step(s1.store, Err(InvalidToken))
  {
  }

  /** Invalidate ends exactly one session: the token no longer validates, every other answer is unchanged. */
  lemma InvalidateEndsOneSession(st: Store, req: InvalidateRequest, other: ValidateRequest)
    requires InvalidateStep(st, req).result.None?
    ensures var s := InvalidateStep(st, req);
      && !Validates(s.store, ValidateRequest(req.accessToken, other.clientToken))
      && (other.accessToken != req.accessToken ==> Validates(s.store, other) == Validates(st, other))
  {
  }

  /** After Signout no token issued to the user validates, and the answers for other users' tokens are unchanged. */
  lemma SignoutIsTotal(st: Store, req: SignoutRequest, v: ValidateRequest)
    requires SignoutStep(st, req).result.None?
    ensures var s := SignoutStep(st, req);
      var uid := st.users[req.username].id;
      && (v.accessToken in st.accessTokens && st.accessTokens[v.accessToken].userId == uid ==> !Validates(s.store, v))
      && (v.accessToken in st.accessTokens && st.accessTokens[v.accessToken].userId != uid ==>
            Validates(s.store, v) == Validates(st, v))
  {
  }

  /**
   * Authenticating twice with the same non-empty client token leaves both access
   * tokens live: the client-token entry follows the newer one, the older one still
   * validates under that client token.
   */
  lemma ReusedClientTokenKeepsBothSessions(st: Store, req: AuthRequest, token1: Str, token2: Str, now1: Timestamp, now2: Timestamp)
    requires req.clientToken != []
    requires token1 !in st.accessTokens
    requires AuthStep(st, req, token1, [], now1).result.Ok?
    requires token2 !in AuthStep(st, req, token1, [], now1).store.accessTokens
    ensures var s1 := AuthStep(st, req, token1, [], now1);
      var s2 := AuthStep(s1.store, req, token2, [], now2);
      && s2.result.Ok?
      && Validates(s2.store, ValidateRequest(token1, req.clientToken))
      && Validates(s2.store, ValidateRequest(token2, req.clientToken))
      && s2.store.clientTokens[req.clientToken] == token2
  {
  }
}
