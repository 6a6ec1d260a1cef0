/**
 * `MemoryYggdrasilService` of service/service.go: the in-memory token authority.
 * Its four maps are fields that its methods update in place; each method is
 * proved to perform exactly the corresponding step of module TokenStore and to
 * keep the client-token index consistent.
 *
 * The operations run one at a time: the read-write mutex is not modelled.
 */
module Service {
  import opened GoTypes
  import opened TokenStore
  import Uuid

  class MemoryYggdrasilService {
    var users: map<Str, UserCredentials>
    var accessTokens: map<Str, AccessTokenInfo>
    var clientTokens: map<Str, Str>
    var profiles: map<Str, Profile>

    /** The four maps as one value. */
    function Model(): Store
      reads this
    {
      Store(users, accessTokens, clientTokens, profiles)
    }

    ghost predicate Valid()
      reads this
    {
      ClientTokensConsistent(Model())
    }

    /** NewMemoryYggdrasilService: all four maps empty. */
    constructor ()
      ensures Valid() && Model() == EmptyStore
    {
      users := map[];
      accessTokens := map[];
      clientTokens := map[];
      profiles := map[];
    }

    /** Auth; `newAccessToken` and `mintedClientToken` are what `utils.GenerateUUID` would return. */
    method Auth(req: AuthRequest, newAccessToken: Str, mintedClientToken: Str, now: Timestamp)
      returns (r: Result<AuthResponse, ServiceError>)
      requires Valid()
      requires newAccessToken !in accessTokens
      modifies this
      ensures Valid()
      ensures Step(Model(), r) == AuthStep(old(Model()), req, newAccessToken, mintedClientToken, now)
    {
      if req.username !in users || users[req.username].password != req.password {
        return Err(InvalidCredentials);
      }
      var userCreds := users[req.username];
      if userCreds.id !in profiles {
        return Err(NoProfile);
      }
      var profile := profiles[userCreds.id];
      var accessToken := newAccessToken;
      var clientToken := req.clientToken;
      if clientToken == [] {
        clientToken := mintedClientToken;
      }
      accessTokens := accessTokens[accessToken := AccessTokenInfo(userCreds.id, clientToken, profile.id, now)];
      clientTokens := clientTokens[clientToken := accessToken];
      var user := if req.requestUser then Some(UserInfo(userCreds.id)) else None;
      r := Ok(AuthResponse(accessToken, clientToken, profile, user));
    }

    /** Refresh; `newAccessToken` is what `utils.GenerateUUID` would return. */
    method Refresh(req: RefreshRequest, newAccessToken: Str, now: Timestamp)
      returns (r: Result<AuthResponse, ServiceError>)
      requires Valid()
      requires newAccessToken !in accessTokens
      modifies this
      ensures Valid()
      ensures Step(Model(), r) == RefreshStep(old(Model()), req, newAccessToken, now)
    {
      if req.accessToken !in accessTokens {
        return Err(InvalidToken);
      }
      var tokenInfo := accessTokens[req.accessToken];
      if req.clientToken != [] && req.clientToken != tokenInfo.clientToken {
        return Err(InvalidToken);
      }
      if tokenInfo.userId !in profiles {
        return Err(NoProfile);
      }
      var profile := profiles[tokenInfo.userId];
      ghost var st0 := Model();
      accessTokens := accessTokens - {req.accessToken};
      if tokenInfo.clientToken in clientTokens && clientTokens[tokenInfo.clientToken] == req.accessToken {
        clientTokens := clientTokens - {tokenInfo.clientToken};
      }
      assert Model() == DropToken(st0, req.accessToken);
      accessTokens := accessTokens[newAccessToken :=
        AccessTokenInfo(tokenInfo.userId, tokenInfo.clientToken, tokenInfo.profileId, now)];
      clientTokens := clientTokens[tokenInfo.clientToken := newAccessToken];
      assert Model() == ReplaceToken(st0, req.accessToken, newAccessToken, now);
      var user := if req.requestUser then Some(UserInfo(tokenInfo.userId)) else None;
      r := Ok(AuthResponse(newAccessToken, tokenInfo.clientToken, profile, user));
    }

    /** Validate: changes nothing and never reports an error. */
    method Validate(req: ValidateRequest) returns (valid: bool, err: Option<ServiceError>)
      ensures err == None
      ensures valid <==> Validates(Model(), req)
    {
      if req.accessToken !in accessTokens {
        return false, None;
      }
      var tokenInfo := accessTokens[req.accessToken];
      if req.clientToken != [] && req.clientToken != tokenInfo.clientToken {
        return false, None;
      }
      return true, None;
    }

    /** Invalidate. */
    method Invalidate(req: InvalidateRequest) returns (err: Option<ServiceError>)
      requires Valid()
      modifies this
      ensures Valid()
      ensures Step(Model(), err) == InvalidateStep(old(Model()), req)
    {
      if req.accessToken !in accessTokens {
        return Some(InvalidToken);
      }
      var tokenInfo := accessTokens[req.accessToken];
      if req.clientToken != tokenInfo.clientToken {
        return Some(InvalidToken);
      }
      accessTokens := accessTokens - {req.accessToken};
      if tokenInfo.clientToken in clientTokens && clientTokens[tokenInfo.clientToken] == req.accessToken {
        clientTokens := clientTokens - {tokenInfo.clientToken};
      }
      err := None;
    }

    /**
     * Signout: walks the access tokens (in an order the model leaves open, as Go's
     * map iteration does) and deletes every one issued to the user.
     */
    method Signout(req: SignoutRequest) returns (err: Option<ServiceError>)
      requires Valid()
      modifies this
      ensures Valid()
      ensures Step(Model(), err) == SignoutStep(old(Model()), req)
    {
      if req.username !in users || users[req.username].password != req.password {
        return Some(InvalidCredentials);
      }
      var userCreds := users[req.username];
      ghost var st0 := Model();
      ghost var gone: set<Str> := {};
      var remaining := accessTokens.Keys;
      while remaining != {}
        invariant remaining <= st0.accessTokens.Keys
        invariant forall at :: at in gone <==>
          at in st0.accessTokens && at !in remaining && st0.accessTokens[at].userId == userCreds.id
        invariant Model() == RemoveTokens(st0, gone)
        decreases remaining
      {
        var accessToken :| accessToken in remaining;
        // The loop step: one more deletion extends `gone` by this key, whatever the order.
        DropTokenExtends(st0, gone, accessToken);
        var tokenInfo := accessTokens[accessToken];
        if tokenInfo.userId == userCreds.id {
          ghost var before := Model();
          accessTokens := accessTokens - {accessToken};
          if tokenInfo.clientToken in clientTokens && clientTokens[tokenInfo.clientToken] == accessToken {
            clientTokens := clientTokens - {tokenInfo.clientToken};
          }
          assert Model() == DropToken(before, accessToken);
          gone := gone + {accessToken};
        }
        remaining := remaining - {accessToken};
      }
      assert gone == UserTokens(st0, userCreds.id);
      err := None;
    }

    /** AddUser; `newUserId` is what `utils.GenerateUUID` would return. The error result is always nil. */
    method AddUser(username: Str, password: Str, newUserId: Str) returns (userId: Str)
      requires Valid()
      modifies this
      ensures Valid()
      ensures Step(Model(), userId) == AddUserStep(old(Model()), username, password, newUserId)
    {
      userId := newUserId;
      users := users[username := UserCredentials(userId, password)];
    }

    /** AddProfile; `md5` stands for `crypto/md5`. The error result is always nil. */
    method AddProfile(md5: seq<byte> -> Uuid.Bytes16, userId: Str, name: Str) returns (profile: Profile)
      requires Valid()
      modifies this
      ensures Valid()
      ensures Step(Model(), profile) == AddProfileStep(old(Model()), md5, userId, name)
    {
      var profileId := Uuid.GenerateOfflinePlayerUUID(md5, name).value;
      profile := Profile(profileId, name);
      profiles := profiles[userId := profile];
    }
  }
}
