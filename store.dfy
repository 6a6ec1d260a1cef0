/**
 * The state of `MemoryYggdrasilService` (service/service.go) as a value, and
 * each of its operations as a step from one state to the next together with
 * what the operation returns. The class in module Service runs these steps in
 * place; the contracts here say what each step keeps, changes and returns.
 *
 * Fresh identifiers (`utils.GenerateUUID`) and the clock (`time.Now`) are
 * parameters of the steps.
 */
module TokenStore {
  import opened GoTypes
  import Uuid

  /** The value `time.Now()` gives a new session; only stored, never compared. */
  type Timestamp = int

  /** `UserCredentials`: the user's ID and password, keyed by username. */
  datatype UserCredentials = UserCredentials(id: Str, password: Str)

  /** `AccessTokenInfo`: what an access token stands for. */
  datatype AccessTokenInfo = AccessTokenInfo(userId: Str, clientToken: Str, profileId: Str, createdAt: Timestamp)

  /** `models.Profile` (its optional properties are never set by the service). */
  datatype Profile = Profile(id: Str, name: Str)

  /** `models.Property` (its optional signature is never set by the service). */
  datatype Property = Property(name: Str, value: Str)

  /** `models.User`. */
  datatype User = User(id: Str, properties: seq<Property>)

  /** `models.AuthResponse` as Auth and Refresh fill it in (availableProfiles is never set). */
  datatype AuthResponse = AuthResponse(accessToken: Str, clientToken: Str, selectedProfile: Profile, user: Option<User>)

  /** The request fields the service reads (the agent of an authenticate request is ignored). */
  datatype AuthRequest = AuthRequest(username: Str, password: Str, clientToken: Str, requestUser: bool)
  datatype RefreshRequest = RefreshRequest(accessToken: Str, clientToken: Str, requestUser: bool)
  datatype ValidateRequest = ValidateRequest(accessToken: Str, clientToken: Str)
  datatype InvalidateRequest = InvalidateRequest(accessToken: Str, clientToken: Str)
  datatype SignoutRequest = SignoutRequest(username: Str, password: Str)

  /** The three errors the service returns. */
  datatype ServiceError = InvalidCredentials | NoProfile | InvalidToken {
    function Message(): Str {
      match this
      // "Invalid credentials. Invalid username or password."
      case InvalidCredentials =>
        [0x49, 0x6E, 0x76, 0x61, 0x6C, 0x69, 0x64, 0x20, 0x63, 0x72, 0x65, 0x64, 0x65, 0x6E, 0x74, 0x69,
          0x61, 0x6C, 0x73, 0x2E, 0x20, 0x49, 0x6E, 0x76, 0x61, 0x6C, 0x69, 0x64, 0x20, 0x75, 0x73, 0x65,
          0x72, 0x6E, 0x61, 0x6D, 0x65, 0x20, 0x6F, 0x72, 0x20, 0x70, 0x61, 0x73, 0x73, 0x77, 0x6F, 0x72,
          0x64, 0x2E]
      // "No profile found for user"
      case NoProfile =>
        [0x4E, 0x6F, 0x20, 0x70, 0x72, 0x6F, 0x66, 0x69, 0x6C, 0x65, 0x20, 0x66, 0x6F, 0x75, 0x6E, 0x64,
          0x20, 0x66, 0x6F, 0x72, 0x20, 0x75, 0x73, 0x65, 0x72]
      // "Invalid token."
      case InvalidToken =>
        [0x49, 0x6E, 0x76, 0x61, 0x6C, 0x69, 0x64, 0x20, 0x74, 0x6F, 0x6B, 0x65, 0x6E, 0x2E]
    }
  }

  /** "preferredLanguage" = "en", the one property a requested user carries. */
  const PreferredLanguage: Property :=
    Property([0x70, 0x72, 0x65, 0x66, 0x65, 0x72, 0x72, 0x65, 0x64, 0x4C, 0x61, 0x6E, 0x67, 0x75, 0x61, 0x67, 0x65],
             [0x65, 0x6E])

  /** The user object attached to a response when the request asks for it. */
  function UserInfo(userId: Str): User {
    User(userId, [PreferredLanguage])
  }

  /** The four maps of the service. */
  datatype Store = Store(
    users: map<Str, UserCredentials>,     // username -> credentials
    accessTokens: map<Str, AccessTokenInfo>,  // access token -> session
    clientTokens: map<Str, Str>,          // client token -> access token
    profiles: map<Str, Profile>)          // user ID -> profile

  const EmptyStore := Store(map[], map[], map[], map[])

  /**
   * The cross-map invariant: every client-token entry points at a live access
   * token issued under that same client token.
   */
  predicate ClientTokensConsistent(st: Store) {
    forall ct :: ct in st.clientTokens ==>
      st.clientTokens[ct] in st.accessTokens && st.accessTokens[st.clientTokens[ct]].clientToken == ct
  }

  /** The state after an operation, and what the operation returned. */
  datatype Step<+T> = Step(store: Store, result: T)

  predicate CredentialsMatch(st: Store, username: Str, password: Str) {
    username in st.users && st.users[username].password == password
  }

  /** The access tokens issued to a user. */
  function UserTokens(st: Store, userId: Str): set<Str> {
    set at | at in st.accessTokens && st.accessTokens[at].userId == userId
  }

  // ---------------------------------------------------------------------------
  // Removing sessions
  // ---------------------------------------------------------------------------

  /**
   * The deletion Refresh, Invalidate and Signout perform for one access token:
   * the token goes, and so does the entry of its client token if that entry
   * still points at it.
   */
  function DropToken(st: Store, at: Str): (r: Store)
    requires at in st.accessTokens
    ensures r.users == st.users && r.profiles == st.profiles
    ensures r.accessTokens.Keys == st.accessTokens.Keys - {at}
    ensures forall a :: a in r.accessTokens ==> r.accessTokens[a] == st.accessTokens[a]
    ensures forall c :: c in r.clientTokens <==>
      c in st.clientTokens && !(st.clientTokens[c] == at && st.accessTokens[at].clientToken == c)
    ensures forall c :: c in r.clientTokens ==> r.clientTokens[c] == st.clientTokens[c]
    ensures ClientTokensConsistent(st) ==>
      ClientTokensConsistent(r) && forall c :: c in r.clientTokens <==> c in st.clientTokens && st.clientTokens[c] != at
  {
    var ct := st.accessTokens[at].clientToken;
    st.(accessTokens := st.accessTokens - {at},
        clientTokens := if ct in st.clientTokens && st.clientTokens[ct] == at then st.clientTokens - {ct}
                        else st.clientTokens)
  }

  /** A client-token entry that pointed at one of `gone` issued under that client token. */
  predicate Unlinked(st: Store, gone: set<Str>, c: Str)
    requires c in st.clientTokens
  {
    var at := st.clientTokens[c];
    at in gone && at in st.accessTokens && st.accessTokens[at].clientToken == c
  }

  /** The state after DropToken has run once for every token in `gone`, in any order. */
  function RemoveTokens(st: Store, gone: set<Str>): Store {
    st.(accessTokens := st.accessTokens - gone,
        clientTokens := map c | c in st.clientTokens && !Unlinked(st, gone, c) :: st.clientTokens[c])
  }

  /** One more DropToken extends the removed set by one: the loop step of Signout. */
  lemma DropTokenExtends(st: Store, gone: set<Str>, at: Str)
    requires at in st.accessTokens && at !in gone
    ensures at in RemoveTokens(st, gone).accessTokens
    ensures DropToken(RemoveTokens(st, gone), at) == RemoveTokens(st, gone + {at})
  {
    var mid := RemoveTokens(st, gone);
    var lhs, rhs := DropToken(mid, at), RemoveTokens(st, gone + {at});
    assert lhs.accessTokens == rhs.accessTokens;
    forall c | c in st.clientTokens
      ensures c in lhs.clientTokens <==> c in rhs.clientTokens
    {
      if c in mid.clientTokens {
        assert c in lhs.clientTokens <==> !(st.clientTokens[c] == at && st.accessTokens[at].clientToken == c);
      }
    }
    assert lhs.clientTokens.Keys == rhs.clientTokens.Keys;
    assert lhs.clientTokens == rhs.clientTokens;
  }

  // ---------------------------------------------------------------------------
  // The operations
  // ---------------------------------------------------------------------------

  /**
   * Auth: credentials, then the user's profile, then a new session under the
   * supplied client token or, when that is empty, a freshly minted one.
   */
  function AuthStep(st: Store, req: AuthRequest, newAccessToken: Str, mintedClientToken: Str, now: Timestamp)
    : (s: Step<Result<AuthResponse, ServiceError>>)
    requires newAccessToken !in st.accessTokens
    ensures !CredentialsMatch(st, req.username, req.password) ==> s == Step(st, Err(InvalidCredentials))
    ensures CredentialsMatch(st, req.username, req.password) && st.users[req.username].id !in st.profiles ==>
      s == Step(st, Err(NoProfile))
    ensures s.result.Ok? <==>
      CredentialsMatch(st, req.username, req.password) && st.users[req.username].id in st.profiles
    ensures s.result.Ok? ==>
      var uid := st.users[req.username].id;
      var ct := if req.clientToken != [] then req.clientToken else mintedClientToken;
      var resp := s.result.value;
      && resp.accessToken == newAccessToken
      && resp.clientToken == ct
      && resp.selectedProfile == st.profiles[uid]
      && resp.user == (if req.requestUser then Some(UserInfo(uid)) else None)
      && s.store.users == st.users && s.store.profiles == st.profiles
      && s.store.accessTokens.Keys == st.accessTokens.Keys + {newAccessToken}
      && s.store.accessTokens[newAccessToken] == AccessTokenInfo(uid, ct, st.profiles[uid].id, now)
      && (forall at :: at in st.accessTokens ==> s.store.accessTokens[at] == st.accessTokens[at])
      && s.store.clientTokens.Keys == st.clientTokens.Keys + {ct}
      && s.store.clientTokens[ct] == newAccessToken
      && (forall c :: c in st.clientTokens && c != ct ==> s.store.clientTokens[c] == st.clientTokens[c])
    ensures ClientTokensConsistent(st) ==> ClientTokensConsistent(s.store)
  {
    if !CredentialsMatch(st, req.username, req.password) then Step(st, Err(InvalidCredentials))
    else
      var creds := st.users[req.username];
      if creds.id !in st.profiles then Step(st, Err(NoProfile))
      else
        var profile := st.profiles[creds.id];
        var ct := if req.clientToken == [] then mintedClientToken else req.clientToken;
        var st' := st.(accessTokens := st.accessTokens[newAccessToken := AccessTokenInfo(creds.id, ct, profile.id, now)],
                       clientTokens := st.clientTokens[ct := newAccessToken]);
        var user := if req.requestUser then Some(UserInfo(creds.id)) else None;
        Step(st', Ok(AuthResponse(newAccessToken, ct, profile, user)))
  }

  /**
   * The state change of a successful Refresh: the old token is dropped and a new
   * one is stored under the same client token, user and profile, and becomes the
   * head of that client token's entry.
   */
  function ReplaceToken(st: Store, oldToken: Str, newToken: Str, now: Timestamp): (r: Store)
    requires oldToken in st.accessTokens && newToken !in st.accessTokens
    ensures var info := st.accessTokens[oldToken];
      && r.users == st.users && r.profiles == st.profiles
      && oldToken !in r.accessTokens
      && r.accessTokens.Keys == st.accessTokens.Keys - {oldToken} + {newToken}
      && r.accessTokens[newToken] == AccessTokenInfo(info.userId, info.clientToken, info.profileId, now)
      && (forall at :: at in st.accessTokens && at != oldToken ==> r.accessTokens[at] == st.accessTokens[at])
      && r.clientTokens.Keys == st.clientTokens.Keys + {info.clientToken}
      && r.clientTokens[info.clientToken] == newToken
      && (forall c :: c in st.clientTokens && c != info.clientToken ==> r.clientTokens[c] == st.clientTokens[c])
    ensures ClientTokensConsistent(st) ==> ClientTokensConsistent(r)
  {
    var info := st.accessTokens[oldToken];
    var dropped := DropToken(st, oldToken);
    dropped.(accessTokens := dropped.accessTokens[newToken := AccessTokenInfo(info.userId, info.clientToken, info.profileId, now)],
             clientTokens := dropped.clientTokens[info.clientToken := newToken])
  }

  /**
   * Refresh: the access token must be live, a non-empty client token must match
   * it, and its user must have a profile; then the token is replaced by a new one
   * on the same client token, user and profile.
   */
  function RefreshStep(st: Store, req: RefreshRequest, newAccessToken: Str, now: Timestamp)
    : (s: Step<Result<AuthResponse, ServiceError>>)
    requires newAccessToken !in st.accessTokens
    ensures req.accessToken !in st.accessTokens ==> s == Step(st, Err(InvalidToken))
    ensures req.accessToken in st.accessTokens && req.clientToken != []
            && req.clientToken != st.accessTokens[req.accessToken].clientToken ==>
      s == Step(st, Err(InvalidToken))
    ensures && req.accessToken in st.accessTokens
            && (req.clientToken == [] || req.clientToken == st.accessTokens[req.accessToken].clientToken)
            && st.accessTokens[req.accessToken].userId !in st.profiles ==>
      s == Step(st, Err(NoProfile))
    ensures s.result.Ok? <==>
      && req.accessToken in st.accessTokens
      && (req.clientToken == [] || req.clientToken == st.accessTokens[req.accessToken].clientToken)
      && st.accessTokens[req.accessToken].userId in st.profiles
    ensures s.result.Ok? ==>
      var info := st.accessTokens[req.accessToken];
      var resp := s.result.value;
      && resp.accessToken == newAccessToken
      && resp.clientToken == info.clientToken
      && resp.selectedProfile == st.profiles[info.userId]
      && resp.user == (if req.requestUser then Some(UserInfo(info.userId)) else None)
      && s.store.users == st.users && s.store.profiles == st.profiles
      && req.accessToken !in s.store.accessTokens
      && s.store.accessTokens.Keys == st.accessTokens.Keys - {req.accessToken} + {newAccessToken}
      && s.store.accessTokens[newAccessToken] == AccessTokenInfo(info.userId, info.clientToken, info.profileId, now)
      && (forall at :: at in st.accessTokens && at != req.accessToken ==>
            s.store.accessTokens[at] == st.accessTokens[at])
      && s.store.clientTokens.Keys == st.clientTokens.Keys + {info.clientToken}
      && s.store.clientTokens[info.clientToken] == newAccessToken
      && (forall c :: c in st.clientTokens && c != info.clientToken ==> s.store.clientTokens[c] == st.clientTokens[c])
    ensures ClientTokensConsistent(st) ==> ClientTokensConsistent(s.store)
  {
    if req.accessToken !in st.accessTokens then Step(st, Err(InvalidToken))
    else
      var info := st.accessTokens[req.accessToken];
      if req.clientToken != [] && req.clientToken != info.clientToken then Step(st, Err(InvalidToken))
      else if info.userId !in st.profiles then Step(st, Err(NoProfile))
      else
        var profile := st.profiles[info.userId];
        var st' := ReplaceToken(st, req.accessToken, newAccessToken, now);
        var user := if req.requestUser then Some(UserInfo(info.userId)) else None;
        Step(st', Ok(AuthResponse(newAccessToken, info.clientToken, profile, user)))
  }

  /** Validate's answer: the token is live and the client token, when given, is its own. */
  predicate Validates(st: Store, req: ValidateRequest) {
    && req.accessToken in st.accessTokens
    && (req.clientToken == [] || req.clientToken == st.accessTokens[req.accessToken].clientToken)
  }

  /** Invalidate: the token must be live and the client token must be exactly its own, even when empty. */
  function InvalidateStep(st: Store, req: InvalidateRequest): (s: Step<Option<ServiceError>>)
    ensures s.result.Some? ==> s == Step(st, Some(InvalidToken))
    ensures s.result.None? <==>
      req.accessToken in st.accessTokens && req.clientToken == st.accessTokens[req.accessToken].clientToken
    ensures s.result.None? ==>
      && s.store.users == st.users && s.store.profiles == st.profiles
      && s.store.accessTokens.Keys == st.accessTokens.Keys - {req.accessToken}
      && (forall at :: at in s.store.accessTokens ==> s.store.accessTokens[at] == st.accessTokens[at])
      && (forall c :: c in s.store.clientTokens <==>
            c in st.clientTokens && !(c == req.clientToken && st.clientTokens[c] == req.accessToken))
      && (forall c :: c in s.store.clientTokens ==> s.store.clientTokens[c] == st.clientTokens[c])
    ensures ClientTokensConsistent(st) ==> ClientTokensConsistent(s.store)
  {
    if req.accessToken !in st.accessTokens then Step(st, Some(InvalidToken))
    else
      var info := st.accessTokens[req.accessToken];
      if req.clientToken != info.clientToken then Step(st, Some(InvalidToken))
      else Step(DropToken(st, req.accessToken), None)
  }

  /**
   * Signout: credentials as for Auth, then every session of the user goes, each
   * with its client-token entry when that still points at it.
   */
  function SignoutStep(st: Store, req: SignoutRequest): (s: Step<Option<ServiceError>>)
    ensures !CredentialsMatch(st, req.username, req.password) ==> s == Step(st, Some(InvalidCredentials))
    ensures s.result.None? <==> CredentialsMatch(st, req.username, req.password)
    ensures s.result.None? ==>
      var uid := st.users[req.username].id;
      && s.store.users == st.users && s.store.profiles == st.profiles
      && (forall at :: at in s.store.accessTokens <==> at in st.accessTokens && st.accessTokens[at].userId != uid)
      && (forall at :: at in s.store.accessTokens ==> s.store.accessTokens[at] == st.accessTokens[at])
      && (forall c :: c in s.store.clientTokens ==> c in st.clientTokens && s.store.clientTokens[c] == st.clientTokens[c])
      && (forall c :: c in st.clientTokens ==>
            (c in s.store.clientTokens <==>
               !(st.clientTokens[c] in st.accessTokens && st.accessTokens[st.clientTokens[c]].userId == uid
                 && st.accessTokens[st.clientTokens[c]].clientToken == c)))
    ensures ClientTokensConsistent(st) && s.result.None? ==>
      forall c :: c in s.store.clientTokens <==> c in st.clientTokens && st.clientTokens[c] in s.store.accessTokens
    ensures ClientTokensConsistent(st) ==> ClientTokensConsistent(s.store)
  {
    if !CredentialsMatch(st, req.username, req.password) then Step(st, Some(InvalidCredentials))
    else
      var uid := st.users[req.username].id;
      Step(RemoveTokens(st, UserTokens(st, uid)), None)
  }

  /** AddUser: the username now maps to the new ID and the password, replacing any earlier entry. */
  function AddUserStep(st: Store, username: Str, password: Str, newUserId: Str): (s: Step<Str>)
    ensures s.result == newUserId
    ensures s.store.users.Keys == st.users.Keys + {username}
    ensures s.store.users[username] == UserCredentials(newUserId, password)
    ensures forall u :: u in st.users && u != username ==> s.store.users[u] == st.users[u]
    ensures s.store.accessTokens == st.accessTokens && s.store.clientTokens == st.clientTokens
    ensures s.store.profiles == st.profiles
    ensures ClientTokensConsistent(st) ==> ClientTokensConsistent(s.store)
  {
    Step(st.(users := st.users[username := UserCredentials(newUserId, password)]), newUserId)
  }

  /**
   * AddProfile: the user ID now maps to a profile named `name` whose ID is the
   * offline-player UUID of the name. The user ID is not checked against `users`.
   */
  function AddProfileStep(st: Store, md5: seq<byte> -> Uuid.Bytes16, userId: Str, name: Str): (s: Step<Profile>)
    ensures s.result.name == name && Uuid.ValidateUndashedUUID(s.result.id)
    ensures s.result.id == Uuid.GenerateOfflinePlayerUUID(md5, name).value
    ensures s.store.profiles.Keys == st.profiles.Keys + {userId}
    ensures s.store.profiles[userId] == s.result
    ensures forall u :: u in st.profiles && u != userId ==> s.store.profiles[u] == st.profiles[u]
    ensures s.store.users == st.users
    ensures s.store.accessTokens == st.accessTokens && s.store.clientTokens == st.clientTokens
    ensures ClientTokensConsistent(st) ==> ClientTokensConsistent(s.store)
  {
    Uuid.OfflinePlayerUUIDShape(md5, name);
    var profile := Profile(Uuid.GenerateOfflinePlayerUUID(md5, name).value, name);
    Step(st.(profiles := st.profiles[userId := profile]), profile)
  }
}
