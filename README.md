# mc-yggdrasil-go: the token authority and the identifier helpers, in Dafny

This project models the two parts of mc-yggdrasil-go that hold its logic, and proves properties of them.

- `MemoryYggdrasilService` (service/service.go) is the in-memory authority of the Yggdrasil authentication protocol. It has four maps:
  - users: username to credentials;
  - access tokens: token to session;
  - client tokens: client token to its newest access token;
  - profiles: user ID to profile.

  Its operations are `Auth`, `Refresh`, `Validate`, `Invalidate` and `Signout`, plus the seeding calls `AddUser` and `AddProfile`.
- The identifier helpers (utils/uuid.go) cover:
  - the offline-player UUID: MD5 of `"OfflinePlayer:" + name`, with the version nibble set to 3 and the variant bits set to `10` (RFC 4122, sections 4.1.3 and 4.1.1);
  - the undashed-to-dashed 8-4-4-4-12 formatting;
  - parsing and validation of undashed strings;
  - random version-4 identifiers.

Files:

- `gotypes.dfy` (module `GoTypes`): the types shared by the other modules.
  - Go strings are byte strings, `seq<bv8>`, because the source slices and measures them by byte.
  - `Option` stands for a bare `error` result, and `Result` for a `(T, error)` pair.
- `uuid.dfy` (module `Uuid`): the helpers of utils/uuid.go, written as functions. It also models the library calls they make: `hex.Encode`, `hex.DecodeString`, `uuid.UUID.String`, `uuid.Parse` and `uuid.FromBytes`, plus `strings.ReplaceAll(s, "-", "")`.
- `store.dfy` (module `TokenStore`): the service's state as a value (`Store`), with each operation as a step function. A step returns the new state and the operation's result. Its contract gives every error case, the exact new contents of the maps on success, and the preservation of the cross-map invariant `ClientTokensConsistent`. That invariant says every client-token entry points at a live access token issued under that same client token.
- `service.dfy` (module `Service`): the class `MemoryYggdrasilService`. Its four maps are fields, and its methods update them in place, as the Go code does. `Signout` iterates over the access tokens in an order the model leaves open, like Go's map iteration. Each mutating method is proved to perform exactly its step in `TokenStore` and to keep `Valid()`. `Validate` changes nothing and never returns an error.
- `protocol.dfy` (module `Protocol`): properties across operations, as a client sees them through `Validate`:
  - after Refresh, the old token is dead and the new one is live on the same client token;
  - a second Refresh of the same token fails;
  - Invalidate ends one session only;
  - Signout ends all of the user's sessions;
  - a reused client token keeps older sessions alive.

Parameters stand in for the parts that cannot be computed here:
- the fresh identifiers `utils.GenerateUUID` would produce;
- the 16 random bytes behind `uuid.New`;
- the clock (`time.Now`);
- the MD5 function (`md5: seq<byte> -> Bytes16`).

Behaviour of the code worth knowing, which the model follows:
- `AddProfile` does not check that the user ID belongs to a registered user.
- `AddUser` silently replaces an existing username with a new ID. Sessions issued under the old ID stay live.
- A client token can be carried by more than one live session. `Auth` with an already-used client token does not end the older sessions on it; the index then points only at the newest one (`Protocol.ReusedClientTokenKeepsBothSessions`). So the client-token map is sound (the invariant above) but not complete: some live access tokens have no entry pointing at them.
- `Refresh` looks up the user's current profile for the response. The new session, however, copies the profile ID stored in the old session.

## Model

| member | source | states |
|---|---|---|
| `Uuid.HexValue` | utils/uuid.go:81 | a hex digit of either case has a value below 16; a lower-case digit is the table digit of its value, and an upper-case 'A'-'F' has the value of its lower-case form |
| `Uuid.HexChar` | utils/uuid.go:34 | a nibble's digit is entry n of the table "0123456789abcdef"; it is lower-case hex, and a decimal digit exactly when the nibble is below 10 |
| `Uuid.EncodeHex` | utils/uuid.go:34 | hex encoding doubles the length and yields only lower-case hex digits |
| `Uuid.EncodeHexAppend` | utils/uuid.go:34 | hex encoding distributes over concatenation |
| `Uuid.EncodeHexAt` | utils/uuid.go:34 | byte k's high and low nibble digits sit at positions 2k and 2k+1 of the encoding |
| `Uuid.DecodeHex` | utils/uuid.go:81 | `hex.DecodeString` succeeds exactly on even-length strings of hex digits of either case, and gives half as many bytes |
| `Uuid.DecodeEncodeHex` | utils/uuid.go:81 | decoding the encoding of any bytes gives the bytes back |
| `Uuid.EncodeDecodeHex` | utils/uuid.go:81 | encoding the decoding of an even-length lower-case hex string gives the string back |
| `Uuid.RemoveDashes` | utils/uuid.go:34 | `ReplaceAll(s, "-", "")` leaves no dash |
| `Uuid.RemoveDashesNoDash` | utils/uuid.go:34 | a string without dashes is unchanged by the removal |
| `Uuid.RemoveDashesAppend` | utils/uuid.go:34 | dash removal distributes over concatenation |
| `Uuid.DashedIndex` | utils/uuid.go:45-49 | the i-th of 32 digits lands at or after position i within the 36-byte form, never on a dash position (8, 13, 18, 23) |
| `Uuid.InsertDashes` | utils/uuid.go:45-49 | the 8-4-4-4-12 grouping has length 36, dashes at 8, 13, 18 and 23, and the input bytes in order everywhere else |
| `Uuid.HexGroups` | utils/uuid.go:52 | what `uuid.Parse` reads from a 36-byte string: the 32 non-dash positions in order |
| `Uuid.HexGroupsOfInsertDashes` | utils/uuid.go:45-52 | reading the digit groups of the grouping gives back the 32 bytes |
| `Uuid.RemoveInsertedDashes` | utils/uuid.go:45-49 | removing the dashes from the grouping of 32 dash-free bytes gives them back |
| `Uuid.FromBytes` | utils/uuid.go:28-31 | `uuid.FromBytes` succeeds exactly on 16 bytes and keeps them |
| `Uuid.ToString` | utils/uuid.go:34 | `uuid.UUID.String` has length 36, dashes at 8, 13, 18 and 23, and the hex encoding of the 16 bytes at the other positions |
| `Uuid.Parse` | utils/uuid.go:52-54 | `uuid.Parse` of a 36-byte string succeeds exactly when dashes sit at 8, 13, 18 and 23 and every other byte is a hex digit |
| `Uuid.ParseToString` | utils/uuid.go:52-54 | parsing the library's rendering of a UUID gives the UUID back |
| `Uuid.PatchVersionAndVariant` | utils/uuid.go:20-26 | byte 6 gets the version as its high nibble and keeps its low nibble; byte 8 gets top bits `10` and keeps its low six bits; the other 14 bytes are untouched |
| `Uuid.GenerateOfflinePlayerUUID` | utils/uuid.go:14-35 | never fails, and equals the plain lower-case hex of the patched MD5 digest of "OfflinePlayer:" + name |
| `Uuid.FormatUUID` | utils/uuid.go:38-57 | length not 32 gives the length error; succeeds exactly on 32 hex digits; the result has length 36, dashes at 8, 13, 18 and 23, and the input bytes in order elsewhere |
| `Uuid.ParseUndashedUUID` | utils/uuid.go:60-66 | succeeds exactly on 32 hex digits, and yields the same bytes as `hex.DecodeString` |
| `Uuid.GenerateUUID` | utils/uuid.go:69-72 | the undashed rendering of a random UUID is the plain hex of its 16 bytes with version 4 and the variant patched in |
| `Uuid.ValidateUndashedUUID` | utils/uuid.go:75-89 | true exactly for strings of 32 hex digits of either case |
| `Uuid.FormatUUIDRoundTrip` | utils/uuid.go:45-49 | deleting the dashes from a successful FormatUUID result gives its input back |
| `Uuid.ParseUndashedOfEncoding` | utils/uuid.go:60-66 | parsing the undashed hex of any 16 bytes gives those bytes back |
| `Uuid.OfflinePlayerUUIDBytes` | utils/uuid.go:15-28 | the offline UUID parses to bytes that equal the digest except the version nibble 3 and the variant bits `10`, and keep the digest's other bits of bytes 6 and 8 |
| `Uuid.OfflinePlayerUUIDShape` | utils/uuid.go:28-34 | the offline UUID is 32 lower-case hex digits, without a dash, and passes ValidateUndashedUUID |
| `Uuid.OfflinePlayerUUIDDigits` | utils/uuid.go:20-26 | the offline UUID's version digit (index 12) is '3', and its variant digit (index 16) is 8, 9, a or b |
| `Uuid.GenerateUUIDShape` | utils/uuid.go:69-72 | GenerateUUID's output is 32 lower-case hex digits, without a dash, valid, with '4' at index 12 and 8, 9, a or b at index 16 |
| `TokenStore.DropToken` | service/service.go:242-246 | the token's key goes and no other session changes; a client-token entry goes only if it pointed at that token under that client token; the invariant is kept, and under it exactly the entries pointing at the token go |
| `TokenStore.DropTokenExtends` | service/service.go:265-272 | one more deletion in the Signout loop extends the set of removed tokens by that token, whatever the order |
| `TokenStore.ReplaceToken` | service/service.go:166-181 | the old token is gone; the new one carries the same user, client token and profile; the client token's entry points at the new token; nothing else changes; the invariant is kept |
| `TokenStore.AuthStep` | service/service.go:77-135 | an unknown user or a wrong password gives InvalidCredentials with no change; no profile gives NoProfile with no change; on success the response holds the new token, the supplied client token (or the minted one if empty), the profile and the user info when asked; the new session is stored, other sessions are unchanged, and the client-token entry points at the new token; the invariant is kept |
| `TokenStore.RefreshStep` | service/service.go:138-204 | an absent token, or a non-empty mismatched client token, gives InvalidToken with no change; a missing profile gives NoProfile with no change; on success the old token is gone, the new one keeps client token, user and profile, the client-token entry points at it, and the response returns the stored client token; the invariant is kept |
| `TokenStore.InvalidateStep` | service/service.go:226-250 | fails with InvalidToken and no change unless the token is live and the client token matches exactly, even when empty; on success only that session goes, and a client-token entry only where it pointed at it; the invariant is kept |
| `TokenStore.SignoutStep` | service/service.go:253-276 | bad credentials give InvalidCredentials with no change; on success no session of the user remains, other users' sessions are unchanged, and a client-token entry goes exactly when it pointed at one of the user's sessions issued under that client token; the invariant is kept |
| `TokenStore.AddUserStep` | service/service.go:281-292 | the username maps to the new ID and password, other users and all token maps unchanged |
| `TokenStore.AddProfileStep` | service/service.go:295-312 | the user ID maps to a profile named `name` whose ID is the valid offline-player UUID of the name; nothing else changes |
| `Service.MemoryYggdrasilService.constructor` | service/service.go:67-74 | a new service has four empty maps |
| `Service.MemoryYggdrasilService.Auth` | service/service.go:77-135 | performs AuthStep on the fields and keeps the invariant |
| `Service.MemoryYggdrasilService.Refresh` | service/service.go:138-204 | performs RefreshStep on the fields and keeps the invariant |
| `Service.MemoryYggdrasilService.Validate` | service/service.go:207-223 | never returns an error; true exactly when the token is live and the client token is empty or its own |
| `Service.MemoryYggdrasilService.Invalidate` | service/service.go:226-250 | performs InvalidateStep on the fields and keeps the invariant |
| `Service.MemoryYggdrasilService.Signout` | service/service.go:253-276 | its loop over the access tokens, in any order, performs SignoutStep and keeps the invariant |
| `Service.MemoryYggdrasilService.AddUser` | service/service.go:281-292 | performs AddUserStep on the fields |
| `Service.MemoryYggdrasilService.AddProfile` | service/service.go:295-312 | performs AddProfileStep on the fields |
| `Protocol.AuthIssuesValidToken` | service/service.go:104-111 | a token issued by Auth validates with and without its client token, and heads the client token's entry |
| `Protocol.RefreshRotatesToken` | service/service.go:166-181 | after Refresh the old token validates under no client token; the new one validates, and the client token is unchanged |
| `Protocol.RefreshSucceedsOnce` | service/service.go:140-146 | repeating a successful Refresh request fails with InvalidToken and changes nothing |
| `Protocol.InvalidateEndsOneSession` | service/service.go:242-246 | after Invalidate that token no longer validates, and every other token's answer is unchanged |
| `Protocol.SignoutIsTotal` | service/service.go:264-272 | after Signout none of the user's tokens validates, and other users' tokens answer as before |
| `Protocol.ReusedClientTokenKeepsBothSessions` | service/service.go:98-111 | two Auth calls with the same client token leave both tokens valid; the client-token entry points at the newer one |

## Left out

- Concurrency: the `sync.RWMutex` is not modelled, and the operations run one at a time. In the source, Auth, Refresh, Invalidate and Signout each read under one lock and write under another. A concurrent interleaving between the two windows can therefore differ from any sequential run. The model does not capture those interleavings.
- server/server.go (HTTP routing, JSON, status codes), client/client.go, main.go and cmd/test/test.go are not part of this model: they are transport and demo code.
- utils/javauuid.go is not part of this model. It does not compile, because `hash` is used without being defined.
- MD5 is a parameter, not computed. So the fixed identifier of a given name, such as "Bob", cannot be stated.
- `uuid.New` randomness: its 16 random bytes are a parameter. Its version-4 and variant patching is written as the library does it, which is an assumption about the library.
- `uuid.Parse` is modelled only on the 36-byte dashed form: dashes at 8, 13, 18 and 23, hex digits elsewhere. This is an assumption about the library. Its 32-byte, braced and `urn:uuid:` forms are read as errors in the model. The helpers never reach them, since FormatUUID only passes 36-byte strings.
- `hex.DecodeString` error kinds (`ErrLength`, `InvalidByteError`) are merged into one failure, because the source only tests `err != nil`.
- `time.Now` for `CreatedAt` is a parameter `now`. It is stored, never compared.
- Fresh identifiers from `utils.GenerateUUID` are parameters. A new access token is required not to be a key of the access-token map already, which stands for the absence of UUID collisions. The minted client token and the new user ID carry no such requirement, because nothing depends on it.
- Pointer aliasing of `*models.Profile` between the profile map and responses is not modelled: profiles are values. The source never mutates a profile after creation.
- Service.MemoryYggdrasilService.AddUser and Service.MemoryYggdrasilService.AddProfile return only the value, not Go's `error`. That error is always nil: AddUser has no failure path, and GenerateOfflinePlayerUUID is proved never to fail.
- Request fields the service ignores (`Agent` in authenticate, `SelectedProfile` in refresh) and response fields it never sets (`AvailableProfiles`, property signatures) are left out. The error strings are kept as `ServiceError.Message`.
