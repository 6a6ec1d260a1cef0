/**
 * The identifier helpers of utils/uuid.go: the offline-player UUID derivation,
 * the undashed/dashed conversions and the validation of undashed strings.
 *
 * Identifiers travel as Go strings (byte strings). The library pieces the helpers
 * lean on are modelled here too, as far as the helpers use them:
 *   - `hex.Encode` / `hex.DecodeString` (EncodeHex, DecodeHex);
 *   - `uuid.UUID.String`, `uuid.Parse` (dashed 36-byte form), `uuid.FromBytes`
 *     and the version/variant patching `uuid.New` applies to its random bytes;
 *   - `strings.ReplaceAll(s, "-", "")` (RemoveDashes).
 * The MD5 digest is a parameter of type `seq<byte> -> Bytes16`.
 */
module Uuid {
  import opened GoTypes

  /** A `[16]byte` array, or a `uuid.UUID` value. */
  type Bytes16 = s: seq<byte> | |s| == 16 witness seq(16, _ => 0 as byte)

  /** The two ways the conversions fail: a wrong length, or a byte that is not where or what it should be. */
  datatype UuidError = InvalidLength | InvalidFormat

  /** The byte '-'. */
  const Dash: byte := 0x2D

  /** "OfflinePlayer:", the prefix hashed in front of a player name. */
  const OfflinePlayerPrefix: Str := [0x4F, 0x66, 0x66, 0x6C, 0x69, 0x6E, 0x65, 0x50, 0x6C, 0x61, 0x79, 0x65, 0x72, 0x3A]

  // ---------------------------------------------------------------------------
  // Hexadecimal digits (the tables of encoding/hex and of uuid's xtob)
  // ---------------------------------------------------------------------------

  /** A digit both `hex.DecodeString` and `uuid.Parse` accept: 0-9, a-f, A-F. */
  predicate IsHexDigit(c: byte) {
    (0x30 <= c <= 0x39) || (0x61 <= c <= 0x66) || (0x41 <= c <= 0x46)
  }

  /** A digit as `hex.Encode` writes it: 0-9, a-f. */
  predicate IsLowerHexDigit(c: byte) {
    (0x30 <= c <= 0x39) || (0x61 <= c <= 0x66)
  }

  predicate AllHex(s: Str) {
    forall i :: 0 <= i < |s| ==> IsHexDigit(s[i])
  }

  predicate AllLowerHex(s: Str) {
    forall i :: 0 <= i < |s| ==> IsLowerHexDigit(s[i])
  }

  /** "0123456789abcdef", the digit table of `hex.Encode` and of `uuid.UUID.String`. */
  const HexTable: Str := [0x30, 0x31, 0x32, 0x33, 0x34, 0x35, 0x36, 0x37, 0x38, 0x39, 0x61, 0x62, 0x63, 0x64, 0x65, 0x66]

  /** The value of one hex digit, either case. */
  function HexValue(c: byte): (v: byte)
    requires IsHexDigit(c)
    ensures v < 16
    ensures IsLowerHexDigit(c) ==> HexChar(v) == c
    ensures 0x41 <= c <= 0x46 ==> HexChar(v) == c + 0x20
  {
    if c <= 0x39 then c - 0x30
    else if c <= 0x46 then c - 0x41 + 10
    else c - 0x61 + 10
  }

  /** The lower-case digit for a nibble. */
  function HexChar(n: byte): (c: byte)
    requires n < 16
    ensures c == HexTable[n as int]
    ensures IsLowerHexDigit(c)
    ensures (0x30 <= c <= 0x39) <==> n < 10
  {
    if n < 10 then 0x30 + n else 0x61 + (n - 10)
  }

  lemma HexValueOfHexChar(n: byte)
    requires n < 16
    ensures HexValue(HexChar(n)) == n
  {
  }

  /** `hex.Encode`: every byte becomes its high nibble's digit, then its low nibble's. */
  function EncodeHex(b: seq<byte>): (s: Str)
    ensures |s| == 2 * |b|
    ensures AllLowerHex(s)
  {
    if b == [] then []
    else [HexChar(b[0] >> 4), HexChar(b[0] & 0x0f)] + EncodeHex(b[1..])
  }

  lemma {:induction false} EncodeHexAppend(a: seq<byte>, b: seq<byte>)
    ensures EncodeHex(a + b) == EncodeHex(a) + EncodeHex(b)
  {
    if a == [] {
      assert a + b == b;
    } else {
      assert (a + b)[1..] == a[1..] + b;
      EncodeHexAppend(a[1..], b);
    }
  }

  /** The two digits of byte `k` of `b` sit at positions 2k and 2k+1 of its encoding. */
  lemma {:induction false} EncodeHexAt(b: seq<byte>, k: nat)
    requires k < |b|
    ensures EncodeHex(b)[2 * k] == HexChar(b[k] >> 4)
    ensures EncodeHex(b)[2 * k + 1] == HexChar(b[k] & 0x0f)
  {
    if k > 0 {
      EncodeHexAt(b[1..], k - 1);
    }
  }

  /**
   * `hex.DecodeString`: None (an `ErrLength` or `InvalidByteError`) unless the
   * string has even length and only hex digits of either case.
   */
  function DecodeHex(s: Str): (r: Option<seq<byte>>)
    ensures r.Some? <==> |s| % 2 == 0 && AllHex(s)
    ensures r.Some? ==> 2 * |r.value| == |s|
    decreases |s|
  {
    if |s| == 0 then Some([])
    else if |s| == 1 then None
    else if !IsHexDigit(s[0]) || !IsHexDigit(s[1]) then None
    else
      match DecodeHex(s[2..])
      case None => None
      case Some(rest) => Some([(HexValue(s[0]) << 4) | HexValue(s[1])] + rest)
  }

  /** Decoding undoes encoding. */
  lemma {:induction false} DecodeEncodeHex(b: seq<byte>)
    ensures DecodeHex(EncodeHex(b)) == Some(b)
  {
    if b != [] {
      var s := EncodeHex(b);
      assert s[2..] == EncodeHex(b[1..]);
      DecodeEncodeHex(b[1..]);
      HexValueOfHexChar(b[0] >> 4);
      HexValueOfHexChar(b[0] & 0x0f);
      assert ((b[0] >> 4) << 4) | (b[0] & 0x0f) == b[0];
      assert [b[0]] + b[1..] == b;
    }
  }

  lemma Nibbles(hi: byte, lo: byte)
    requires hi < 16 && lo < 16
    ensures ((hi << 4) | lo) >> 4 == hi && ((hi << 4) | lo) & 0x0f == lo
  {
  }

  lemma DecodeHexCons(s: Str)
    requires |s| >= 2 && IsHexDigit(s[0]) && IsHexDigit(s[1]) && DecodeHex(s[2..]).Some?
    ensures DecodeHex(s) == Some([(HexValue(s[0]) << 4) | HexValue(s[1])] + DecodeHex(s[2..]).value)
  {
  }

  lemma EncodeHexCons(x: byte, rest: seq<byte>)
    ensures EncodeHex([x] + rest) == [HexChar(x >> 4), HexChar(x & 0x0f)] + EncodeHex(rest)
  {
    assert ([x] + rest)[1..] == rest;
  }

  lemma LowerHexIsHex(s: Str)
    requires |s| >= 2 && AllLowerHex(s)
    ensures AllHex(s) && AllLowerHex(s[2..])
  {
  }

  /** Encoding undoes decoding of a lower-case digit string. */
  lemma {:induction false} EncodeDecodeHex(s: Str)
    requires |s| % 2 == 0 && AllLowerHex(s)
    ensures DecodeHex(s).Some? && EncodeHex(DecodeHex(s).value) == s
    decreases |s|
  {
    if |s| > 0 {
      LowerHexIsHex(s);
      var tail := s[2..];
      EncodeDecodeHex(tail);
      var hi, lo := HexValue(s[0]), HexValue(s[1]);
      var x := (hi << 4) | lo;
      var rest := DecodeHex(tail).value;
      assert DecodeHex(s) == Some([x] + rest) by {
        DecodeHexCons(s);
      }
      assert EncodeHex([x] + rest) == [s[0], s[1]] + tail by {
        EncodeHexCons(x, rest);
        Nibbles(hi, lo);
      }
      assert s == [s[0], s[1]] + tail;
    }
  }

  // ---------------------------------------------------------------------------
  // Dashes
  // ---------------------------------------------------------------------------

  /** `strings.ReplaceAll(s, "-", "")`. */
  function RemoveDashes(s: Str): (r: Str)
    ensures Dash !in r
  {
    if s == [] then []
    else (if s[0] == Dash then [] else [s[0]]) + RemoveDashes(s[1..])
  }

  /** A string without dashes is left alone. */
  lemma {:induction false} RemoveDashesNoDash(s: Str)
    requires Dash !in s
    ensures RemoveDashes(s) == s
  {
    if s != [] {
      RemoveDashesNoDash(s[1..]);
    }
  }

  lemma {:induction false} RemoveDashesAppend(a: Str, b: Str)
    ensures RemoveDashes(a + b) == RemoveDashes(a) + RemoveDashes(b)
  {
    if a == [] {
      assert a + b == b;
    } else {
      assert (a + b)[1..] == a[1..] + b;
      RemoveDashesAppend(a[1..], b);
    }
  }

  /** Where the i-th of 32 digits lands in the 8-4-4-4-12 grouping. */
  function DashedIndex(i: nat): (j: nat)
    requires i < 32
    ensures i <= j < 36 && j != 8 && j != 13 && j != 18 && j != 23
  {
    if i < 8 then i else if i < 12 then i + 1 else if i < 16 then i + 2 else if i < 20 then i + 3 else i + 4
  }

  /** The 8-4-4-4-12 grouping of 32 bytes (utils/uuid.go's FormatUUID, and `uuid.UUID.String` around `hex.Encode`). */
  function InsertDashes(h: Str): (d: Str)
    requires |h| == 32
    ensures |d| == 36
    ensures d[8] == Dash && d[13] == Dash && d[18] == Dash && d[23] == Dash
    ensures forall i :: 0 <= i < 32 ==> d[DashedIndex(i)] == h[i]
  {
    h[..8] + [Dash] + h[8..12] + [Dash] + h[12..16] + [Dash] + h[16..20] + [Dash] + h[20..]
  }

  /** The 32 positions of a 36-byte string that are not dash positions, in order (what `uuid.Parse` decodes). */
  function HexGroups(d: Str): (h: Str)
    requires |d| == 36
    ensures |h| == 32
    ensures forall i :: 0 <= i < 32 ==> h[i] == d[DashedIndex(i)]
  {
    d[..8] + d[9..13] + d[14..18] + d[19..23] + d[24..]
  }

  lemma HexGroupsOfInsertDashes(h: Str)
    requires |h| == 32
    ensures HexGroups(InsertDashes(h)) == h
  {
    var g := HexGroups(InsertDashes(h));
    forall i | 0 <= i < 32 ensures g[i] == h[i] {
    }
  }

  /** A dash followed by dash-free bytes contributes only those bytes. */
  lemma RemoveDashesThenGroup(x: Str, y: Str)
    requires Dash !in y
    ensures RemoveDashes(x + [Dash] + y) == RemoveDashes(x) + y
  {
    var t := [Dash] + y;
    assert t[0] == Dash && t[1..] == y;
    assert RemoveDashes(t) == RemoveDashes(y);
    RemoveDashesNoDash(y);
    assert x + [Dash] + y == x + t;
    RemoveDashesAppend(x, t);
  }

  /** Taking the dashes out of the grouping gives the digits back. */
  lemma RemoveInsertedDashes(h: Str)
    requires |h| == 32 && Dash !in h
    ensures RemoveDashes(InsertDashes(h)) == h
  {
    var a, b, c, d, e := h[..8], h[8..12], h[12..16], h[16..20], h[20..];
    assert Dash !in a && Dash !in b && Dash !in c && Dash !in d && Dash !in e;
    RemoveDashesNoDash(a);
    var s1 := a + [Dash] + b;
    RemoveDashesThenGroup(a, b);
    var s2 := s1 + [Dash] + c;
    RemoveDashesThenGroup(s1, c);
    var s3 := s2 + [Dash] + d;
    RemoveDashesThenGroup(s2, d);
    var s4 := s3 + [Dash] + e;
    RemoveDashesThenGroup(s3, e);
    assert InsertDashes(h) == s4;
    assert a + b + c + d + e == h;
  }

  // ---------------------------------------------------------------------------
  // The uuid library, as far as utils/uuid.go uses it
  // ---------------------------------------------------------------------------

  /** `uuid.FromBytes`: fails unless given exactly 16 bytes. */
  function FromBytes(b: seq<byte>): (r: Result<Bytes16, UuidError>)
    ensures r.Ok? <==> |b| == 16
    ensures r.Ok? ==> r.value == b
  {
    if |b| != 16 then Err(InvalidLength) else Ok(b)
  }

  /** `uuid.UUID.String`: 36 lower-case digits and dashes. */
  function ToString(u: Bytes16): (s: Str)
    ensures |s| == 36
    ensures s[8] == Dash && s[13] == Dash && s[18] == Dash && s[23] == Dash
    ensures HexGroups(s) == EncodeHex(u)
  {
    HexGroupsOfInsertDashes(EncodeHex(u));
    InsertDashes(EncodeHex(u))
  }

  /** `uuid.Parse` on its 36-byte form xxxxxxxx-xxxx-xxxx-xxxx-xxxxxxxxxxxx. */
  function Parse(s: Str): (r: Result<Bytes16, UuidError>)
    ensures r.Ok? <==> |s| == 36 && s[8] == Dash && s[13] == Dash && s[18] == Dash && s[23] == Dash
                       && AllHex(HexGroups(s))
  {
    if |s| != 36 then Err(InvalidLength)
    else if s[8] != Dash || s[13] != Dash || s[18] != Dash || s[23] != Dash then Err(InvalidFormat)
    else
      match DecodeHex(HexGroups(s))
      case None => Err(InvalidFormat)
      case Some(b) => Ok(b)
  }

  /** Parsing the library's own rendering gives the bytes back. */
  lemma ParseToString(u: Bytes16)
    ensures Parse(ToString(u)) == Ok(u)
  {
    DecodeEncodeHex(u);
  }

  /**
   * Patches the version nibble (top of byte 6) and the variant bits (top two of
   * byte 8, set to 10) of a 16-byte value, as section 4.1.3 and section 4.1.1 of
   * RFC 4122 lay them out.
   */
  function PatchVersionAndVariant(h: Bytes16, version: byte): (p: Bytes16)
    requires version < 16
    ensures p[6] >> 4 == version && p[6] & 0x0f == h[6] & 0x0f
    ensures p[8] >> 6 == 2 && p[8] & 0x3f == h[8] & 0x3f
    ensures forall i :: 0 <= i < 16 && i != 6 && i != 8 ==> p[i] == h[i]
  {
    h[6 := (h[6] & 0x0f) | (version << 4)][8 := (h[8] & 0x3f) | 0x80]
  }

  // ---------------------------------------------------------------------------
  // utils/uuid.go
  // ---------------------------------------------------------------------------

  /**
   * GenerateOfflinePlayerUUID: MD5 of "OfflinePlayer:" + name with version 3 and
   * the RFC 4122 variant patched in, rendered without dashes. It never fails.
   */
  function GenerateOfflinePlayerUUID(md5: seq<byte> -> Bytes16, playerName: Str): (r: Result<Str, UuidError>)
    ensures r.Ok?
    ensures r.value == EncodeHex(PatchVersionAndVariant(md5(OfflinePlayerPrefix + playerName), 3))
  {
    var hash := PatchVersionAndVariant(md5(OfflinePlayerPrefix + playerName), 3);
    // FromBytes cannot fail here: the digest has 16 bytes
    var parsed := FromBytes(hash).value;
    var s := ToString(parsed);
    RemoveInsertedDashes(EncodeHex(parsed));
    Ok(RemoveDashes(s))
  }

  /**
   * FormatUUID: an error unless the input has 32 bytes, then the 8-4-4-4-12
   * grouping, kept only if `uuid.Parse` accepts it.
   */
  function FormatUUID(undashed: Str): (r: Result<Str, UuidError>)
    ensures |undashed| != 32 ==> r == Err(InvalidLength)
    ensures r.Ok? <==> |undashed| == 32 && AllHex(undashed)
    ensures r.Ok? ==> |r.value| == 36
    ensures r.Ok? ==> r.value[8] == Dash && r.value[13] == Dash && r.value[18] == Dash && r.value[23] == Dash
    ensures r.Ok? ==> forall i :: 0 <= i < 32 ==> r.value[DashedIndex(i)] == undashed[i]
  {
    if |undashed| != 32 then Err(InvalidLength)
    else
      var formatted := InsertDashes(undashed);
      HexGroupsOfInsertDashes(undashed);
      match Parse(formatted)
      case Err(e) => Err(e)
      case Ok(_) => Ok(formatted)
  }

  /** ParseUndashedUUID: FormatUUID, then `uuid.Parse`. */
  function ParseUndashedUUID(undashed: Str): (r: Result<Bytes16, UuidError>)
    ensures r.Ok? <==> |undashed| == 32 && AllHex(undashed)
    ensures r.Ok? ==> DecodeHex(undashed) == Some(r.value)
  {
    match FormatUUID(undashed)
    case Err(e) => Err(e)
    case Ok(formatted) =>
      HexGroupsOfInsertDashes(undashed);
      Parse(formatted)
  }

  /** GenerateUUID: `uuid.New()` (version 4) without dashes; the sixteen random bytes are a parameter. */
  function GenerateUUID(random: Bytes16): (s: Str)
    ensures s == EncodeHex(PatchVersionAndVariant(random, 4))
  {
    var u := PatchVersionAndVariant(random, 4);
    RemoveInsertedDashes(EncodeHex(u));
    RemoveDashes(ToString(u))
  }

  /** ValidateUndashedUUID: 32 bytes, `hex.DecodeString` succeeds, and ParseUndashedUUID succeeds. */
  function ValidateUndashedUUID(undashed: Str): (ok: bool)
    ensures ok <==> |undashed| == 32 && AllHex(undashed)
  {
    if |undashed| != 32 then false
    else if DecodeHex(undashed).None? then false
    else ParseUndashedUUID(undashed).Ok?
  }

  // ---------------------------------------------------------------------------
  // Properties
  // ---------------------------------------------------------------------------

  /** Deleting the dashes from FormatUUID's output gives its input back. */
  lemma FormatUUIDRoundTrip(undashed: Str)
    requires FormatUUID(undashed).Ok?
    ensures RemoveDashes(FormatUUID(undashed).value) == undashed
  {
    assert forall i :: 0 <= i < |undashed| ==> IsHexDigit(undashed[i]);
    assert Dash !in undashed;
    RemoveInsertedDashes(undashed);
  }

  /** Formatting an identifier that parses, and parsing back, gives the same 16 bytes. */
  lemma ParseUndashedOfEncoding(u: Bytes16)
    ensures ParseUndashedUUID(EncodeHex(u)) == Ok(u)
  {
    DecodeEncodeHex(u);
  }

  /**
   * The offline-player identifier, byte by byte: it decodes to the digest of
   * "OfflinePlayer:" + name with version nibble 3 and variant bits 10 only.
   */
  lemma OfflinePlayerUUIDBytes(md5: seq<byte> -> Bytes16, playerName: Str)
    ensures var digest := md5(OfflinePlayerPrefix + playerName);
      && ParseUndashedUUID(GenerateOfflinePlayerUUID(md5, playerName).value).Ok?
      && var p := ParseUndashedUUID(GenerateOfflinePlayerUUID(md5, playerName).value).value;
      && p[6] >> 4 == 3 && p[6] & 0x0f == digest[6] & 0x0f
      && p[8] >> 6 == 2 && p[8] & 0x3f == digest[8] & 0x3f
      && forall i :: 0 <= i < 16 && i != 6 && i != 8 ==> p[i] == digest[i]
  {
    ParseUndashedOfEncoding(PatchVersionAndVariant(md5(OfflinePlayerPrefix + playerName), 3));
  }

  /** The offline-player identifier is 32 lower-case digits, no dash, and passes ValidateUndashedUUID. */
  lemma OfflinePlayerUUIDShape(md5: seq<byte> -> Bytes16, playerName: Str)
    ensures var s := GenerateOfflinePlayerUUID(md5, playerName).value;
      |s| == 32 && Dash !in s && AllLowerHex(s) && ValidateUndashedUUID(s)
  {
    var s := GenerateOfflinePlayerUUID(md5, playerName).value;
    assert forall i :: 0 <= i < |s| ==> IsHexDigit(s[i]);
  }

  /** The version digit of an offline-player identifier reads '3' and its variant digit is one of 8, 9, a, b. */
  lemma {:induction false} OfflinePlayerUUIDDigits(md5: seq<byte> -> Bytes16, playerName: Str)
    ensures var s := GenerateOfflinePlayerUUID(md5, playerName).value;
      |s| == 32 && s[12] == 0x33 && s[16] in {0x38, 0x39, 0x61, 0x62}
  {
    var p := PatchVersionAndVariant(md5(OfflinePlayerPrefix + playerName), 3);
    EncodeHexAt(p, 6);
    EncodeHexAt(p, 8);
    assert p[8] >> 4 in {8, 9, 10, 11};
  }

  /** GenerateUUID's output is 32 lower-case digits with no dash, reads '4' at the version digit, and validates. */
  lemma {:induction false} GenerateUUIDShape(random: Bytes16)
    ensures var s := GenerateUUID(random);
      && |s| == 32 && Dash !in s && AllLowerHex(s) && ValidateUndashedUUID(s)
      && s[12] == 0x34 && s[16] in {0x38, 0x39, 0x61, 0x62}
  {
    var p := PatchVersionAndVariant(random, 4);
    var s := GenerateUUID(random);
    assert forall i :: 0 <= i < |s| ==> IsHexDigit(s[i]);
    EncodeHexAt(p, 6);
    EncodeHexAt(p, 8);
    assert p[8] >> 4 in {8, 9, 10, 11};
  }
}
