/**
 * pkg/encryption/hash.go: the bcrypt cost read from the environment, password
 * hashing that swallows bcrypt's error, and an HMAC-SHA256 tag of a text
 * rendered as lowercase hexadecimal. bcrypt and HMAC-SHA256 (RFC 2104 over
 * FIPS 180-4 SHA-256) are not part of this model: they are functions given as
 * parameters, HMAC's with its 32-byte output length.
 */
module Hashing {
  import opened Wrappers
  import opened GoStrings
  import opened Utils
  import opened Encryption

  /** bcrypt.DefaultCost. */
  const DefaultCost := 10

  /**
   * GetBcryptCost: the variable's value read as a decimal integer, used as it
   * is; DefaultCost when it does not parse. An unset variable falls back to the
   * literal "BCRYPT_COST", which never parses.
   */
  function GetBcryptCost(env: map<string, string>, secretKey: string): (cost: int)
    ensures Atoi(GetEnv(env, secretKey, "BCRYPT_COST")).Some? ==> cost == Atoi(GetEnv(env, secretKey, "BCRYPT_COST")).value
    ensures Atoi(GetEnv(env, secretKey, "BCRYPT_COST")).None? ==> cost == DefaultCost
  {
    var cost := GetEnv(env, secretKey, "BCRYPT_COST");
    match Atoi(cost)
    case None => DefaultCost
    case Some(num) => num
  }

  /** An unset variable gives the default cost. */
  lemma UnsetCostIsDefault(env: map<string, string>, secretKey: string)
    requires secretKey !in env
    ensures GetBcryptCost(env, secretKey) == DefaultCost
  {
    assert !IsDigit("BCRYPT_COST"[0]);
  }

  /** Any int64 written in decimal is taken as the cost unchanged: there is no clamping to bcrypt's range. */
  lemma CostIsNotClamped(env: map<string, string>, secretKey: string, n: int)
    requires MinInt64 <= n <= MaxInt64
    requires secretKey in env && env[secretKey] == FormatInt(n)
    ensures GetBcryptCost(env, secretKey) == n
  {
    AtoiFormatInt(n);
  }

  /** bcrypt.GenerateFromPassword: the hash of a password at a cost, or an error. */
  type Bcrypt = (string, int) -> Result<string, string>

  /** Hashpassword: the bcrypt hash at the configured cost, or "" when bcrypt fails. */
  function Hashpassword(password: string, secretKey: string, env: map<string, string>, bcrypt: Bcrypt): (hashed: string)
    ensures bcrypt(password, GetBcryptCost(env, secretKey)).Success? ==>
      hashed == bcrypt(password, GetBcryptCost(env, secretKey)).value
    ensures bcrypt(password, GetBcryptCost(env, secretKey)).Failure? ==> hashed == ""
  {
    match bcrypt(password, GetBcryptCost(env, secretKey))
    case Failure(_) => ""
    case Success(h) => h
  }

  /** bcrypt never produces an empty hash. */
  ghost predicate NonEmptyHashes(bcrypt: Bcrypt) {
    forall password, cost :: bcrypt(password, cost).Success? ==> bcrypt(password, cost).value != ""
  }

  /** With a bcrypt that never returns "", an empty result is exactly a swallowed error. */
  lemma EmptyHashMeansFailure(password: string, secretKey: string, env: map<string, string>, bcrypt: Bcrypt)
    requires NonEmptyHashes(bcrypt)
    ensures Hashpassword(password, secretKey, env, bcrypt) == "" <==>
      bcrypt(password, GetBcryptCost(env, secretKey)).Failure?
  {
  }

  /** An HMAC-SHA256 tag. */
  type Digest = s: Bytes | |s| == 32 witness seq(32, _ => 0 as byte)

  /** HMAC-SHA256 keyed with the first argument over the second. */
  type Hmac = (string, string) -> Digest

  const HexDigits := "0123456789abcdef"

  predicate IsHexDigit(c: char) {
    '0' <= c <= '9' || 'a' <= c <= 'f'
  }

  predicate IsLowerHex(s: string) {
    forall i :: 0 <= i < |s| ==> IsHexDigit(s[i])
  }

  lemma HexDigitsAreHex()
    ensures forall d :: 0 <= d < 16 ==> IsHexDigit(HexDigits[d])
  {
  }

  function HexValue(c: char): (v: int)
    requires IsHexDigit(c)
    ensures 0 <= v < 16 && HexDigits[v] == c
  {
    if '0' <= c <= '9' then c as int - '0' as int else c as int - 'a' as int + 10
  }

  /** The two lowercase digits of a byte, high nibble first. */
  function HexPair(b: byte): (s: string)
    ensures |s| == 2 && IsLowerHex(s)
  {
    HexDigitsAreHex();
    [HexDigits[b as int / 16], HexDigits[b as int % 16]]
  }

  /** hex.EncodeToString: two digits per byte, in order. */
  function HexEncode(bs: Bytes): (s: string)
    ensures |s| == 2 * |bs|
    ensures IsLowerHex(s)
    decreases |bs|
  {
    if bs == [] then "" else HexPair(bs[0]) + HexEncode(bs[1..])
  }

  function HexDecode(s: string): (bs: Bytes)
    requires |s| % 2 == 0 && IsLowerHex(s)
    ensures |bs| == |s| / 2
    decreases |s|
  {
    if s == [] then []
    else [(HexValue(s[0]) * 16 + HexValue(s[1])) as byte] + HexDecode(s[2..])
  }

  /** The two digits written for a byte read back as that byte. */
  lemma HexPairDecodes(b: byte)
    ensures HexValue(HexPair(b)[0]) * 16 + HexValue(HexPair(b)[1]) == b as int
  {
    var hi, lo := b as int / 16, b as int % 16;
    assert HexValue(HexDigits[hi]) == hi;
    assert HexValue(HexDigits[lo]) == lo;
  }

  /** Decoding the hex text gives the bytes back. */
  lemma {:induction false} HexRoundTrip(bs: Bytes)
    ensures HexDecode(HexEncode(bs)) == bs
    decreases |bs|
  {
    if bs != [] {
      var s := HexEncode(bs);
      assert s[2..] == HexEncode(bs[1..]);
      HexPairDecodes(bs[0]);
      HexRoundTrip(bs[1..]);
    }
  }

  /** HashText: the HMAC of the value, keyed with the variable's value or the literal "HASH_SECRET" when unset, in hex. */
  function HashText(value: string, secretKey: string, env: map<string, string>, hmac: Hmac): (h: string)
    ensures |h| == 64 && IsLowerHex(h)
    ensures HexDecode(h) == hmac(GetEnv(env, secretKey, "HASH_SECRET"), value)
  {
    var secret := GetEnv(env, secretKey, "HASH_SECRET");
    var tag := hmac(secret, value);
    HexRoundTrip(tag);
    HexEncode(tag)
  }

  /** Two texts hash alike exactly when their tags under the selected secrets are equal. */
  lemma HashTextSameIffSameTag(v1: string, v2: string, secretKey: string, env1: map<string, string>,
                               env2: map<string, string>, hmac: Hmac)
    ensures HashText(v1, secretKey, env1, hmac) == HashText(v2, secretKey, env2, hmac) <==>
      hmac(GetEnv(env1, secretKey, "HASH_SECRET"), v1) == hmac(GetEnv(env2, secretKey, "HASH_SECRET"), v2)
  {
    var h1, h2 := HashText(v1, secretKey, env1, hmac), HashText(v2, secretKey, env2, hmac);
    if h1 == h2 {
      assert HexDecode(h1) == HexDecode(h2);
    }
  }

  /** With the variable unset, every text is tagged under the publicly known key "HASH_SECRET". */
  lemma UnsetSecretUsesLiteral(value: string, secretKey: string, env: map<string, string>, hmac: Hmac)
    requires secretKey !in env
    ensures HexDecode(HashText(value, secretKey, env, hmac)) == hmac("HASH_SECRET", value)
  {
  }
}
