/**
 * pkg/encryption/encrypt.go: AES-GCM encryption keyed from the environment.
 * The key is the variable's value, whose length must be an AES key length;
 * the output of Encrypt is a fresh 12-byte nonce followed by the sealed
 * plaintext, and Decrypt splits its input at the nonce length again.
 *
 * AES-GCM itself (section 7 of NIST SP 800-38D) is not part of this model:
 * Seal and Open are a pair of functions given as a parameter, and the round
 * trip is proved for every pair that satisfies Open(Seal(p)) == p. The random
 * reader is an oracle giving the outcome of reading the i-th byte.
 */
module Encryption {
  import opened Wrappers
  import opened Utils

  newtype byte = x: int | 0 <= x < 256

  type Bytes = seq<byte>

  /** The standard GCM nonce length that aesGCM.NonceSize() reports. */
  const NonceSize: nat := 12

  const KeyLengthError := "ENCRYPT_SECRET must be 16, 24, or 32 bytes"

  /** The byte lengths of AES-128, AES-192 and AES-256 keys. */
  predicate ValidKeyLength(n: int) {
    n == 16 || n == 24 || n == 32
  }

  /**
   * getAESKey: the value of the variable named secretKey, or the literal
   * "ENCRYPT_SECRET" when it is unset, accepted only with a valid AES key length.
   */
  function GetAESKey(env: map<string, string>, secretKey: string): (r: Result<string, string>)
    ensures r.Success? <==> ValidKeyLength(|GetEnv(env, secretKey, "ENCRYPT_SECRET")|)
    ensures r.Success? ==> r.value == GetEnv(env, secretKey, "ENCRYPT_SECRET")
    ensures r.Failure? ==> r.error == KeyLengthError
  {
    var key := GetEnv(env, secretKey, "ENCRYPT_SECRET");
    if |key| != 16 && |key| != 24 && |key| != 32 then Failure(KeyLengthError) else Success(key)
  }

  /**
   * The fallback literal is 14 bytes long, so an unset variable always fails:
   * a key is only ever the value of a set variable.
   */
  lemma KeyComesFromEnvironment(env: map<string, string>, secretKey: string)
    ensures secretKey !in env ==> GetAESKey(env, secretKey) == Failure(KeyLengthError)
    ensures GetAESKey(env, secretKey).Success? ==>
      secretKey in env && GetAESKey(env, secretKey).value == env[secretKey]
  {
    assert |"ENCRYPT_SECRET"| == 14;
  }

  /** The sealing and opening functions of an AEAD keyed by an AES key. */
  datatype Aead = Aead(seal: (string, Bytes, Bytes) -> Bytes,
                       open: (string, Bytes, Bytes) -> Result<Bytes, string>)

  /** Opening what was sealed under the same key and nonce gives the plaintext back. */
  ghost predicate AeadCorrect(aead: Aead) {
    forall key, nonce, plaintext ::
      ValidKeyLength(|key|) && |nonce| == NonceSize ==>
      aead.open(key, nonce, aead.seal(key, nonce, plaintext)) == Success(plaintext)
  }

  /** The i-th byte the random reader yields, or the error it reports there. */
  type ByteSource = nat -> Result<byte, string>

  /** io.ReadFull's error: an end of stream after some bytes were read becomes "unexpected EOF". */
  function ReadFullError(read: nat, e: string): string {
    if e == "EOF" && read > 0 then "unexpected EOF" else e
  }

  /** What io.ReadFull makes of the first `n` bytes of the reader. */
  function ReadFullSpec(src: ByteSource, n: nat): (r: Result<Bytes, string>)
    ensures r.Success? <==> forall i: nat :: i < n ==> src(i).Success?
    ensures r.Success? ==> |r.value| == n && forall i :: 0 <= i < n ==> src(i) == Success(r.value[i])
    decreases n
  {
    if n == 0 then Success([])
    else match ReadFullSpec(src, n - 1)
      case Failure(e) => Failure(e)
      case Success(bs) =>
        match src(n - 1)
        case Failure(e) => Failure(ReadFullError(n - 1, e))
        case Success(b) => Success(bs + [b])
  }

  /** The first failing byte decides the error of every longer read. */
  lemma {:induction false} ReadFullSpecFailsFrom(src: ByteSource, i: nat, n: nat)
    requires i < n
    requires ReadFullSpec(src, i).Success? && src(i).Failure?
    ensures ReadFullSpec(src, n) == Failure(ReadFullError(i, src(i).error))
    decreases n
  {
    if n > i + 1 {
      ReadFullSpecFailsFrom(src, i, n - 1);
    }
  }

  /** io.ReadFull into a buffer: fills it in place or reports the first read error. */
  method ReadFull(buf: array<byte>, src: ByteSource) returns (err: Option<string>)
    modifies buf
    ensures err.None? <==> ReadFullSpec(src, buf.Length).Success?
    ensures err.None? ==> buf[..] == ReadFullSpec(src, buf.Length).value
    ensures err.Some? ==> err.value == ReadFullSpec(src, buf.Length).error
  {
    for i := 0 to buf.Length
      invariant ReadFullSpec(src, i).Success? && buf[..i] == ReadFullSpec(src, i).value
    {
      var r := src(i);
      if r.Failure? {
        ReadFullSpecFailsFrom(src, i, buf.Length);
        return Some(ReadFullError(i, r.error));
      }
      buf[i] := r.value;
    }
    assert buf[..] == buf[..buf.Length];
    return None;
  }

  /**
   * Decrypt: a bad key is reported first; then input shorter than a nonce is
   * "data too short"; otherwise the first NonceSize bytes are the nonce, the
   * rest is opened, and an Open error is returned as it is.
   */
  function Decrypt(data: Bytes, secretKey: string, env: map<string, string>, aead: Aead): (r: Result<Bytes, string>)
    ensures GetAESKey(env, secretKey).Failure? ==> r == Failure(KeyLengthError)
    ensures GetAESKey(env, secretKey).Success? && |data| < NonceSize ==> r == Failure("data too short")
    ensures GetAESKey(env, secretKey).Success? && |data| >= NonceSize ==>
      r == aead.open(GetAESKey(env, secretKey).value, data[..NonceSize], data[NonceSize..])
  {
    match GetAESKey(env, secretKey)
    case Failure(e) => Failure(e)
    case Success(key) =>
      if |data| < NonceSize then Failure("data too short")
      else
        var nonce, ciphertext := data[..NonceSize], data[NonceSize..];
        aead.open(key, nonce, ciphertext)
  }

  /** Splitting a nonce-prefixed frame gives back the nonce and the sealed text, so Decrypt undoes the framing. */
  lemma FramingRoundTrip(secretKey: string, env: map<string, string>, aead: Aead, nonce: Bytes, plaintext: Bytes)
    requires AeadCorrect(aead)
    requires GetAESKey(env, secretKey).Success?
    requires |nonce| == NonceSize
    ensures Decrypt(nonce + aead.seal(GetAESKey(env, secretKey).value, nonce, plaintext), secretKey, env, aead)
            == Success(plaintext)
  {
    var key := GetAESKey(env, secretKey).value;
    var data := nonce + aead.seal(key, nonce, plaintext);
    assert data[..NonceSize] == nonce;
    assert data[NonceSize..] == aead.seal(key, nonce, plaintext);
  }

  /**
   * Encrypt: a bad key is reported before any other work; then a nonce is read
   * from the random source; the result is that nonce followed by the sealed
   * plaintext, which Decrypt turns back into the plaintext.
   */
  method Encrypt(plaintext: Bytes, secretKey: string, env: map<string, string>, aead: Aead, src: ByteSource)
    returns (r: Result<Bytes, string>)
    ensures GetAESKey(env, secretKey).Failure? ==> r == Failure(KeyLengthError)
    ensures GetAESKey(env, secretKey).Success? && ReadFullSpec(src, NonceSize).Failure? ==>
      r == Failure(ReadFullSpec(src, NonceSize).error)
    ensures GetAESKey(env, secretKey).Success? && ReadFullSpec(src, NonceSize).Success? ==>
      var nonce := ReadFullSpec(src, NonceSize).value;
      r == Success(nonce + aead.seal(GetAESKey(env, secretKey).value, nonce, plaintext))
    ensures r.Success? ==> |r.value| >= NonceSize
    ensures r.Success? && AeadCorrect(aead) ==> Decrypt(r.value, secretKey, env, aead) == Success(plaintext)
  {
    var keyResult := GetAESKey(env, secretKey);
    if keyResult.Failure? {
      return Failure(keyResult.error);
    }
    var key := keyResult.value;
    var nonce := new byte[NonceSize];
    var readErr := ReadFull(nonce, src);
    if readErr.Some? {
      return Failure(readErr.value);
    }
    var ciphertext := aead.seal(key, nonce[..], plaintext);
    r := Success(nonce[..] + ciphertext);
    if AeadCorrect(aead) {
      FramingRoundTrip(secretKey, env, aead, nonce[..], plaintext);
    }
  }
}
