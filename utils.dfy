/**
 * pkg/utils/utils.go: environment lookup with a default, a numeric one-time
 * password drawn digit by digit from a random source, and a generic map over
 * a slice. The process environment is a map from names to values, and the
 * random source is an oracle giving the outcome of the i-th draw.
 */
module Utils {
  import opened Wrappers
  import opened GoStrings

  /** GetEnv: the variable's value when it is set, even to "", else the default. */
  function GetEnv(env: map<string, string>, key: string, defaultValue: string): (v: string)
    ensures key in env ==> v == env[key]
    ensures key !in env ==> v == defaultValue
  {
    if key in env then env[key] else defaultValue
  }

  /** A set variable makes the default irrelevant; an unset one makes the default the answer. */
  lemma GetEnvDefaultOnlyWhenUnset(env: map<string, string>, key: string, d1: string, d2: string)
    ensures GetEnv(env, key, d1) == GetEnv(env, key, d2) <==> key in env || d1 == d2
  {
  }

  /** What rand.Int(rand.Reader, 10) can return: a value in [0, 10). */
  type Digit = d: int | 0 <= d < 10

  /** The i-th draw from the random source: a digit, or the reader's error. */
  type DigitSource = nat -> Result<Digit, string>

  /** FormatInt prints a single digit as that one character. */
  lemma FormatDigit(d: Digit)
    ensures FormatInt(d) == [DigitChar(d)]
  {
  }

  /** The first `n` draws all succeeded. */
  ghost predicate DrawsSucceed(draw: DigitSource, n: int) {
    forall i: nat :: i < n ==> draw(i).Success?
  }

  /**
   * GenerateOTP: one draw per position. On success the password has length
   * max(length, 0) and its i-th character is the i-th draw as a decimal digit.
   * The first failing draw makes the result "" with that draw's error,
   * whatever digits were produced before it.
   */
  method GenerateOTP(length: int, draw: DigitSource) returns (otp: string, err: Option<string>)
    ensures err.None? <==> DrawsSucceed(draw, length)
    ensures err.None? ==> |otp| == (if length < 0 then 0 else length)
    ensures err.None? ==> AllDigits(otp)
    ensures err.None? ==> forall i :: 0 <= i < |otp| ==> DigitValue(otp[i]) == draw(i).value
    ensures err.Some? ==> otp == "" && exists j: nat :: j < length && DrawsSucceed(draw, j)
                                                     && draw(j).Failure? && err.value == draw(j).error
  {
    var sb := "";
    var i := 0;
    while i < length
      invariant 0 <= i && (if length < 0 then i == 0 else i <= length)
      invariant DrawsSucceed(draw, i)
      invariant |sb| == i && AllDigits(sb)
      invariant forall k :: 0 <= k < i ==> DigitValue(sb[k]) == draw(k).value
    {
      var n := draw(i);
      if n.Failure? {
        return "", Some(n.error);
      }
      FormatDigit(n.value);
      sb := sb + FormatInt(n.value);
      i := i + 1;
    }
    return sb, None;
  }

  /** Map: a fresh slice of the same length whose i-th element is fn of the i-th input. */
  method Map<T, R(0)>(arr: seq<T>, fn: T -> R) returns (result: seq<R>)
    ensures |result| == |arr|
    ensures forall i :: 0 <= i < |arr| ==> result[i] == fn(arr[i])
  {
    var a := new R[|arr|];
    for i := 0 to |arr|
      invariant forall k :: 0 <= k < i ==> a[k] == fn(arr[k])
    {
      a[i] := fn(arr[i]);
    }
    result := a[..];
  }
}
