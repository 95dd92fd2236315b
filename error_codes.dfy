/**
 * The application-wide error-code table. Codes are namespaced by thousands:
 * 1000s generic, 2000s crypto / security, 3000s database, 4000s business logic.
 */
module ErrorCodes {
  import opened Wrappers

  // Generic
  const ErrCodeInternalServer: int := 1000
  const ErrCodeInvalidRequest: int := 1001
  const ErrCodeUnauthorized: int := 1002
  const ErrCodeForbidden: int := 1003

  // Crypto / Security
  const ErrCodeFailedToEncrypt: int := 2000
  const ErrCodeFailedToDecrypt: int := 2001
  const ErrCodeHashingFailed: int := 2002
  const ErrCodeTokenGeneration: int := 2003
  const ErrCodeTokenValidation: int := 2004

  // Database
  const ErrCodeCreateUserFailed: int := 3000
  const ErrCodeUpdateUserFailed: int := 3001
  const ErrCodeDeleteUserFailed: int := 3002
  const ErrCodeFetchUserFailed: int := 3003

  // Business Logic
  const ErrCodeInvalidCredentials: int := 4000
  const ErrCodeUserAlreadyExists: int := 4001
  const ErrCodeUserNotFound: int := 4002

  const GenericCodes: seq<int> :=
    [ErrCodeInternalServer, ErrCodeInvalidRequest, ErrCodeUnauthorized, ErrCodeForbidden]
  const CryptoCodes: seq<int> :=
    [ErrCodeFailedToEncrypt, ErrCodeFailedToDecrypt, ErrCodeHashingFailed,
     ErrCodeTokenGeneration, ErrCodeTokenValidation]
  const DatabaseCodes: seq<int> :=
    [ErrCodeCreateUserFailed, ErrCodeUpdateUserFailed, ErrCodeDeleteUserFailed, ErrCodeFetchUserFailed]
  const BusinessCodes: seq<int> :=
    [ErrCodeInvalidCredentials, ErrCodeUserAlreadyExists, ErrCodeUserNotFound]

  /** Every declared code, in declaration order. */
  const AllCodes: seq<int> := GenericCodes + CryptoCodes + DatabaseCodes + BusinessCodes

  datatype Category = Generic | Crypto | Database | Business

  /** The namespace a code belongs to, read off its thousands digit. */
  function CategoryOf(code: int): (c: Option<Category>)
    ensures c == Some(Generic) <==> 1000 <= code < 2000
    ensures c == Some(Crypto) <==> 2000 <= code < 3000
    ensures c == Some(Database) <==> 3000 <= code < 4000
    ensures c == Some(Business) <==> 4000 <= code < 5000
  {
    if 1000 <= code < 2000 then Some(Generic)
    else if 2000 <= code < 3000 then Some(Crypto)
    else if 3000 <= code < 4000 then Some(Database)
    else if 4000 <= code < 5000 then Some(Business)
    else None
  }

  lemma AllCodesDistinct()
    ensures |AllCodes| == 16
    ensures forall i, j :: 0 <= i < j < |AllCodes| ==> AllCodes[i] != AllCodes[j]
  {
  }

  lemma AllCodesNonzero()
    ensures forall i :: 0 <= i < |AllCodes| ==> AllCodes[i] != 0
  {
  }

  lemma CodeRanges()
    ensures forall c :: c in GenericCodes ==> 1000 <= c <= 1003 && CategoryOf(c) == Some(Generic)
    ensures forall c :: c in CryptoCodes ==> 2000 <= c <= 2004 && CategoryOf(c) == Some(Crypto)
    ensures forall c :: c in DatabaseCodes ==> 3000 <= c <= 3003 && CategoryOf(c) == Some(Database)
    ensures forall c :: c in BusinessCodes ==> 4000 <= c <= 4002 && CategoryOf(c) == Some(Business)
  {
  }
}
