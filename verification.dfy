/**
 * The verification-code records of models/VerificationCode.js: a six-digit code for an
 * email and a purpose, valid until it is used, runs out of attempts or expires. `now` is the
 * clock (`new Date()`) in milliseconds; the store of records is a sequence of objects.
 */
module VerificationCodes {
  import opened Wrappers
  import opened JsNumber
  import opened JsArray

  /** The schema's `type` enumeration ('register', 'reset-password', 'change-email'). */
  datatype CodeType = Register | ResetPassword | ChangeEmail

  const MAX_ATTEMPTS := 5
  const LIFETIME_MS := 5 * 60 * 1000

  /** Why `verify` refused: the record is no longer usable, or the code is wrong. */
  datatype Outcome = Accepted | Unusable | WrongCode

  class VerificationCode {
    const email: string
    const code: string
    const codeType: CodeType
    const expiresAt: int
    const maxAttempts: int
    const createdAt: int
    var used: bool
    var attempts: int

    /** Attempts are counted up to the limit and never beyond it. */
    predicate Valid()
      reads this
    {
      0 <= attempts <= maxAttempts
    }

    /** A new record with the schema defaults: unused, no attempts, at most 5, created now. */
    constructor (email: string, code: string, codeType: CodeType, expiresAt: int, now: int)
      ensures this.email == email && this.code == code && this.codeType == codeType
      ensures this.expiresAt == expiresAt && createdAt == now
      ensures !used && attempts == 0 && maxAttempts == MAX_ATTEMPTS
      ensures Valid()
    {
      this.email := email;
      this.code := code;
      this.codeType := codeType;
      this.expiresAt := expiresAt;
      this.maxAttempts := MAX_ATTEMPTS;
      this.createdAt := now;
      this.used := false;
      this.attempts := 0;
    }

    /** `isValid()`: unused, attempts left, and not yet expired. */
    predicate IsValid(now: int)
      reads this
    {
      !used && attempts < maxAttempts && now < expiresAt
    }

    /** `verify(inputCode)`. A record that is not valid refuses and changes nothing; a wrong
        code costs one attempt; the right code consumes the record. */
    method Verify(inputCode: string, now: int) returns (outcome: Outcome)
      requires Valid()
      modifies this
      ensures Valid()
      ensures !old(IsValid(now)) ==> outcome == Unusable && used == old(used) && attempts == old(attempts)
      ensures old(IsValid(now)) && inputCode != code ==>
        outcome == WrongCode && attempts == old(attempts) + 1 && !used
      ensures old(IsValid(now)) && inputCode == code ==>
        outcome == Accepted && used && attempts == old(attempts)
      ensures outcome == Accepted <==> old(IsValid(now)) && inputCode == code
      ensures old(attempts) >= maxAttempts ==> outcome != Accepted
      ensures outcome == Accepted ==> forall t :: !IsValid(t)
    {
      if !IsValid(now) {
        return Unusable;
      }
      if code != inputCode {
        attempts := attempts + 1;
        return WrongCode;
      }
      used := true;
      return Accepted;
    }
  }

  /** The six-digit code `Math.floor(100000 + Math.random() * 900000).toString()`, for the
      integer `n` the expression produces. */
  function CodeOf(n: nat): (code: string)
    requires 100000 <= n <= 999999
    ensures |code| == 6 && AllDigits(code) && code[0] != '0'
  {
    assert Pow10(5) == 100000 by {
      assert Pow10(2) == 100;
    }
    DigitsLength(n, 6);
    NatToString(n)
  }

  /** Old records for the same email and type are dropped by `createCode`. */
  function Unrelated(email: string, codeType: CodeType): VerificationCode -> bool {
    (c: VerificationCode) => !(c.email == email && c.codeType == codeType)
  }

  /** `createCode(email, type)`: deletes the earlier records for that email and type and
      stores a fresh one that expires five minutes from now. */
  method CreateCode(store: seq<VerificationCode>, email: string, codeType: CodeType, n: nat, now: int)
    returns (c: VerificationCode, store': seq<VerificationCode>)
    requires 100000 <= n <= 999999
    ensures fresh(c)
    ensures c.email == email && c.codeType == codeType && c.code == CodeOf(n)
    ensures c.expiresAt == now + LIFETIME_MS && c.createdAt == now
    ensures !c.used && c.attempts == 0 && c.maxAttempts == MAX_ATTEMPTS && c.Valid()
    ensures store' == Filter(store, Unrelated(email, codeType)) + [c]
  {
    c := new VerificationCode(email, CodeOf(n), codeType, now + LIFETIME_MS, now);
    store' := Filter(store, Unrelated(email, codeType)) + [c];
  }

  /** The query of `findValidCode`: same email and type, unused, unexpired and fewer than 5
      attempts, whatever the record's own `maxAttempts`. */
  predicate FindsValid(c: VerificationCode, email: string, codeType: CodeType, now: int)
    reads c
  {
    c.email == email && c.codeType == codeType && !c.used && c.expiresAt > now && c.attempts < MAX_ATTEMPTS
  }

  /** For a record with the default limit, the query agrees with `isValid`. */
  lemma FindsValidIsValid(c: VerificationCode, now: int)
    requires c.maxAttempts == MAX_ATTEMPTS
    ensures FindsValid(c, c.email, c.codeType, now) <==> c.IsValid(now)
  {
  }

  /** `findValidCode(email, type)`: some record the query matches, or none when no record
      does. */
  method FindValidCode(store: seq<VerificationCode>, email: string, codeType: CodeType, now: int)
    returns (r: Option<VerificationCode>)
    ensures r.Some? ==> r.value in store && FindsValid(r.value, email, codeType, now)
    ensures r.None? ==> forall i :: 0 <= i < |store| ==> !FindsValid(store[i], email, codeType, now)
  {
    var i := 0;
    while i < |store|
      invariant 0 <= i <= |store|
      invariant forall j :: 0 <= j < i ==> !FindsValid(store[j], email, codeType, now)
    {
      if FindsValid(store[i], email, codeType, now) {
        return Some(store[i]);
      }
      i := i + 1;
    }
    return None;
  }
}
