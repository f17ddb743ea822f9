/**
 * The OTP lifecycle of the authentication backend: the in-memory store of
 * one record per identifier, the block gate, the request-otp and verify-otp
 * handlers, the mock token they mint and the `/auth/me` handler that reads
 * it back.
 *
 * The clock is the parameter `now` (milliseconds since the epoch, never
 * negative), and the code the server draws at random is the parameter
 * `code`, from the range 100000..999999 that the server's generator covers.
 */
module Server {
  import opened Wrappers
  import opened JsStrings

  const BLOCK_DURATION: int := 10 * 60 * 1000
  const OTP_EXPIRY: int := 5 * 60 * 1000
  const MAX_ATTEMPTS: int := 3

  /** What the store keeps for one identifier. */
  datatype OtpRecord = OtpRecord(
    otp: string,               // the live code, as its decimal string
    expiresAt: int,            // the code is refused once the clock passes this
    attempts: nat,             // wrong submissions against this code
    blockedUntil: Option<int>) // every call is refused while the clock is before this

  type Store = map<string, OtpRecord>

  /** The message kinds the handlers send back, with the values they carry. */
  datatype Message =
    | IdentifierRequired
    | OtpSent
    | FieldsRequired
    | AccountBlocked(seconds: int)
    | NoOtpRequest
    | OtpExpired
    | InvalidOtp(attemptsRemaining: int)
    | TooManyAttempts
    | Authenticated(token: string)
    | Unauthorized
    | InvalidToken
    | User(identifier: string)

  /** An HTTP status with the message it carries. */
  datatype Response = Response(status: int, message: Message)

  /** What a handler returns and the store it leaves behind. */
  datatype Outcome = Outcome(response: Response, store: Store)

  /** A body field that JavaScript reads as false: absent, null or the empty string. */
  function Missing(field: Option<string>): (b: bool)
    ensures !b <==> field.Some? && |field.value| >= 1
  {
    field.None? || field.value == ""
  }

  /** A code as the server issues it: six decimal digits, the first not zero. */
  predicate IsIssuedCode(s: string)
  {
    |s| == 6 && AllDigits(s) && s[0] != '0'
  }

  /** Two stores that agree on every identifier other than `id`. */
  ghost predicate AgreeExcept(before: Store, after: Store, id: string)
  {
    forall k :: k != id ==> (k in before <==> k in after) && (k in before ==> before[k] == after[k])
  }

  /**
   * The block gate: a record for `identifier` whose `blockedUntil` is set
   * (and, as JavaScript reads it, not zero) and still in the future.
   */
  function IsBlocked(store: Store, identifier: string, now: nat): (b: bool)
    ensures b <==> identifier in store && store[identifier].blockedUntil.Some?
                   && store[identifier].blockedUntil.value > now
  {
    identifier in store
    && store[identifier].blockedUntil.Some?
    && store[identifier].blockedUntil.value != 0
    && store[identifier].blockedUntil.value > now
  }

  /**
   * The seconds left in a block, `Math.ceil((blockedUntil - now) / 1000)`:
   * the least whole number of seconds that covers the remaining milliseconds.
   */
  function RemainingSeconds(blockedUntil: int, now: int): (r: int)
    requires blockedUntil > now
    ensures r >= 1
    ensures (r - 1) * 1000 < blockedUntil - now <= r * 1000
  {
    (blockedUntil - now + 999) / 1000
  }

  /** The record a successful request-otp stores. */
  function FreshRecord(code: int, now: nat): OtpRecord
    requires 100000 <= code <= 999999
  {
    OtpRecord(Decimal(code), now + OTP_EXPIRY, 0, None)
  }

  /** The code a successful request-otp issues is a six-digit string for `code`. */
  lemma IssuedCode(code: int)
    requires 100000 <= code <= 999999
    ensures IsIssuedCode(Decimal(code)) && DigitsValue(Decimal(code)) == code
  {
    assert Pow10(5) == 100000 && Pow10(6) == 1000000;
    DecimalLength(code, 5);
    DecimalValue(code);
  }

  /**
   * The request-otp handler on a store: refuse a missing identifier, refuse
   * while blocked, otherwise replace the identifier's record by a fresh one.
   */
  function RequestOtpStep(store: Store, identifier: Option<string>, code: int, now: nat): (o: Outcome)
    requires 100000 <= code <= 999999
    ensures o.response.status in {200, 400, 403}
    ensures o.response.status == 400 <==> Missing(identifier)
    ensures o.response.status == 400 ==> o.response.message == IdentifierRequired
    ensures o.response.status == 403 <==> !Missing(identifier) && IsBlocked(store, identifier.value, now)
    ensures o.response.status == 403 ==>
              o.response.message == AccountBlocked(RemainingSeconds(store[identifier.value].blockedUntil.value, now))
              && o.response.message.seconds >= 1
    ensures o.response.status != 200 ==> o.store == store
    ensures o.response.status == 200 ==>
              var id := identifier.value;
              && o.response.message == OtpSent
              && AgreeExcept(store, o.store, id)
              && id in o.store
              && o.store[id].otp == Decimal(code)
              && o.store[id].expiresAt == now + OTP_EXPIRY
              && o.store[id].attempts == 0
              && o.store[id].blockedUntil.None?
              && !IsBlocked(o.store, id, now)
  {
    if Missing(identifier) then
      Outcome(Response(400, IdentifierRequired), store)
    else
      var id := identifier.value;
      if IsBlocked(store, id, now) then
        Outcome(Response(403, AccountBlocked(RemainingSeconds(store[id].blockedUntil.value, now))), store)
      else
        Outcome(Response(200, OtpSent), store[id := FreshRecord(code, now)])
  }

  /**
   * The verify-otp handler on a store. Its gates come in this order: missing
   * fields, block, no pending code, expiry; then a wrong code is counted
   * (and the third one blocks) and a right one consumes the record.
   */
  function VerifyOtpStep(store: Store, identifier: Option<string>, otp: Option<string>, now: nat): (o: Outcome)
    ensures o.response.message == FieldsRequired <==> Missing(identifier) || Missing(otp)
    ensures o.response.message == FieldsRequired ==> o.response.status == 400
    ensures !Missing(identifier) && !Missing(otp) && IsBlocked(store, identifier.value, now) ==>
              && o.response.status == 403
              && o.response.message == AccountBlocked(RemainingSeconds(store[identifier.value].blockedUntil.value, now))
              && o.response.message.seconds >= 1
    // with the fields present and no block: no pending code, then expiry, then the comparison
    ensures !Missing(identifier) && !Missing(otp) && !IsBlocked(store, identifier.value, now) ==>
              var id := identifier.value;
              && ((id !in store || store[id].otp == "") ==> o == Outcome(Response(400, NoOtpRequest), store))
              && (id in store && store[id].otp != "" && now > store[id].expiresAt ==>
                    o == Outcome(Response(400, OtpExpired), store))
              && (id in store && store[id].otp != "" && now <= store[id].expiresAt && store[id].otp != otp.value ==>
                    && (o.response.message.InvalidOtp? || o.response.message == TooManyAttempts)
                    && (store[id].attempts + 1 >= MAX_ATTEMPTS <==> o.response.message == TooManyAttempts))
    ensures o.response.message == NoOtpRequest || o.response.message == OtpExpired ==> o.response.status == 400
    // the gates never touch the store
    ensures (|| o.response.message == FieldsRequired
             || o.response.message.AccountBlocked?
             || o.response.message == NoOtpRequest
             || o.response.message == OtpExpired) ==> o.store == store
    // a wrong code is counted once, on a pending, unexpired, unblocked record
    ensures o.response.message.InvalidOtp? || o.response.message == TooManyAttempts ==>
              var id := identifier.value;
              && !Missing(identifier) && !Missing(otp)
              && !IsBlocked(store, id, now)
              && id in store && id in o.store
              && now <= store[id].expiresAt
              && store[id].otp != otp.value
              && o.store[id].attempts == store[id].attempts + 1
              && o.store[id].otp == store[id].otp
              && o.store[id].expiresAt == store[id].expiresAt
              && AgreeExcept(store, o.store, id)
    ensures o.response.message.InvalidOtp? ==>
              var id := identifier.value;
              && o.response.status == 401
              && o.response.message.attemptsRemaining == MAX_ATTEMPTS - o.store[id].attempts
              && o.response.message.attemptsRemaining >= 1
              && o.store[id].blockedUntil == store[id].blockedUntil
    ensures o.response.message == TooManyAttempts ==>
              var id := identifier.value;
              && o.response.status == 403
              && o.store[id].attempts >= MAX_ATTEMPTS
              && o.store[id].blockedUntil == Some(now + BLOCK_DURATION)
              && IsBlocked(o.store, id, now)
    // success exactly for the pending code, in time, while not blocked
    ensures o.response.status == 200 <==>
              && !Missing(identifier) && !Missing(otp)
              && !IsBlocked(store, identifier.value, now)
              && identifier.value in store
              && store[identifier.value].otp == otp.value
              && now <= store[identifier.value].expiresAt
    ensures o.response.status == 200 ==>
              && o.response.message == Authenticated(MintToken(identifier.value, now))
              && identifier.value !in o.store
              && AgreeExcept(store, o.store, identifier.value)
  {
    if Missing(identifier) || Missing(otp) then
      Outcome(Response(400, FieldsRequired), store)
    else
      var id := identifier.value;
      if IsBlocked(store, id, now) then
        Outcome(Response(403, AccountBlocked(RemainingSeconds(store[id].blockedUntil.value, now))), store)
      else if id !in store || store[id].otp == "" then
        Outcome(Response(400, NoOtpRequest), store)
      else
        var data := store[id];
        if now > data.expiresAt then
          Outcome(Response(400, OtpExpired), store)
        else if data.otp != otp.value then
          var attempts := data.attempts + 1;
          if attempts >= MAX_ATTEMPTS then
            var blocked := data.(attempts := attempts, blockedUntil := Some(now + BLOCK_DURATION));
            Outcome(Response(403, TooManyAttempts), store[id := blocked])
          else
            Outcome(Response(401, InvalidOtp(MAX_ATTEMPTS - attempts)), store[id := data.(attempts := attempts)])
        else
          Outcome(Response(200, Authenticated(MintToken(id, now))), store - {id})
  }

  /** The server's mutable state: the OTP store, updated in place by the handlers. */
  class OtpServer {
    var store: Store

    constructor()
      ensures store == map[]
    {
      store := map[];
    }

    /** `POST /auth/request-otp` with the body's `identifier`, the drawn `code` and the clock. */
    method RequestOtp(identifier: Option<string>, code: int, now: nat) returns (response: Response)
      requires 100000 <= code <= 999999
      modifies this
      ensures Outcome(response, store) == RequestOtpStep(old(store), identifier, code, now)
    {
      if identifier.None? || identifier.value == "" {
        return Response(400, IdentifierRequired);
      }
      var id := identifier.value;
      if IsBlocked(store, id, now) {
        var remaining := RemainingSeconds(store[id].blockedUntil.value, now);
        return Response(403, AccountBlocked(remaining));
      }
      var otp := Decimal(code);
      store := store[id := OtpRecord(otp, now + OTP_EXPIRY, 0, None)];
      response := Response(200, OtpSent);
    }

    /** `POST /auth/verify-otp` with the body's `identifier` and `otp`, and the clock. */
    method VerifyOtp(identifier: Option<string>, otp: Option<string>, now: nat) returns (response: Response)
      modifies this
      ensures Outcome(response, store) == VerifyOtpStep(old(store), identifier, otp, now)
    {
      if identifier.None? || identifier.value == "" || otp.None? || otp.value == "" {
        return Response(400, FieldsRequired);
      }
      var id := identifier.value;
      if IsBlocked(store, id, now) {
        var remaining := RemainingSeconds(store[id].blockedUntil.value, now);
        return Response(403, AccountBlocked(remaining));
      }
      if id !in store || store[id].otp == "" {
        return Response(400, NoOtpRequest);
      }
      var data := store[id];
      if now > data.expiresAt {
        return Response(400, OtpExpired);
      }
      if data.otp != otp.value {
        data := data.(attempts := data.attempts + 1);
        if data.attempts >= MAX_ATTEMPTS {
          data := data.(blockedUntil := Some(now + BLOCK_DURATION));
          store := store[id := data];
          return Response(403, TooManyAttempts);
        }
        store := store[id := data];
        return Response(401, InvalidOtp(MAX_ATTEMPTS - data.attempts));
      }
      store := store - {id};
      var token := MintToken(id, now);
      response := Response(200, Authenticated(token));
    }
  }

  /**
   * The mock bearer token minted on a successful verification. That
   * `/auth/me` reads the identifier back from it is `TokenFormat.TokenRoundTrip`.
   */
  function MintToken(identifier: string, now: nat): (token: string)
    ensures StartsWith(token, "mock-token-")
    ensures |token| > 11 + |identifier|
  {
    "mock-token-" + identifier + "-" + Decimal(now)
  }

  /**
   * The second space-separated field of a header that starts with "Bearer ".
   * `TokenFormat.BearerTokenOf` says which part of the header it is.
   */
  function BearerToken(header: string): (token: string)
    requires StartsWith(header, "Bearer ")
    ensures ' ' !in token
  {
    assert header[6] == ' ';
    Split(header, ' ')[1]
  }

  /**
   * What lies between the 11-character token prefix and the token's last
   * hyphen; on a minted token it is the identifier (`TokenFormat.TokenRoundTrip`).
   */
  function TokenIdentifier(token: string): (identifier: string)
    ensures |identifier| <= |token|
  {
    Substring(token, 11, LastIndexOf(token, '-'))
  }

  /**
   * `GET /auth/me` with the `Authorization` header: the second space-separated
   * field must start with the token prefix, and the identifier is what lies
   * between that prefix and the token's last hyphen. Which headers it
   * accepts is `TokenFormat.AuthMeAccepts`; what it reads from a minted
   * token is `TokenFormat.TokenRoundTrip`.
   */
  function AuthMe(authorization: Option<string>): (resp: Response)
    ensures resp.status in {200, 401}
    ensures resp.status == 200 <==> resp.message.User?
  {
    if authorization.None? || authorization.value == "" || !StartsWith(authorization.value, "Bearer ") then
      Response(401, Unauthorized)
    else
      var token := BearerToken(authorization.value);
      if !StartsWith(token, "mock-token-") then
        Response(401, InvalidToken)
      else
        Response(200, User(TokenIdentifier(token)))
  }
}
