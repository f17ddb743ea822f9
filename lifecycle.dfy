/**
 * Properties of the OTP lifecycle across several calls: the scenarios the
 * backend's own test script walks through, and the invariant that every
 * reachable store keeps while the clock never runs backwards.
 */
module Lifecycle {
  import opened Wrappers
  import opened JsStrings
  import opened Server

  /**
   * What every record looks like at time `now` once the store has only been
   * changed by the handlers with a clock that never decreased: an issued
   * code, at most three failures, a block exactly when three were reached,
   * and a block that outlasts the code's own expiry.
   */
  ghost predicate RecordConsistent(r: OtpRecord, now: nat)
  {
    && IsIssuedCode(r.otp)
    && r.attempts <= MAX_ATTEMPTS
    && (r.blockedUntil.None? <==> r.attempts < MAX_ATTEMPTS)
    && r.expiresAt <= now + OTP_EXPIRY
    && (r.blockedUntil.Some? ==> r.expiresAt < r.blockedUntil.value <= now + BLOCK_DURATION)
  }

  ghost predicate Consistent(store: Store, now: nat)
  {
    forall id :: id in store ==> RecordConsistent(store[id], now)
  }

  /** Consistency survives the clock moving forward. */
  lemma ConsistentLater(store: Store, now: nat, later: nat)
    requires Consistent(store, now) && now <= later
    ensures Consistent(store, later)
  {
  }

  /** request-otp keeps the store consistent. */
  lemma RequestKeepsConsistent(store: Store, identifier: Option<string>, code: int, now: nat)
    requires 100000 <= code <= 999999
    requires Consistent(store, now)
    ensures Consistent(RequestOtpStep(store, identifier, code, now).store, now)
  {
    IssuedCode(code);
  }

  /**
   * verify-otp keeps the store consistent. The third failure can only come
   * on an unexpired code issued no later than now, so the block it sets ends
   * after the code expires, because BLOCK_DURATION exceeds OTP_EXPIRY.
   */
  lemma VerifyKeepsConsistent(store: Store, identifier: Option<string>, otp: Option<string>, now: nat)
    requires Consistent(store, now)
    ensures Consistent(VerifyOtpStep(store, identifier, otp, now).store, now)
  {
  }

  /** A call to one of the handlers, at the clock reading `at`. */
  datatype Event =
    | Request(identifier: Option<string>, code: int, at: nat)
    | Verify(identifier: Option<string>, otp: Option<string>, at: nat)

  /** Codes in the generator's range and a clock that never decreases from `from`. */
  ghost predicate WellTimed(events: seq<Event>, from: nat)
  {
    |events| == 0 ||
    (&& (events[0].Request? ==> 100000 <= events[0].code <= 999999)
     && from <= events[0].at
     && WellTimed(events[1..], events[0].at))
  }

  function LastTime(events: seq<Event>, from: nat): nat
  {
    if |events| == 0 then from else LastTime(events[1..], events[0].at)
  }

  /** The store after the handlers have run the events in order. */
  ghost function Replay(store: Store, events: seq<Event>, from: nat): Store
    requires WellTimed(events, from)
    decreases |events|
  {
    if |events| == 0 then store
    else
      var e := events[0];
      var next := match e
        case Request(identifier, code, at) => RequestOtpStep(store, identifier, code, at).store
        case Verify(identifier, otp, at) => VerifyOtpStep(store, identifier, otp, at).store;
      Replay(next, events[1..], e.at)
  }

  /** Every store the handlers can reach from a consistent one is consistent. */
  lemma {:induction false} ReplayConsistent(store: Store, events: seq<Event>, from: nat)
    requires WellTimed(events, from) && Consistent(store, from)
    ensures Consistent(Replay(store, events, from), LastTime(events, from))
    decreases |events|
  {
    if |events| > 0 {
      var e := events[0];
      ConsistentLater(store, from, e.at);
      match e
      case Request(identifier, code, at) =>
        RequestKeepsConsistent(store, identifier, code, at);
        ReplayConsistent(RequestOtpStep(store, identifier, code, at).store, events[1..], at);
      case Verify(identifier, otp, at) =>
        VerifyKeepsConsistent(store, identifier, otp, at);
        ReplayConsistent(VerifyOtpStep(store, identifier, otp, at).store, events[1..], at);
    }
  }

  /**
   * From the empty store, with a clock that never decreases, no record ever
   * counts more than MAX_ATTEMPTS failures, and every live code is a
   * six-digit string.
   */
  lemma AttemptsNeverExceedMax(events: seq<Event>, from: nat, id: string)
    requires WellTimed(events, from)
    requires id in Replay(map[], events, from)
    ensures Replay(map[], events, from)[id].attempts <= MAX_ATTEMPTS
    ensures IsIssuedCode(Replay(map[], events, from)[id].otp)
  {
    ReplayConsistent(map[], events, from);
  }

  /**
   * Once a block has lapsed, the blocked code has expired too: any
   * submission for it, right or wrong, is refused as expired and changes
   * nothing, so a new request is needed.
   */
  lemma LapsedBlockMeansExpired(store: Store, id: string, otp: string, now: nat)
    requires Consistent(store, now)
    requires id in store && store[id].blockedUntil.Some? && !IsBlocked(store, id, now)
    requires otp != "" && id != ""
    ensures VerifyOtpStep(store, Some(id), Some(otp), now) == Outcome(Response(400, OtpExpired), store)
  {
  }

  /** In a consistent store a block never reports more than ten minutes. */
  lemma BlockAtMostTenMinutes(store: Store, id: string, now: nat)
    requires Consistent(store, now) && IsBlocked(store, id, now)
    ensures 1 <= RemainingSeconds(store[id].blockedUntil.value, now) <= BLOCK_DURATION / 1000
  {
  }

  /** Repeated calls during a block report a remaining time that never grows. */
  lemma RemainingSecondsNonIncreasing(blockedUntil: int, earlier: int, later: int)
    requires earlier <= later < blockedUntil
    ensures RemainingSeconds(blockedUntil, later) <= RemainingSeconds(blockedUntil, earlier)
  {
  }

  /** verify-otp for an identifier that never requested a code finds no request. */
  lemma VerifyWithoutRequest(store: Store, id: string, otp: string, now: nat)
    requires id !in store && id != "" && otp != ""
    ensures VerifyOtpStep(store, Some(id), Some(otp), now) == Outcome(Response(400, NoOtpRequest), store)
  {
  }

  /**
   * The issued code, submitted in time, authenticates once: the record goes,
   * and the same submission a moment later finds no request.
   */
  lemma CodeIsSingleUse(store: Store, id: string, code: int, t0: nat, t1: nat, t2: nat)
    requires 100000 <= code <= 999999
    requires id != "" && !IsBlocked(store, id, t0)
    requires t0 <= t1 <= t0 + OTP_EXPIRY
    ensures
      var s1 := RequestOtpStep(store, Some(id), code, t0);
      var s2 := VerifyOtpStep(s1.store, Some(id), Some(Decimal(code)), t1);
      var s3 := VerifyOtpStep(s2.store, Some(id), Some(Decimal(code)), t2);
      && s1.response == Response(200, OtpSent)
      && s2.response == Response(200, Authenticated(MintToken(id, t1)))
      && id !in s2.store
      && s3 == Outcome(Response(400, NoOtpRequest), s2.store)
  {
  }

  /** The issued code submitted after it expired is refused and changes nothing. */
  lemma LateCodeExpires(store: Store, id: string, code: int, t0: nat, t1: nat)
    requires 100000 <= code <= 999999
    requires id != "" && !IsBlocked(store, id, t0)
    requires t1 > t0 + OTP_EXPIRY
    ensures
      var s1 := RequestOtpStep(store, Some(id), code, t0);
      VerifyOtpStep(s1.store, Some(id), Some(Decimal(code)), t1) == Outcome(Response(400, OtpExpired), s1.store)
  {
  }

  /**
   * The lockout sequence: after a fresh request, three wrong codes within
   * the expiry window get 401 with 2 attempts left, 401 with 1, then 403;
   * a request during the block gets 403 with the seconds left; a request
   * after the block succeeds and starts over with no failures and no block.
   */
  lemma LockoutSequence(
    store: Store, id: string, code: int, wrong: string, code2: int,
    t0: nat, t1: nat, t2: nat, t3: nat, t4: nat, t5: nat)
    requires 100000 <= code <= 999999 && 100000 <= code2 <= 999999
    requires id != "" && !IsBlocked(store, id, t0)
    requires wrong != "" && wrong != Decimal(code)
    requires t0 <= t1 <= t2 <= t3 <= t0 + OTP_EXPIRY
    requires t3 <= t4 < t3 + BLOCK_DURATION <= t5
    ensures
      var s0 := RequestOtpStep(store, Some(id), code, t0);
      var s1 := VerifyOtpStep(s0.store, Some(id), Some(wrong), t1);
      var s2 := VerifyOtpStep(s1.store, Some(id), Some(wrong), t2);
      var s3 := VerifyOtpStep(s2.store, Some(id), Some(wrong), t3);
      var s4 := RequestOtpStep(s3.store, Some(id), code2, t4);
      var s5 := RequestOtpStep(s4.store, Some(id), code2, t5);
      && s0.response == Response(200, OtpSent)
      && s1.response == Response(401, InvalidOtp(2))
      && s2.response == Response(401, InvalidOtp(1))
      && s3.response == Response(403, TooManyAttempts)
      && s4.response == Response(403, AccountBlocked(RemainingSeconds(t3 + BLOCK_DURATION, t4)))
      && s4.store == s3.store
      && s5.response == Response(200, OtpSent)
      && s5.store[id] == OtpRecord(Decimal(code2), t5 + OTP_EXPIRY, 0, None)
  {
  }

  /**
   * The backend test script's run against a server that starts empty, all
   * at one instant: request, three wrong codes, and a request while blocked.
   */
  method LockoutScenario(id: string, code: int, wrong: string, now: nat) returns (responses: seq<Response>)
    requires 100000 <= code <= 999999
    requires id != "" && wrong != "" && wrong != Decimal(code)
    ensures responses == [
      Response(200, OtpSent),
      Response(401, InvalidOtp(2)),
      Response(401, InvalidOtp(1)),
      Response(403, TooManyAttempts),
      Response(403, AccountBlocked(600))]
  {
    var server := new OtpServer();
    var r0 := server.RequestOtp(Some(id), code, now);
    var r1 := server.VerifyOtp(Some(id), Some(wrong), now);
    var r2 := server.VerifyOtp(Some(id), Some(wrong), now);
    var r3 := server.VerifyOtp(Some(id), Some(wrong), now);
    var r4 := server.RequestOtp(Some(id), code, now);
    responses := [r0, r1, r2, r3, r4];
  }
}
