/** The in-memory one-time-password store: a map from identifier to the issued code and its
    creation time. Codes expire lazily, five minutes after creation, when a verification
    attempt finds them stale; a correct code is consumed by its first successful check.
    The random draw and the clock are parameters. */
module OtpService {
  import opened Wrappers
  import opened Text
  import Notifications

  type Identifier = string
  type Millis = int

  datatype Entry = Entry(otp: string, createdAt: Millis)

  type Store = map<Identifier, Entry>

  const ValidityPeriod: int := 5 * 60 * 1000
  const CodeBase: nat := 100000
  /** The number of codes: the random draw is `floor(Math.random() * CodeSpan)`. */
  const CodeSpan: nat := 900000

  /** A code of the shape `generateOTP` produces: six decimal digits, no leading zero. */
  predicate IsCode(otp: string) {
    |otp| == 6 && AllDigits(otp) && otp[0] != '0'
  }

  /** `generateOTP()` for the draw `draw`: the decimal numeral of 100000 + draw. */
  function GenerateOTP(draw: nat): (otp: string)
    requires draw < CodeSpan
    ensures IsCode(otp)
    ensures DecimalValue(otp) == CodeBase + draw
    ensures 100000 <= DecimalValue(otp) <= 999999
  {
    var n := CodeBase + draw;
    assert Pow10(5) == 100000 && Pow10(6) == 1000000;
    DecimalLength(n, 6);
    DecimalNoLeadingZero(n);
    DecimalRoundTrip(n);
    NatToDecimal(n)
  }

  /** `storeOTP(id, otp)` at time `now`: the entry for `id` is replaced, nothing else moves. */
  function StoreOTP(s: Store, id: Identifier, otp: string, now: Millis): (r: Store)
    ensures r.Keys == s.Keys + {id}
    ensures r[id] == Entry(otp, now)
    ensures forall k | k in s && k != id :: r[k] == s[k]
  {
    s[id := Entry(otp, now)]
  }

  /** Strictly more than the validity period has elapsed since creation. */
  predicate Expired(e: Entry, now: Millis) {
    now - e.createdAt > ValidityPeriod
  }

  datatype Verified = Verified(ok: bool, store: Store)

  /** `verifyOTP(id, userOtp)` at time `now`. */
  function VerifyOTP(s: Store, id: Identifier, userOtp: string, now: Millis): (v: Verified)
    ensures id !in s ==> v == Verified(false, s)
    ensures v.ok <==> id in s && !Expired(s[id], now) && s[id].otp == userOtp
    // an expired entry is purged even when the code is right
    ensures id in s && Expired(s[id], now) ==> !v.ok && id !in v.store
    // a wrong code inside the window keeps the entry for another attempt
    ensures id in v.store <==> id in s && !Expired(s[id], now) && s[id].otp != userOtp
    // only `id` may disappear; no entry is ever altered
    ensures v.store.Keys == s.Keys || v.store.Keys == s.Keys - {id}
    ensures forall k | k in v.store :: k in s && v.store[k] == s[k]
  {
    if id !in s then Verified(false, s)
    else
      var e := s[id];
      if Expired(e, now) then Verified(false, s - {id})
      else if e.otp == userOtp then Verified(true, s - {id})
      else Verified(false, s)
  }

  /** What the thrown value of a failed notification callback was. */
  datatype Thrown = ErrorObject(message: string) | NonError

  /** How the `addNotification` callback handed to `createOTPService` behaved. */
  datatype Callback = Returns | Throws(thrown: Thrown)

  datatype Sent = Sent(success: bool, error: Option<string>, store: Store, notice: Notifications.Input)

  const OtpNoticeMessage: string := "Your OTP for verification is:"
  const OtpNoticeDuration: int := 30000
  const SendFailedMessage: string := "Failed to send OTP"

  /** The notification `sendOTP` raises for a freshly issued code. */
  function OtpNotice(otp: string): Notifications.Input {
    Notifications.Input(OtpNoticeMessage, Notifications.Otp, Some(OtpNoticeDuration), Some(otp))
  }

  /** `sendOTP(id)` of the service built by `createOTPService`: draw a code, store it, then
      notify. The store is written before the callback runs, so a throwing callback still
      leaves the code stored; only the reported outcome differs. */
  function SendOTP(s: Store, id: Identifier, draw: nat, now: Millis, cb: Callback): (r: Sent)
    requires draw < CodeSpan
    ensures r.store.Keys == s.Keys + {id}
    ensures r.store[id] == Entry(GenerateOTP(draw), now)
    // the toast carries exactly the code that was stored, whatever the callback did
    ensures r.notice.kind == Notifications.Otp && r.notice.message == OtpNoticeMessage
    ensures r.notice.otp == Some(r.store[id].otp) && IsCode(r.store[id].otp)
    ensures r.notice.duration == Some(OtpNoticeDuration)
    ensures forall k | k in s && k != id :: r.store[k] == s[k]
    ensures r.success <==> cb.Returns?
    ensures r.success ==> r.error == None
    ensures cb == Throws(NonError) ==> r.error == Some(SendFailedMessage)
    ensures forall m :: cb == Throws(ErrorObject(m)) ==> r.error == Some(m)
  {
    var otp := GenerateOTP(draw);
    var stored := StoreOTP(s, id, otp, now);
    match cb
    case Returns => Sent(true, None, stored, OtpNotice(otp))
    case Throws(ErrorObject(m)) => Sent(false, Some(m), stored, OtpNotice(otp))
    case Throws(NonError) => Sent(false, Some(SendFailedMessage), stored, OtpNotice(otp))
  }

  /* ---------- properties over sequences of calls ---------- */

  /** Every stored code has the shape `generateOTP` produces. */
  predicate WellFormed(s: Store) {
    forall k | k in s :: IsCode(s[k].otp)
  }

  /** Sending and verifying keep every stored code well formed. */
  lemma WellFormedPreserved(s: Store, id: Identifier, draw: nat, now: Millis, cb: Callback,
                            other: Identifier, code: string, later: Millis)
    requires WellFormed(s) && draw < CodeSpan
    ensures WellFormed(SendOTP(s, id, draw, now, cb).store)
    ensures WellFormed(VerifyOTP(s, other, code, later).store)
  {
  }

  /** The issued code verifies throughout the window, including at exactly five minutes,
      and is consumed by that check; the callback's behaviour does not matter. */
  lemma SendThenVerify(s: Store, id: Identifier, draw: nat, now: Millis, cb: Callback, later: Millis)
    requires draw < CodeSpan && now <= later <= now + ValidityPeriod
    ensures var sent := SendOTP(s, id, draw, now, cb);
            var v := VerifyOTP(sent.store, id, GenerateOTP(draw), later);
            v.ok && v.store == sent.store - {id}
  {
  }

  /** One millisecond past the window even the issued code fails, and the entry is gone. */
  lemma SendThenVerifyTooLate(s: Store, id: Identifier, draw: nat, now: Millis, cb: Callback)
    requires draw < CodeSpan
    ensures var sent := SendOTP(s, id, draw, now, cb);
            var v := VerifyOTP(sent.store, id, GenerateOTP(draw), now + ValidityPeriod + 1);
            !v.ok && id !in v.store
  {
  }

  /** Single use: once a check succeeds, every later check for that identifier fails. */
  lemma SingleUse(s: Store, id: Identifier, code: string, now: Millis, code2: string, later: Millis)
    requires VerifyOTP(s, id, code, now).ok
    ensures !VerifyOTP(VerifyOTP(s, id, code, now).store, id, code2, later).ok
  {
  }

  /** A wrong code inside the window leaves the store as it was, so the right code still
      succeeds later in the window. */
  lemma WrongCodeThenRetry(s: Store, id: Identifier, wrong: string, now: Millis, later: Millis)
    requires id in s && wrong != s[id].otp
    requires now <= later && !Expired(s[id], later)
    ensures VerifyOTP(s, id, wrong, now).store == s
    ensures VerifyOTP(VerifyOTP(s, id, wrong, now).store, id, s[id].otp, later).ok
  {
  }

  /** An expired entry is purged by the first attempt; no later attempt succeeds. */
  lemma ExpiredStaysGone(s: Store, id: Identifier, code: string, now: Millis, code2: string, later: Millis)
    requires id in s && Expired(s[id], now)
    ensures !VerifyOTP(s, id, code, now).ok
    ensures !VerifyOTP(VerifyOTP(s, id, code, now).store, id, code2, later).ok
  {
  }

  /** A second send before verification supersedes the first: inside the second code's window
      a submitted code succeeds exactly when it is the second code. */
  lemma SecondSendWins(s: Store, id: Identifier, draw1: nat, t1: Millis, cb1: Callback,
                       draw2: nat, t2: Millis, cb2: Callback, code: string, later: Millis)
    requires draw1 < CodeSpan && draw2 < CodeSpan
    requires t2 <= later <= t2 + ValidityPeriod
    ensures var first := SendOTP(s, id, draw1, t1, cb1);
            var second := SendOTP(first.store, id, draw2, t2, cb2);
            VerifyOTP(second.store, id, code, later).ok <==> code == GenerateOTP(draw2)
  {
  }

  /** Distinct draws give distinct codes, so after two sends with different draws the first
      code is rejected. */
  lemma {:induction false} DistinctDrawsDistinctCodes(draw1: nat, draw2: nat)
    requires draw1 < CodeSpan && draw2 < CodeSpan && draw1 != draw2
    ensures GenerateOTP(draw1) != GenerateOTP(draw2)
  {
    var a := GenerateOTP(draw1);
    var b := GenerateOTP(draw2);
    assert DecimalValue(a) != DecimalValue(b);
  }

  /** Operations on one identifier never touch another identifier's entry. */
  lemma OtherIdentifiersUntouched(s: Store, id: Identifier, other: Identifier, draw: nat,
                                  now: Millis, cb: Callback, code: string)
    requires other != id && draw < CodeSpan
    ensures other in SendOTP(s, id, draw, now, cb).store <==> other in s
    ensures other in VerifyOTP(s, id, code, now).store <==> other in s
    ensures other in s ==> SendOTP(s, id, draw, now, cb).store[other] == s[other]
    ensures other in s ==> VerifyOTP(s, id, code, now).store[other] == s[other]
  {
  }

  /** The toast raised for the code stays on screen for 30 seconds. */
  lemma OtpNoticeDelay(otp: string)
    ensures Notifications.DismissDelay(OtpNotice(otp)) == Notifications.OtpDelay
  {
  }
}
