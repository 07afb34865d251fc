/** The wake check of the mobile client (mobile/wake.go): when a device wipes its keys. */
module Wake {
  import opened Options

  const SECOND: int := 1_000_000_000
  const CONFIRM: int := 30

  datatype Body = Body(success: bool, errorCode: string, ident: string, username: string, keyEpoch: Option<int>)

  /** No answer, an answer that is no response, or a response whose body may not parse. */
  datatype Reply = Unreachable | Garbled | Response(status: int, body: Option<Body>)

  datatype Request = Request(keyEpoch: int, keyIdentifier: string, strikeAt: int)

  datatype Outcome = Continue | Pause | Wipe
  datatype Reason =
    Malformed | NoAnswer | RateLimited | ServerError | Unauthorized | EnrolmentOpen | RevocationUnconfirmed | Revoked |
    Refused | EpochUnknown | KeyRotated | EpochBehind | Current

  datatype Verdict = Verdict(outcome: Outcome, reason: Reason, keyEpoch: int, retryAfter: int, strikeAt: int)

  /** An authenticated-looking revocation of this very key. */
  predicate Revokes(fold: string -> string, ident: string, reply: Reply) {
    && reply.Response? && (reply.status == 401 || reply.status == 403)
    && reply.body.Some? && reply.body.value.errorCode == "deviceTokenRevoked"
    && ident != "" && fold(reply.body.value.ident) == fold(ident)
  }

  /** decideWake; now is in nanoseconds, strikes are whole seconds. */
  function Decide(fold: string -> string, req: Request, reply: Reply, enrolOpen: bool, now: int): Verdict {
    var e := req.keyEpoch;
    match reply
    case Unreachable => Verdict(Pause, NoAnswer, e, 0, 0)
    case Garbled => Verdict(Pause, Malformed, e, 0, 0)
    case Response(status, body) =>
      if status == 429 then Verdict(Pause, RateLimited, e, 0, 0)
      else if status >= 500 then Verdict(Pause, ServerError, e, 0, 0)
      else if status == 401 || status == 403 then
        if body.None? || body.value.errorCode != "deviceTokenRevoked" || req.keyIdentifier == ""
           || fold(body.value.ident) != fold(req.keyIdentifier) then Verdict(Pause, Unauthorized, e, 0, 0)
        else if enrolOpen then Verdict(Pause, EnrolmentOpen, e, CONFIRM, req.strikeAt)
        else
          var elapsed := now - req.strikeAt * SECOND;
          if req.strikeAt > 0 && elapsed >= CONFIRM * SECOND then Verdict(Wipe, Revoked, e, 0, 0)
          else if req.strikeAt > 0 && elapsed >= 0 then
            Verdict(Pause, RevocationUnconfirmed, e, (CONFIRM * SECOND - elapsed) / SECOND + 1, req.strikeAt)
          else Verdict(Pause, RevocationUnconfirmed, e, CONFIRM, now / SECOND)
      else if status >= 400 then Verdict(Pause, Refused, e, 0, 0)
      else if body.None? || !body.value.success || body.value.username == "" then Verdict(Pause, Malformed, e, 0, 0)
      else match body.value.keyEpoch
           case None => Verdict(Continue, EpochUnknown, e, 0, 0)
           case Some(server) =>
             if server > e then
               if enrolOpen then Verdict(Pause, EnrolmentOpen, e, CONFIRM, 0)
               else Verdict(Wipe, KeyRotated, server, 0, 0)
             else if server < e then Verdict(Pause, EpochBehind, e, 0, 0)
             else Verdict(Continue, Current, e, 0, 0)
  }

  /** A response that proves the server holds a larger key epoch. */
  predicate Rotated(reply: Reply, epoch: int) {
    && reply.Response? && reply.status < 400
    && reply.body.Some? && reply.body.value.success && reply.body.value.username != ""
    && reply.body.value.keyEpoch.Some? && reply.body.value.keyEpoch.value > epoch
  }

  /** The only two causes of a wipe, exactly. */
  lemma {:induction false} WipeCauses(fold: string -> string, req: Request, reply: Reply, enrolOpen: bool, now: int)
    ensures var v := Decide(fold, req, reply, enrolOpen, now);
            && (v.outcome == Wipe <==> v.reason == Revoked || v.reason == KeyRotated)
            && (v.reason == Revoked <==>
                  !enrolOpen && Revokes(fold, req.keyIdentifier, reply)
                  && req.strikeAt > 0 && now - req.strikeAt * SECOND >= CONFIRM * SECOND)
            && (v.reason == KeyRotated <==> !enrolOpen && Rotated(reply, req.keyEpoch))
            && (v.reason == KeyRotated ==> v.keyEpoch > req.keyEpoch)
            && (v.reason != KeyRotated ==> v.keyEpoch == req.keyEpoch)
  {
  }

  /** A device goes on exactly when the server answers with its own epoch or none; otherwise it pauses or wipes. */
  lemma {:induction false} ContinueExactly(fold: string -> string, req: Request, reply: Reply, enrolOpen: bool,
                                           now: int)
    ensures var v := Decide(fold, req, reply, enrolOpen, now);
            && (v.outcome == Continue <==>
                  && reply.Response? && reply.status < 400
                  && reply.body.Some? && reply.body.value.success && reply.body.value.username != ""
                  && (reply.body.value.keyEpoch == None || reply.body.value.keyEpoch == Some(req.keyEpoch)))
            && (v.strikeAt != 0 ==> v.reason == RevocationUnconfirmed || v.reason == EnrolmentOpen)
            && (v.reason == RevocationUnconfirmed ==> 1 <= v.retryAfter <= CONFIRM + 1)
            && (v.reason == EnrolmentOpen <==>
                  enrolOpen && (Revokes(fold, req.keyIdentifier, reply) || Rotated(reply, req.keyEpoch)))
  {
  }

  /** Every other reason, exactly: each has its own cause, and none changes epoch or strike. */
  lemma {:induction false} ReasonsExactly(fold: string -> string, req: Request, reply: Reply, enrolOpen: bool, now: int)
    ensures var v := Decide(fold, req, reply, enrolOpen, now);
            var answered := reply.Response? && reply.status < 400 && reply.body.Some? && reply.body.value.success
                            && reply.body.value.username != "";
            && (v.reason == NoAnswer <==> reply.Unreachable?)
            && (v.reason == RateLimited <==> reply.Response? && reply.status == 429)
            && (v.reason == ServerError <==> reply.Response? && reply.status >= 500)
            && (v.reason == Unauthorized <==>
                  reply.Response? && (reply.status == 401 || reply.status == 403)
                  && !Revokes(fold, req.keyIdentifier, reply))
            && (v.reason == Refused <==>
                  reply.Response? && 400 <= reply.status < 500 && reply.status != 401 && reply.status != 403
                  && reply.status != 429)
            && (v.reason == Malformed <==> reply.Garbled? || (reply.Response? && reply.status < 400 && !answered))
            && (v.reason == EpochBehind <==>
                  answered && reply.body.value.keyEpoch.Some? && reply.body.value.keyEpoch.value < req.keyEpoch)
            && (v.reason == RevocationUnconfirmed <==>
                  !enrolOpen && Revokes(fold, req.keyIdentifier, reply) && v.reason != Revoked)
            && (v.reason in {NoAnswer, RateLimited, ServerError, Unauthorized, Refused, Malformed, EpochBehind} ==>
                  v == Verdict(Pause, v.reason, req.keyEpoch, 0, 0))
            && (v.reason == KeyRotated ==> reply.body.value.keyEpoch == Some(v.keyEpoch))
  {
  }

  /** What an unconfirmed revocation and an open enrolment carry on, and the least delay after which to ask again. */
  lemma {:induction false} PausesCarry(fold: string -> string, req: Request, reply: Reply, enrolOpen: bool, now: int)
    ensures var v := Decide(fold, req, reply, enrolOpen, now);
            && (v.reason == EnrolmentOpen ==>
                  && v.outcome == Pause && v.retryAfter == CONFIRM && v.keyEpoch == req.keyEpoch
                  && v.strikeAt == if Revokes(fold, req.keyIdentifier, reply) then req.strikeAt else 0)
            && (v.reason == RevocationUnconfirmed ==>
                  && v.outcome == Pause && v.keyEpoch == req.keyEpoch
                  && if 0 < req.strikeAt && req.strikeAt * SECOND <= now then
                       && v.strikeAt == req.strikeAt
                       && now + (v.retryAfter - 1) * SECOND <= (req.strikeAt + CONFIRM) * SECOND
                       && (req.strikeAt + CONFIRM) * SECOND < now + v.retryAfter * SECOND
                     else v.strikeAt == now / SECOND && v.retryAfter == CONFIRM)
  {
  }

  // ---------------------------------------------------------------- a device that keeps asking

  datatype Call = Call(reply: Reply, enrolOpen: bool, now: int)

  /** The verdict of call k: each request carries the epoch and the strike the verdict before returned. */
  function VerdictAt(fold: string -> string, epoch: int, ident: string, calls: seq<Call>, k: nat): Verdict
    requires k < |calls|
    decreases k, 1
  {
    Decide(fold, RequestAt(fold, epoch, ident, calls, k), calls[k].reply, calls[k].enrolOpen, calls[k].now)
  }

  function RequestAt(fold: string -> string, epoch: int, ident: string, calls: seq<Call>, k: nat): Request
    requires k <= |calls|
    decreases k, 0
  {
    if k == 0 then Request(epoch, ident, 0)
    else
      var v := VerdictAt(fold, epoch, ident, calls, k - 1);
      Request(v.keyEpoch, ident, v.strikeAt)
  }

  /** The strike a request carries was written down by a matching revocation, and only matching ones came since. */
  ghost predicate StruckAt(fold: string -> string, ident: string, calls: seq<Call>, i: nat, k: nat, strike: int) {
    && i < k <= |calls|
    && (forall j :: i <= j < k ==> Revokes(fold, ident, calls[j].reply))
    && !calls[i].enrolOpen && strike == calls[i].now / SECOND
  }

  lemma {:induction false} StrikeOrigin(fold: string -> string, epoch: int, ident: string, calls: seq<Call>, k: nat)
    requires k <= |calls|
    ensures var strike := RequestAt(fold, epoch, ident, calls, k).strikeAt;
            RequestAt(fold, epoch, ident, calls, k).keyIdentifier == ident
            && (strike == 0 || exists i: nat :: StruckAt(fold, ident, calls, i, k, strike))
    decreases k
  {
    if k > 0 {
      StrikeOrigin(fold, epoch, ident, calls, k - 1);
      var req := RequestAt(fold, epoch, ident, calls, k - 1);
      var c := calls[k - 1];
      var v := VerdictAt(fold, epoch, ident, calls, k - 1);
      StrikeKept(fold, req, c);
      if v.strikeAt != 0 {
        if v.strikeAt == req.strikeAt {
          var i: nat :| StruckAt(fold, ident, calls, i, k - 1, req.strikeAt);
          assert StruckAt(fold, ident, calls, i, k, v.strikeAt);
        } else {
          assert StruckAt(fold, ident, calls, k - 1, k, v.strikeAt);
        }
      }
    }
  }

  lemma {:induction false} StrikeKept(fold: string -> string, req: Request, c: Call)
    ensures var v := Decide(fold, req, c.reply, c.enrolOpen, c.now);
            && (v.strikeAt != 0 ==> Revokes(fold, req.keyIdentifier, c.reply))
            && (v.strikeAt != 0 && v.strikeAt != req.strikeAt ==> !c.enrolOpen && v.strikeAt == c.now / SECOND)
  {
  }

  /**
   A wipe for revocation ends an unbroken run of matching revocations that goes back to a call whose second,
   counted from its start, lies at least thirty seconds before.
   */
  lemma {:induction false} RevokedWipeIsConfirmed(fold: string -> string, epoch: int, ident: string, calls: seq<Call>,
                                                  k: nat)
    requires k < |calls| && VerdictAt(fold, epoch, ident, calls, k).reason == Revoked
    ensures exists i: nat ::
              && i < k && (forall j :: i <= j <= k ==> Revokes(fold, ident, calls[j].reply))
              && !calls[i].enrolOpen && !calls[k].enrolOpen
              && calls[i].now / SECOND > 0
              && calls[k].now >= (calls[i].now / SECOND + CONFIRM) * SECOND
              && calls[k].now - calls[i].now > (CONFIRM - 1) * SECOND
  {
    StrikeOrigin(fold, epoch, ident, calls, k);
    var req := RequestAt(fold, epoch, ident, calls, k);
    WipeCauses(fold, req, calls[k].reply, calls[k].enrolOpen, calls[k].now);
    var i: nat :| StruckAt(fold, ident, calls, i, k, req.strikeAt);
    assert forall j :: i <= j <= k ==> Revokes(fold, ident, calls[j].reply);
  }

  /** A key-rotation wipe answers a strictly larger epoch than the device ever asked with. */
  lemma {:induction false} EpochOnlyRises(fold: string -> string, epoch: int, ident: string, calls: seq<Call>, k: nat)
    requires k <= |calls|
    ensures RequestAt(fold, epoch, ident, calls, k).keyEpoch >= epoch
    ensures (forall j :: 0 <= j < k ==> VerdictAt(fold, epoch, ident, calls, j).outcome != Wipe) ==>
              RequestAt(fold, epoch, ident, calls, k).keyEpoch == epoch
    decreases k
  {
    if k > 0 {
      EpochOnlyRises(fold, epoch, ident, calls, k - 1);
      var c := calls[k - 1];
      WipeCauses(fold, RequestAt(fold, epoch, ident, calls, k - 1), c.reply, c.enrolOpen, c.now);
    }
  }

  /**
   The delay of an unconfirmed revocation suffices: a device that waits so long and is told the same again, with no
   enrolment open at either call, wipes exactly when the strike it carries is a positive time.
   */
  lemma {:induction false} RetryDelaySuffices(fold: string -> string, req: Request, c: Call, next: Call)
    requires !c.enrolOpen && Decide(fold, req, c.reply, c.enrolOpen, c.now).reason == RevocationUnconfirmed
    requires !next.enrolOpen && Revokes(fold, req.keyIdentifier, next.reply)
    requires next.now >= c.now + Decide(fold, req, c.reply, c.enrolOpen, c.now).retryAfter * SECOND
    ensures var v := Decide(fold, req, c.reply, c.enrolOpen, c.now);
            Decide(fold, Request(v.keyEpoch, req.keyIdentifier, v.strikeAt), next.reply, next.enrolOpen,
                   next.now).reason == Revoked
            <==> v.strikeAt > 0
  {
  }

  /** From the first second of 1970 on, the strike is such a time. */
  lemma {:induction false} StrikeIsPositive(fold: string -> string, req: Request, c: Call)
    requires Decide(fold, req, c.reply, c.enrolOpen, c.now).reason == RevocationUnconfirmed
    ensures Decide(fold, req, c.reply, c.enrolOpen, c.now).strikeAt > 0 <==>
              c.now >= SECOND || (req.strikeAt > 0 && c.now >= req.strikeAt * SECOND)
  {
  }

  /** Strikes are whole seconds, so the two replies can be less than thirty seconds apart, by less than one. */
  lemma {:induction false} ConfirmationMayBeShort()
    ensures var told := Response(401, Some(Body(false, "deviceTokenRevoked", "k", "", None)));
            var calls := [Call(told, false, 2 * SECOND - 1), Call(told, false, 31 * SECOND)];
            && VerdictAt(s => s, 0, "k", calls, 1).reason == Revoked
            && calls[1].now - calls[0].now < CONFIRM * SECOND
  {
    var told := Response(401, Some(Body(false, "deviceTokenRevoked", "k", "", None)));
    var calls := [Call(told, false, 2 * SECOND - 1), Call(told, false, 31 * SECOND)];
    assert VerdictAt(s => s, 0, "k", calls, 0) == Verdict(Pause, RevocationUnconfirmed, 0, CONFIRM, 1);
    assert RequestAt(s => s, 0, "k", calls, 1) == Request(0, "k", 1);
  }

  /**
   A strike that a call takes, because it carried none or one that lies in the future, is confirmed no earlier than
   thirty seconds later exactly when it falls on a full second.
   */
  lemma {:induction false} ConfirmationIsFullExactly(fold: string -> string, req: Request, c: Call)
    requires var v := Decide(fold, req, c.reply, c.enrolOpen, c.now);
             v.reason == RevocationUnconfirmed && v.strikeAt == c.now / SECOND && v.strikeAt > 0
    ensures (forall next: Call | ConfirmedBy(fold, req, c, next) :: next.now - c.now >= CONFIRM * SECOND) <==>
              c.now % SECOND == 0
  {
    var soonest := Call(c.reply, false, (c.now / SECOND + CONFIRM) * SECOND);
    assert ConfirmedBy(fold, req, c, soonest);
  }

  /** The call after c, carrying what c returned, wipes for revocation. */
  predicate ConfirmedBy(fold: string -> string, req: Request, c: Call, next: Call) {
    var v := Decide(fold, req, c.reply, c.enrolOpen, c.now);
    var again := Request(v.keyEpoch, req.keyIdentifier, v.strikeAt);
    Decide(fold, again, next.reply, next.enrolOpen, next.now).reason == Revoked
  }
}
