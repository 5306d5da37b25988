/**
 * `POST /external-settlement/{settlementId}`: validate one participant's
 * settlement notification against the hub's snapshot, record it once per
 * (settlement, participant), and decide FINALIZED or PENDING_QUORUM by
 * counting the settlement's rows against the snapshot's participant list.
 */
module Reconciliation {
  import opened Values
  import opened Hub
  import opened Store

  /** The request body; an absent key is `Null`. */
  datatype Payload = Payload(
    participantId: Scalar,
    amount: Scalar,
    currency: Scalar,
    reference: Scalar,
    settledAt: Scalar)

  /** Every way a notification is refused, in the order the handler checks them. */
  datatype Failure =
    | MissingParticipantId        // 400
    | HubUnreachable              // 503
    | SettlementNotFound          // 404
    | InvalidSettlementState      // 400
    | ParticipantNotInSettlement  // 403
    | InternalError               // 500: an exception the handler does not catch

  function HttpStatus(f: Failure): (code: int)
    ensures 400 <= code < 600
  {
    match f
    case MissingParticipantId => 400
    case HubUnreachable => 503
    case SettlementNotFound => 404
    case InvalidSettlementState => 400
    case ParticipantNotInSettlement => 403
    case InternalError => 500
  }

  datatype Reply = Finalized | PendingQuorum | Rejected(failure: Failure)

  /** What steps 1 to 3 of the handler leave for the rest: the snapshot's state and list, and the id as text. */
  datatype Validation =
    | Passed(state: Scalar, participants: seq<Entry>, participantId: string)
    | Failed(failure: Failure)

  /** The id check, the hub read, the state gate and the membership test, in the handler's order. */
  function Validate(payload: Payload, hub: HubRead): (v: Validation)
    ensures !Truthy(payload.participantId) ==> v == Failed(MissingParticipantId)
    ensures Truthy(payload.participantId) && hub.Unreachable? ==> v == Failed(HubUnreachable)
    ensures Truthy(payload.participantId) && hub.Answered? && hub.statusCode != 200 ==> v == Failed(SettlementNotFound)
    ensures Truthy(payload.participantId) && hub == Answered(200, NotAnObject) ==> v == Failed(InternalError)
    ensures Truthy(payload.participantId) && hub.Answered? && hub.statusCode == 200 && hub.body.Object? ==>
      (!StateAllowed(hub.body.settlement.state) ==> v == Failed(InvalidSettlementState)) &&
      (StateAllowed(hub.body.settlement.state) && !IsMember(ParticipantsList(hub.body.settlement), payload.participantId) ==>
         v == Failed(ParticipantNotInSettlement))
    ensures v.Passed? <==>
      Truthy(payload.participantId) && hub.Answered? && hub.statusCode == 200 && hub.body.Object? &&
      StateAllowed(hub.body.settlement.state) &&
      IsMember(ParticipantsList(hub.body.settlement), payload.participantId)
    ensures v.Passed? ==>
      v.state == hub.body.settlement.state && StateAllowed(v.state) &&
      v.participants == ParticipantsList(hub.body.settlement) && |v.participants| >= 1 &&
      v.participantId == ToStr(payload.participantId)
  {
    if !Truthy(payload.participantId) then Failed(MissingParticipantId)
    else match hub
      case Unreachable => Failed(HubUnreachable)
      case Answered(code, body) =>
        if code != 200 then Failed(SettlementNotFound)
        else match body
          case NotAnObject => Failed(InternalError)
          case Object(s) =>
            if !StateAllowed(s.state) then Failed(InvalidSettlementState)
            else
              var list := ParticipantsList(s);
              if !IsMember(list, payload.participantId) then Failed(ParticipantNotInSettlement)
              else Passed(s.state, list, ToStr(payload.participantId))
  }

  /** `s.replace("Z", "")`: every `Z` removed, nothing else touched. */
  function StripZ(s: string): (r: string)
    ensures 'Z' !in r
    ensures 'Z' !in s ==> r == s
    ensures |s| == 1 ==> r == (if s[0] == 'Z' then [] else s)
    decreases |s|
  {
    if s == [] then []
    else
      assert s == [s[0]] + s[1..];
      (if s[0] == 'Z' then [] else [s[0]]) + StripZ(s[1..])
  }

  /** One character, then the rest. */
  lemma StripZCons(c: char, t: string)
    ensures StripZ([c] + t) == (if c == 'Z' then [] else [c]) + StripZ(t)
  {
    assert ([c] + t)[0] == c && ([c] + t)[1..] == t;
  }

  lemma ConcatAssoc(h: string, x: string, y: string)
    ensures h + (x + y) == (h + x) + y
  {
  }

  /** The inductive step of `StripZConcat`: a first character in front of `a` passes through unchanged or goes. */
  lemma StripZConcatStep(c: char, t: string, b: string)
    requires StripZ(t + b) == StripZ(t) + StripZ(b)
    ensures StripZ([c] + t + b) == StripZ([c] + t) + StripZ(b)
  {
    assert [c] + t + b == [c] + (t + b);
    StripZCons(c, t + b);
    StripZCons(c, t);
    ConcatAssoc(if c == 'Z' then [] else [c], StripZ(t), StripZ(b));
  }

  /** Removing `Z`s works piecewise: the kept characters stay, in their order. */
  lemma {:induction false} StripZConcat(a: string, b: string)
    ensures StripZ(a + b) == StripZ(a) + StripZ(b)
    decreases |a|
  {
    if a == [] {
      assert a + b == b;
    } else {
      assert a == [a[0]] + a[1..];
      StripZConcat(a[1..], b);
      StripZConcatStep(a[0], a[1..], b);
    }
  }

  /** Every character other than `Z` is kept as often as it occurs, and every `Z` goes. */
  lemma {:induction false} StripZCounts(s: string)
    ensures multiset(StripZ(s)) == multiset(s)['Z' := 0]
    ensures |StripZ(s)| == |s| - multiset(s)['Z']
    decreases |s|
  {
    if s != [] {
      var c, t := s[0], s[1..];
      assert s == [c] + t;
      StripZCons(c, t);
      StripZCounts(t);
      assert multiset(s) == multiset{c} + multiset(t);
    }
  }

  /**
   * The `settled_at` column of a new row: the clock when `settledAt` is falsy,
   * else the parse of the string with its `Z`s removed. `None` is the request
   * failing: `fromisoformat` rejected the text, or the value was not a string.
   */
  function SettledAt(v: Scalar, now: Instant, parseIso: string -> Option<Instant>): (r: Option<Instant>)
    ensures !Truthy(v) ==> r == Some(now)
    ensures v.Int? && Truthy(v) ==> r.None?
    ensures v.Str? && Truthy(v) ==> r == parseIso(StripZ(v.s))
  {
    if !Truthy(v) then Some(now)
    else match v
      case Str(s) => parseIso(StripZ(s))
      case _ => None
  }

  /** `str(amount) if amount else None`. */
  function StoredAmount(v: Scalar): (r: Option<string>)
    ensures r.Some? <==> Truthy(v)
    ensures r.Some? ==> r.value == ToStr(v)
  {
    if Truthy(v) then Some(ToStr(v)) else None
  }

  /** The row `notify_external_settlement` inserts: what the participant sent, with `created_at` the clock. */
  function NewRecord(sid: string, payload: Payload, settledAt: Instant, now: Instant): (r: Record)
    ensures r.settlementId == sid && r.participantId == ToStr(payload.participantId)
    ensures r.amount == StoredAmount(payload.amount)
    ensures r.currency == Column(payload.currency) && r.reference == Column(payload.reference)
    ensures r.settledAt == settledAt && r.createdAt == now
  {
    Record(sid, ToStr(payload.participantId), StoredAmount(payload.amount),
           Column(payload.currency), Column(payload.reference), settledAt, now)
  }

  /** The reply and the new store, and whether the advisory `PUT {"state": "SETTLED"}` was attempted. */
  datatype Outcome = Outcome(reply: Reply, records: seq<Record>, putSettled: bool)

  /** Steps 6 and 7: quorum is the settlement's row count reaching the snapshot's list length. */
  function Conclude(records: seq<Record>, sid: string, state: Scalar, participants: seq<Entry>): (o: Outcome)
    ensures o.records == records
    ensures o.reply == Finalized <==> CountFor(records, sid) >= |participants|
    ensures o.reply != Finalized ==> o.reply == PendingQuorum
    ensures o.putSettled <==> o.reply == Finalized && state != Str(Settled)
  {
    if CountFor(records, sid) >= |participants| then Outcome(Finalized, records, state != Str(Settled))
    else Outcome(PendingQuorum, records, false)
  }

  /** One notification handled against the store `records`, as a function of its inputs. */
  function Handle(records: seq<Record>, sid: string, payload: Payload, hub: HubRead,
                  now: Instant, parseIso: string -> Option<Instant>): (o: Outcome)
    // refusals write nothing and attempt no PUT
    ensures o.reply.Rejected? ==> o.records == records && !o.putSettled
    ensures Validate(payload, hub).Failed? ==> o.reply == Rejected(Validate(payload, hub).failure)
    // at most one row is added, only for a pair not yet recorded, and never a second one
    ensures o.records == records ||
      (|o.records| == |records| + 1 && o.records[..|records|] == records &&
       o.records[|records|].settlementId == sid &&
       o.records[|records|].participantId == ToStr(payload.participantId) &&
       !HasRecord(records, sid, ToStr(payload.participantId)))
    ensures HasRecord(records, sid, ToStr(payload.participantId)) ==> o.records == records
    ensures !o.reply.Rejected? ==> HasRecord(o.records, sid, ToStr(payload.participantId))
    // the quorum decision and the advisory PUT
    ensures Validate(payload, hub).Passed? && !o.reply.Rejected? ==>
      (o.reply == Finalized <==> CountFor(o.records, sid) >= |Validate(payload, hub).participants|)
    ensures o.putSettled <==> o.reply == Finalized && hub.body.settlement.state != Str(Settled)
    // a notification that passes validation is accepted, unless it is new and its settledAt does not parse (500)
    ensures Validate(payload, hub).Passed? ==>
      (o.reply.Rejected? <==>
         !HasRecord(records, sid, ToStr(payload.participantId)) && SettledAt(payload.settledAt, now, parseIso).None?)
    ensures Validate(payload, hub).Passed? && o.reply.Rejected? ==> o.reply == Rejected(InternalError)
    // a new valid pair is recorded as exactly the row built from the payload
    ensures (Validate(payload, hub).Passed? && !HasRecord(records, sid, ToStr(payload.participantId)) &&
             SettledAt(payload.settledAt, now, parseIso).Some?) ==>
      o.records == records + [NewRecord(sid, payload, SettledAt(payload.settledAt, now, parseIso).value, now)]
    ensures o.records != records ==>
      SettledAt(payload.settledAt, now, parseIso).Some? &&
      o.records[|records|] == NewRecord(sid, payload, SettledAt(payload.settledAt, now, parseIso).value, now)
  {
    match Validate(payload, hub)
    case Failed(f) => Outcome(Rejected(f), records, false)
    case Passed(state, participants, pid) =>
      if FirstMatch(records, sid, pid).Some? then Conclude(records, sid, state, participants)
      else match SettledAt(payload.settledAt, now, parseIso)
        case None => Outcome(Rejected(InternalError), records, false)
        case Some(t) =>
          var added := records + [NewRecord(sid, payload, t, now)];
          assert added[|records|] == NewRecord(sid, payload, t, now);
          assert HasRecord(added, sid, pid);
          Conclude(added, sid, state, participants)
  }

  /**
   * `notify_external_settlement` against the store `db`. The hub read, the
   * clock and the timestamp parser are its inputs; `putSettled` says whether
   * it attempted the advisory `PUT`, whose own result it ignores.
   */
  method NotifyExternalSettlement(db: NotificationStore, sid: string, payload: Payload, hub: HubRead,
                                  now: Instant, parseIso: string -> Option<Instant>)
    returns (reply: Reply, putSettled: bool)
    modifies db
    ensures Outcome(reply, db.records, putSettled) == Handle(old(db.records), sid, payload, hub, now, parseIso)
  {
    putSettled := false;
    var participantId := payload.participantId;
    if !Truthy(participantId) {
      return Rejected(MissingParticipantId), false;
    }

    // 1. the settlement as the hub sees it
    if hub.Unreachable? {
      return Rejected(HubUnreachable), false;
    }
    if hub.statusCode != 200 {
      return Rejected(SettlementNotFound), false;
    }
    if hub.body.NotAnObject? {
      return Rejected(InternalError), false;
    }
    var settlement := hub.body.settlement;

    // 2. the state gate
    var state := settlement.state;
    if !StateAllowed(state) {
      return Rejected(InvalidSettlementState), false;
    }

    // 3. membership
    var participantsList := ParticipantsList(settlement);
    if !IsMember(participantsList, participantId) {
      return Rejected(ParticipantNotInSettlement), false;
    }

    // 4. idempotency: insert only when the pair is new
    var pid := ToStr(participantId);
    assert Validate(payload, hub) == Passed(state, participantsList, pid);
    var existing := FirstMatch(db.records, sid, pid);
    if existing.None? {
      var settledAt := SettledAt(payload.settledAt, now, parseIso);
      if settledAt.None? {
        return Rejected(InternalError), false;
      }
      db.Add(NewRecord(sid, payload, settledAt.value, now));
    }

    // 5. quorum
    var notifiedCount := CountFor(db.records, sid);
    var totalNeeded := |participantsList|;
    if notifiedCount >= totalNeeded {
      if state != Str(Settled) {
        putSettled := true;
      }
      return Finalized, putSettled;
    }
    return PendingQuorum, false;
  }
}
