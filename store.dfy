/**
 * The notification table: one row per accepted (settlement, participant)
 * notification, appended in insertion order, and the queries the service
 * runs against it.
 */
module Store {
  import opened Values

  /** An opaque point in time (a parsed `settledAt`, or the clock at receipt). */
  datatype Instant = Instant(ticks: int)

  /**
   * A row of the notifications table. The auto-increment primary key is the
   * row's position in the store; ids are kept as the text the String columns hold.
   */
  datatype Record = Record(
    settlementId: string,
    participantId: string,
    amount: Option<string>,
    currency: Option<string>,
    reference: Option<string>,
    settledAt: Instant,
    createdAt: Instant)

  /** The rows of one settlement, in insertion order (`query(...).filter(settlement_id == sid)`). */
  function RecordsOf(records: seq<Record>, sid: string): (r: seq<Record>)
    ensures |r| <= |records|
    ensures forall k :: 0 <= k < |r| ==> r[k].settlementId == sid && r[k] in records
    ensures forall j :: 0 <= j < |records| && records[j].settlementId == sid ==> records[j] in r
    ensures forall x :: multiset(r)[x] == (if x.settlementId == sid then multiset(records)[x] else 0)
    decreases |records|
  {
    if records == [] then []
    else
      var init := records[..|records| - 1];
      var last := records[|records| - 1];
      assert records == init + [last];
      RecordsOf(init, sid) + (if last.settlementId == sid then [last] else [])
  }

  /** `query(...).filter(settlement_id == sid).count()`. */
  function CountFor(records: seq<Record>, sid: string): (n: nat)
    ensures n <= |records|
  {
    |RecordsOf(records, sid)|
  }

  /** The participant ids recorded for one settlement. */
  function ParticipantsOf(records: seq<Record>, sid: string): set<string>
  {
    set k | 0 <= k < |records| && records[k].settlementId == sid :: records[k].participantId
  }

  /** Some row holds the pair (sid, pid): the participant is among the settlement's recorded participants. */
  predicate HasRecord(records: seq<Record>, sid: string, pid: string)
    ensures HasRecord(records, sid, pid) <==> pid in ParticipantsOf(records, sid)
  {
    exists k :: 0 <= k < |records| && records[k].settlementId == sid && records[k].participantId == pid
  }

  /** `query(...).filter(settlement_id == sid, participant_id == pid).first()`. */
  function FirstMatch(records: seq<Record>, sid: string, pid: string): (r: Option<Record>)
    ensures r.None? <==> !HasRecord(records, sid, pid)
    ensures r.Some? ==> r.value.settlementId == sid && r.value.participantId == pid && r.value in records
    decreases |records|
  {
    if records == [] then None
    else if records[0].settlementId == sid && records[0].participantId == pid then Some(records[0])
    else
      var rest := FirstMatch(records[1..], sid, pid);
      assert HasRecord(records[1..], sid, pid) ==> HasRecord(records, sid, pid) by {
        if HasRecord(records[1..], sid, pid) {
          var k :| 0 <= k < |records[1..]| && records[1..][k].settlementId == sid && records[1..][k].participantId == pid;
          assert records[k + 1] == records[1..][k];
        }
      }
      assert HasRecord(records, sid, pid) ==> HasRecord(records[1..], sid, pid) by {
        if HasRecord(records, sid, pid) {
          var k :| 0 <= k < |records| && records[k].settlementId == sid && records[k].participantId == pid;
          assert k != 0;
          assert records[1..][k - 1] == records[k];
        }
      }
      rest
  }

  /** The idempotency key: no two rows share a (settlement, participant) pair. */
  predicate UniquePairs(records: seq<Record>)
  {
    forall i, j :: 0 <= i < j < |records| ==>
      records[i].settlementId != records[j].settlementId || records[i].participantId != records[j].participantId
  }

  /** Appending one row extends the rows of its settlement by that row and leaves every other settlement's rows alone. */
  lemma RecordsOfAppend(records: seq<Record>, r: Record, sid: string)
    ensures RecordsOf(records + [r], sid) == RecordsOf(records, sid) + (if r.settlementId == sid then [r] else [])
  {
    assert (records + [r])[..|records|] == records;
  }

  /** Appending rows never lowers any settlement's count. */
  lemma {:induction false} CountForGrows(a: seq<Record>, b: seq<Record>, sid: string)
    ensures CountFor(a, sid) <= CountFor(a + b, sid)
    decreases |b|
  {
    if b == [] {
      assert a + b == a;
    } else {
      var init := b[..|b| - 1];
      var last := b[|b| - 1];
      assert a + b == (a + init) + [last];
      RecordsOfAppend(a + init, last, sid);
      CountForGrows(a, init, sid);
    }
  }

  lemma ParticipantsOfAppend(records: seq<Record>, r: Record, sid: string)
    ensures ParticipantsOf(records + [r], sid) ==
      ParticipantsOf(records, sid) + (if r.settlementId == sid then {r.participantId} else {})
  {
    var s := records + [r];
    forall p | p in ParticipantsOf(s, sid)
      ensures p in ParticipantsOf(records, sid) + (if r.settlementId == sid then {r.participantId} else {})
    {
      var k :| 0 <= k < |s| && s[k].settlementId == sid && s[k].participantId == p;
      if k < |records| {
        assert records[k] == s[k];
      }
    }
    forall p | p in ParticipantsOf(records, sid)
      ensures p in ParticipantsOf(s, sid)
    {
      var k :| 0 <= k < |records| && records[k].settlementId == sid && records[k].participantId == p;
      assert s[k] == records[k];
    }
    if r.settlementId == sid {
      assert s[|records|] == r;
    }
  }

  /** A row whose pair is new raises its settlement's count and its set of participants together. */
  lemma CountStep(init: seq<Record>, last: Record, sid: string)
    requires CountFor(init, sid) == |ParticipantsOf(init, sid)|
    requires last.settlementId == sid ==> last.participantId !in ParticipantsOf(init, sid)
    ensures CountFor(init + [last], sid) == |ParticipantsOf(init + [last], sid)|
  {
    RecordsOfAppend(init, last, sid);
    ParticipantsOfAppend(init, last, sid);
  }

  /** With unique pairs, a settlement's count is the number of distinct participants recorded for it. */
  lemma {:induction false} CountIsDistinctParticipants(records: seq<Record>, sid: string)
    requires UniquePairs(records)
    ensures CountFor(records, sid) == |ParticipantsOf(records, sid)|
    decreases |records|
  {
    if records == [] {
      assert ParticipantsOf(records, sid) == {};
    } else {
      var init := records[..|records| - 1];
      var last := records[|records| - 1];
      assert records == init + [last];
      assert UniquePairs(init);
      CountIsDistinctParticipants(init, sid);
      CountStep(init, last, sid);
    }
  }

  /** One line of the status report. */
  datatype Detail = Detail(participantId: string, reference: Option<string>, settledAt: Instant)

  /** The body of `GET /external-settlement/{settlementId}/status`. */
  datatype StatusReport = StatusReport(settlementId: string, notificationCount: nat, details: seq<Detail>)

  function DetailOf(r: Record): Detail
  {
    Detail(r.participantId, r.reference, r.settledAt)
  }

  /** `get_settlement_status`: the count and one detail per row of the settlement, in row order. */
  function StatusOf(records: seq<Record>, sid: string): (r: StatusReport)
    ensures r.settlementId == sid
    ensures r.notificationCount == |r.details| == CountFor(records, sid)
  {
    var rows := RecordsOf(records, sid);
    StatusReport(sid, |rows|, seq(|rows|, k requires 0 <= k < |rows| => DetailOf(rows[k])))
  }

  /** Detail d is the line of some row of settlement sid. */
  predicate IsDetailOfRow(records: seq<Record>, sid: string, d: Detail)
  {
    exists j :: 0 <= j < |records| && records[j].settlementId == sid && d == DetailOf(records[j])
  }

  /** Every detail line comes from a row of that settlement, and every such row has its line. */
  lemma StatusDetailsAreTheSettlementRows(records: seq<Record>, sid: string)
    ensures forall d :: d in StatusOf(records, sid).details ==> IsDetailOfRow(records, sid, d)
    ensures forall j :: 0 <= j < |records| && records[j].settlementId == sid ==> DetailOf(records[j]) in StatusOf(records, sid).details
  {
    var rows := RecordsOf(records, sid);
    var details := StatusOf(records, sid).details;
    forall j | 0 <= j < |records| && records[j].settlementId == sid
      ensures DetailOf(records[j]) in details
    {
      var k :| 0 <= k < |rows| && rows[k] == records[j];
      assert details[k] == DetailOf(records[j]);
    }
    forall d | d in details
      ensures IsDetailOfRow(records, sid, d)
    {
      var k :| 0 <= k < |details| && details[k] == d;
      assert rows[k] in records;
      var j :| 0 <= j < |records| && records[j] == rows[k];
      assert records[j].settlementId == sid && d == DetailOf(records[j]);
    }
  }

  /** With unique pairs, `notificationCount` is the number of distinct participants that have notified. */
  lemma StatusCountsDistinctParticipants(records: seq<Record>, sid: string)
    requires UniquePairs(records)
    ensures StatusOf(records, sid).notificationCount == |ParticipantsOf(records, sid)|
  {
    CountIsDistinctParticipants(records, sid);
  }

  /** The session the service writes through: a growing sequence of rows. */
  class NotificationStore {
    var records: seq<Record>

    constructor ()
      ensures records == []
    {
      records := [];
    }

    /** `db.add(notification); db.commit()`. */
    method Add(r: Record)
      modifies this
      ensures records == old(records) + [r]
    {
      records := records + [r];
    }

    /** The status query against this store. */
    function Status(sid: string): (r: StatusReport)
      reads this
      ensures r.settlementId == sid
      ensures r.notificationCount == |r.details| == CountFor(records, sid)
    {
      StatusOf(records, sid)
    }
  }
}
