/**
 * Properties of the notification handler over one call and over sequences of
 * calls: refusals and their order, idempotence per (settlement, participant),
 * isolation of settlements, and quorum monotonicity.
 */
module Quorum {
  import opened Values
  import opened Hub
  import opened Store
  import opened Reconciliation

  /** A missing or falsy participant id is refused with 400 whatever the hub would have said. */
  lemma MissingIdRefusedBeforeHubRead(records: seq<Record>, sid: string, payload: Payload, hub1: HubRead, hub2: HubRead,
                                      now: Instant, parseIso: string -> Option<Instant>)
    requires !Truthy(payload.participantId)
    ensures Handle(records, sid, payload, hub1, now, parseIso) == Handle(records, sid, payload, hub2, now, parseIso)
    ensures Handle(records, sid, payload, hub1, now, parseIso) == Outcome(Rejected(MissingParticipantId), records, false)
    ensures HttpStatus(MissingParticipantId) == 400
  {
  }

  /** A hub read that raised gives 503, a non-200 reply gives 404; neither writes nor attempts the PUT. */
  lemma HubReadFailures(records: seq<Record>, sid: string, payload: Payload, code: int, body: Body,
                        now: Instant, parseIso: string -> Option<Instant>)
    requires Truthy(payload.participantId)
    ensures Handle(records, sid, payload, Unreachable, now, parseIso) == Outcome(Rejected(HubUnreachable), records, false)
    ensures code != 200 ==>
      Handle(records, sid, payload, Answered(code, body), now, parseIso) == Outcome(Rejected(SettlementNotFound), records, false)
    ensures HttpStatus(HubUnreachable) == 503 && HttpStatus(SettlementNotFound) == 404
  {
  }

  /** Only the four allowed states pass the gate; any other state is a 400 with the store unchanged. */
  lemma StateGate(records: seq<Record>, sid: string, payload: Payload, s: Settlement,
                  now: Instant, parseIso: string -> Option<Instant>)
    requires Truthy(payload.participantId)
    ensures var o := Handle(records, sid, payload, Answered(200, Object(s)), now, parseIso);
      (o.reply == Rejected(InvalidSettlementState) <==>
        !(s.state in {Str(Recorded), Str(Reserved), Str(Committed), Str(Settled)})) &&
      (o.reply == Rejected(InvalidSettlementState) ==> o.records == records)
  {
  }

  /** A participant whose id matches no entry of the snapshot is refused with 403 and nothing is written. */
  lemma NonMemberForbidden(records: seq<Record>, sid: string, payload: Payload, s: Settlement,
                           now: Instant, parseIso: string -> Option<Instant>)
    requires Truthy(payload.participantId) && StateAllowed(s.state)
    requires !IsMember(ParticipantsList(s), payload.participantId)
    ensures Handle(records, sid, payload, Answered(200, Object(s)), now, parseIso) ==
      Outcome(Rejected(ParticipantNotInSettlement), records, false)
    ensures HttpStatus(ParticipantNotInSettlement) == 403
  {
  }

  /** A snapshot with an empty participant list never reaches quorum: every notification is refused. */
  lemma EmptyListNeverFinalizes(records: seq<Record>, sid: string, payload: Payload, s: Settlement,
                                now: Instant, parseIso: string -> Option<Instant>)
    requires ParticipantsList(s) == []
    ensures Handle(records, sid, payload, Answered(200, Object(s)), now, parseIso).reply != Finalized
    ensures Handle(records, sid, payload, Answered(200, Object(s)), now, parseIso).records == records
  {
    EmptyListHasNoMember(payload.participantId);
  }

  /** Rows of every other settlement are exactly what they were. */
  lemma OtherSettlementsUntouched(records: seq<Record>, sid: string, payload: Payload, hub: HubRead,
                                  now: Instant, parseIso: string -> Option<Instant>, other: string)
    requires other != sid
    ensures RecordsOf(Handle(records, sid, payload, hub, now, parseIso).records, other) == RecordsOf(records, other)
  {
    var o := Handle(records, sid, payload, hub, now, parseIso);
    if o.records != records {
      assert o.records == records + [o.records[|records|]];
      RecordsOfAppend(records, o.records[|records|], other);
    }
  }

  /**
   * A first submission that passes validation and whose `settledAt` parses is
   * accepted: it adds exactly one row, built from its payload, raises the
   * settlement's count by one, and is answered FINALIZED or PENDING_QUORUM.
   */
  lemma FirstSubmissionAddsOneRow(records: seq<Record>, sid: string, payload: Payload, hub: HubRead,
                                  now: Instant, parseIso: string -> Option<Instant>)
    requires !HasRecord(records, sid, ToStr(payload.participantId))
    requires Validate(payload, hub).Passed? && SettledAt(payload.settledAt, now, parseIso).Some?
    ensures var o := Handle(records, sid, payload, hub, now, parseIso);
      !o.reply.Rejected? &&
      o.records == records + [NewRecord(sid, payload, SettledAt(payload.settledAt, now, parseIso).value, now)] &&
      CountFor(o.records, sid) == CountFor(records, sid) + 1
  {
    var o := Handle(records, sid, payload, hub, now, parseIso);
    RecordsOfAppend(records, o.records[|records|], sid);
  }

  /** What a first accepted submission sent is what the status query then reports for it. */
  lemma FirstSubmissionReported(records: seq<Record>, sid: string, payload: Payload, hub: HubRead,
                                now: Instant, parseIso: string -> Option<Instant>)
    requires !HasRecord(records, sid, ToStr(payload.participantId))
    requires Validate(payload, hub).Passed? && SettledAt(payload.settledAt, now, parseIso).Some?
    ensures var o := Handle(records, sid, payload, hub, now, parseIso);
      Detail(ToStr(payload.participantId), Column(payload.reference), SettledAt(payload.settledAt, now, parseIso).value)
        in StatusOf(o.records, sid).details
  {
    var o := Handle(records, sid, payload, hub, now, parseIso);
    FirstSubmissionAddsOneRow(records, sid, payload, hub, now, parseIso);
    StatusDetailsAreTheSettlementRows(o.records, sid);
    assert o.records[|records|].settlementId == sid;
  }

  /**
   * Idempotence: the same notification sent again, against the same hub snapshot,
   * gets the same reply, attempts the same PUT and leaves the store as the first call left it.
   */
  lemma SubmitTwiceSameAsOnce(records: seq<Record>, sid: string, payload: Payload, hub: HubRead,
                              now1: Instant, now2: Instant, parseIso: string -> Option<Instant>)
    ensures var once := Handle(records, sid, payload, hub, now1, parseIso);
      Handle(once.records, sid, payload, hub, now2, parseIso) == once
  {
    var once := Handle(records, sid, payload, hub, now1, parseIso);
    if once.reply.Rejected? {
      var v := Validate(payload, hub);
      if v.Passed? {
        assert once.reply == Rejected(InternalError);
        assert FirstMatch(records, sid, v.participantId).None?;
        assert SettledAt(payload.settledAt, now1, parseIso).None?;
        assert SettledAt(payload.settledAt, now2, parseIso).None?;
      }
    } else {
      assert HasRecord(once.records, sid, ToStr(payload.participantId));
    }
  }

  /** One call of the handler, as a value. */
  datatype Call = Call(settlementId: string, payload: Payload, hub: HubRead, now: Instant)

  /** The store after handling `calls` in order, starting from `records`. */
  function Run(records: seq<Record>, calls: seq<Call>, parseIso: string -> Option<Instant>): seq<Record>
    decreases |calls|
  {
    if calls == [] then records
    else
      var c := calls[0];
      Run(Handle(records, c.settlementId, c.payload, c.hub, c.now, parseIso).records, calls[1..], parseIso)
  }

  /** One call keeps every row in place. */
  lemma CallExtends(records: seq<Record>, c: Call, parseIso: string -> Option<Instant>)
    ensures var next := Handle(records, c.settlementId, c.payload, c.hub, c.now, parseIso).records;
      |records| <= |next| && next[..|records|] == records
  {
  }

  /** The store only grows: what was there stays there, in place. */
  lemma {:induction false} RunExtends(records: seq<Record>, calls: seq<Call>, parseIso: string -> Option<Instant>)
    ensures |records| <= |Run(records, calls, parseIso)|
    ensures Run(records, calls, parseIso)[..|records|] == records
    decreases |calls|
  {
    if calls != [] {
      var next := Handle(records, calls[0].settlementId, calls[0].payload, calls[0].hub, calls[0].now, parseIso).records;
      CallExtends(records, calls[0], parseIso);
      RunExtends(next, calls[1..], parseIso);
      var final := Run(next, calls[1..], parseIso);
      assert Run(records, calls, parseIso) == final;
      assert final[..|records|] == final[..|next|][..|records|];
    }
  }

  /** No call ever lowers any settlement's count, nor removes a recorded pair. */
  lemma CountNeverDecreases(records: seq<Record>, calls: seq<Call>, parseIso: string -> Option<Instant>, sid: string, pid: string)
    ensures CountFor(records, sid) <= CountFor(Run(records, calls, parseIso), sid)
    ensures HasRecord(records, sid, pid) ==> HasRecord(Run(records, calls, parseIso), sid, pid)
  {
    var final := Run(records, calls, parseIso);
    RunExtends(records, calls, parseIso);
    assert final == records + final[|records|..];
    CountForGrows(records, final[|records|..], sid);
    if HasRecord(records, sid, pid) {
      var k :| 0 <= k < |records| && records[k].settlementId == sid && records[k].participantId == pid;
      assert final[k] == records[k];
    }
  }

  /**
   * Quorum is monotone: after a FINALIZED reply, whatever other calls follow, the
   * same participant's duplicate against the same snapshot is FINALIZED again and writes nothing.
   */
  lemma FinalizedIsStable(records: seq<Record>, sid: string, payload: Payload, hub: HubRead, now: Instant,
                          parseIso: string -> Option<Instant>, between: seq<Call>, again: Payload, later: Instant)
    requires Handle(records, sid, payload, hub, now, parseIso).reply == Finalized
    requires ToStr(again.participantId) == ToStr(payload.participantId) && Truthy(again.participantId)
    ensures var after := Run(Handle(records, sid, payload, hub, now, parseIso).records, between, parseIso);
      Handle(after, sid, again, hub, later, parseIso) == Outcome(Finalized, after, hub.body.settlement.state != Str(Settled))
  {
    var first := Handle(records, sid, payload, hub, now, parseIso);
    var after := Run(first.records, between, parseIso);
    var pid := ToStr(payload.participantId);
    CountNeverDecreases(first.records, between, parseIso, sid, pid);
    var v := Validate(payload, hub);
    assert IsMember(ParticipantsList(hub.body.settlement), again.participantId) by {
      var k :| 0 <= k < |v.participants| && EntryKey(v.participants[k]) == ToStr(payload.participantId);
      assert EntryKey(v.participants[k]) == ToStr(again.participantId);
    }
    assert Validate(again, hub) == v;
  }

  /** Every call keeps at most one row per (settlement, participant). */
  lemma HandleKeepsPairsUnique(records: seq<Record>, sid: string, payload: Payload, hub: HubRead,
                               now: Instant, parseIso: string -> Option<Instant>)
    requires UniquePairs(records)
    ensures UniquePairs(Handle(records, sid, payload, hub, now, parseIso).records)
  {
    var o := Handle(records, sid, payload, hub, now, parseIso);
    if o.records != records {
      var n := |records|;
      forall i, j | 0 <= i < j < |o.records|
        ensures o.records[i].settlementId != o.records[j].settlementId || o.records[i].participantId != o.records[j].participantId
      {
        if j == n {
          assert o.records[i] == records[i];
        } else {
          assert o.records[i] == records[i] && o.records[j] == records[j];
        }
      }
    }
  }

  lemma {:induction false} RunKeepsPairsUnique(records: seq<Record>, calls: seq<Call>, parseIso: string -> Option<Instant>)
    requires UniquePairs(records)
    ensures UniquePairs(Run(records, calls, parseIso))
    decreases |calls|
  {
    if calls != [] {
      var c := calls[0];
      HandleKeepsPairsUnique(records, c.settlementId, c.payload, c.hub, c.now, parseIso);
      RunKeepsPairsUnique(Handle(records, c.settlementId, c.payload, c.hub, c.now, parseIso).records, calls[1..], parseIso);
    }
  }

  /**
   * For a store built by the handler from empty, the status query's
   * `notificationCount` is the number of distinct participants that notified.
   */
  lemma StatusCountIsDistinctNotifiers(calls: seq<Call>, parseIso: string -> Option<Instant>, sid: string)
    ensures var final := Run([], calls, parseIso);
      StatusOf(final, sid).notificationCount == |ParticipantsOf(final, sid)|
  {
    RunKeepsPairsUnique([], calls, parseIso);
    StatusCountsDistinctParticipants(Run([], calls, parseIso), sid);
  }

  /** The keys of a participant list, in list order. */
  function KeysOf(list: seq<Entry>): (keys: seq<string>)
    ensures |keys| == |list|
    ensures forall k :: 0 <= k < |list| ==> keys[k] == EntryKey(list[k])
  {
    seq(|list|, k requires 0 <= k < |list| => EntryKey(list[k]))
  }

  /** No two positions of xs hold the same string. */
  predicate Distinct(xs: seq<string>)
  {
    forall i, j :: 0 <= i < j < |xs| ==> xs[i] != xs[j]
  }

  lemma {:induction false} DistinctCard(xs: seq<string>)
    requires Distinct(xs)
    ensures |set x | x in xs| == |xs|
    decreases |xs|
  {
    if xs != [] {
      var init := xs[..|xs| - 1];
      var last := xs[|xs| - 1];
      assert xs == init + [last];
      assert Distinct(init);
      DistinctCard(init);
      assert (set x | x in xs) == (set x | x in init) + {last};
      forall k | 0 <= k < |init| ensures init[k] != last {
        assert xs[k] == init[k];
      }
    }
  }

  lemma SubsetCard(a: set<string>, b: set<string>)
    requires a <= b
    ensures |a| <= |b|
  {
    assert b == a + (b - a);
  }

  /**
   * When every participant of the snapshot (with distinct keys) has a row and
   * rows are unique per pair, the count reaches the list length: quorum holds.
   */
  lemma AllNotifiedMeansQuorum(records: seq<Record>, sid: string, list: seq<Entry>)
    requires UniquePairs(records) && Distinct(KeysOf(list))
    requires forall k :: 0 <= k < |list| ==> HasRecord(records, sid, EntryKey(list[k]))
    ensures CountFor(records, sid) >= |list|
  {
    var keys := KeysOf(list);
    DistinctCard(keys);
    CountIsDistinctParticipants(records, sid);
    forall x | x in keys ensures x in ParticipantsOf(records, sid) {
      var k :| 0 <= k < |keys| && keys[k] == x;
      assert HasRecord(records, sid, EntryKey(list[k]));
    }
    SubsetCard((set x | x in keys), ParticipantsOf(records, sid));
  }

  /**
   * The converse does not hold: the count includes rows of participants that an
   * earlier snapshot listed and the current one does not, so FINALIZED can come
   * back while a listed participant has never notified.
   */
  lemma StaleRowsCountTowardQuorum(parseIso: string -> Option<Instant>, t: Instant)
    ensures var rows := [Record("S1", "1", None, None, None, t, t), Record("S1", "3", None, None, None, t, t)];
      var hub := Answered(200, Object(Settlement(Str(Committed), Some([Entry(Int(1), Null), Entry(Int(2), Null)]), None)));
      Handle(rows, "S1", Payload(Int(1), Null, Null, Null, Null), hub, t, parseIso) == Outcome(Finalized, rows, true) &&
      !HasRecord(rows, "S1", "2")
  {
    var rows := [Record("S1", "1", None, None, None, t, t), Record("S1", "3", None, None, None, t, t)];
    StaleRowsFinalize(rows, parseIso, t);
    assert !HasRecord(rows, "S1", "2");
  }

  lemma StaleRowsFinalize(rows: seq<Record>, parseIso: string -> Option<Instant>, t: Instant)
    requires rows == [Record("S1", "1", None, None, None, t, t), Record("S1", "3", None, None, None, t, t)]
    ensures var hub := Answered(200, Object(Settlement(Str(Committed), Some([Entry(Int(1), Null), Entry(Int(2), Null)]), None)));
      Handle(rows, "S1", Payload(Int(1), Null, Null, Null, Null), hub, t, parseIso) == Outcome(Finalized, rows, true)
  {
    var list := [Entry(Int(1), Null), Entry(Int(2), Null)];
    var p := Payload(Int(1), Null, Null, Null, Null);
    var hub := Answered(200, Object(Settlement(Str(Committed), Some(list), None)));
    assert EntryKey(list[0]) == "1";
    assert Validate(p, hub) == Passed(Str(Committed), list, "1");
    assert FirstMatch(rows, "S1", "1") == Some(rows[0]);
    assert CountFor(rows, "S1") == 2 by {
      RecordsOfAppend([rows[0]], rows[1], "S1");
      RecordsOfAppend([], rows[0], "S1");
      assert [rows[0]] + [rows[1]] == rows;
    }
  }

  /** The committed two-member settlement of the scenario below, as the hub returns it. */
  function ScenarioHub(): HubRead
  {
    Answered(200, Object(Settlement(Str(Committed), Some([Entry(Int(1), Null), Entry(Int(2), Null)]), None)))
  }

  /** The scenario's first notification, from participant 1, leaves the settlement pending with one row. */
  lemma ScenarioFirst(parseIso: string -> Option<Instant>, t1: Instant)
    ensures var p1 := Payload(Int(1), Str("100"), Str("XOF"), Str("ref-1"), Null);
      var o1 := Handle([], "S1", p1, ScenarioHub(), t1, parseIso);
      o1.reply == PendingQuorum && !o1.putSettled && o1.records == [NewRecord("S1", p1, t1, t1)]
  {
    var list := [Entry(Int(1), Null), Entry(Int(2), Null)];
    var p1 := Payload(Int(1), Str("100"), Str("XOF"), Str("ref-1"), Null);
    assert EntryKey(list[0]) == "1" && EntryKey(list[1]) == "2";
    assert Validate(p1, ScenarioHub()) == Passed(Str(Committed), list, "1");
    FirstSubmissionAddsOneRow([], "S1", p1, ScenarioHub(), t1, parseIso);
  }

  /** The scenario's second notification, from participant 2 after that row, completes the quorum. */
  lemma ScenarioSecond(parseIso: string -> Option<Instant>, t1: Instant, t2: Instant)
    ensures var p1 := Payload(Int(1), Str("100"), Str("XOF"), Str("ref-1"), Null);
      var p2 := Payload(Int(2), Str("100"), Str("XOF"), Str("ref-2"), Null);
      var o2 := Handle([NewRecord("S1", p1, t1, t1)], "S1", p2, ScenarioHub(), t2, parseIso);
      o2.reply == Finalized && CountFor(o2.records, "S1") == 2 && o2.putSettled
  {
    var list := [Entry(Int(1), Null), Entry(Int(2), Null)];
    var p1 := Payload(Int(1), Str("100"), Str("XOF"), Str("ref-1"), Null);
    var p2 := Payload(Int(2), Str("100"), Str("XOF"), Str("ref-2"), Null);
    var records := [NewRecord("S1", p1, t1, t1)];
    assert EntryKey(list[0]) == "1" && EntryKey(list[1]) == "2";
    assert Validate(p2, ScenarioHub()) == Passed(Str(Committed), list, "2");
    assert !HasRecord(records, "S1", "2");
    FirstSubmissionAddsOneRow(records, "S1", p2, ScenarioHub(), t2, parseIso);
  }

  /**
   * Two participants, state PS_TRANSFERS_COMMITTED: the first notification is
   * PENDING_QUORUM with a count of one, the second FINALIZED with a count of two
   * and the PUT to SETTLED attempted.
   */
  lemma TwoParticipantScenario(parseIso: string -> Option<Instant>, t1: Instant, t2: Instant)
    ensures var s := Settlement(Str(Committed), Some([Entry(Int(1), Null), Entry(Int(2), Null)]), None);
      var hub := Answered(200, Object(s));
      var o1 := Handle([], "S1", Payload(Int(1), Str("100"), Str("XOF"), Str("ref-1"), Null), hub, t1, parseIso);
      var o2 := Handle(o1.records, "S1", Payload(Int(2), Str("100"), Str("XOF"), Str("ref-2"), Null), hub, t2, parseIso);
      o1.reply == PendingQuorum && CountFor(o1.records, "S1") == 1 && !o1.putSettled &&
      o2.reply == Finalized && CountFor(o2.records, "S1") == 2 && o2.putSettled
  {
    ScenarioFirst(parseIso, t1);
    ScenarioSecond(parseIso, t1, t2);
  }
}
