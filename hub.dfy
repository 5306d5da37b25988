/**
 * What the settlement service reads from the ledger hub: the reply to
 * `GET /settlements/{id}`, the accepted-state gate, the participant list and
 * the membership test of one participant id against that list.
 */
module Hub {
  import opened Values

  /** One entry of a settlement's participant list; an absent key is `Null`. */
  datatype Entry = Entry(id: Scalar, participantId: Scalar)

  /** The fields of the settlement object the service looks at; `None` is an absent or null key. */
  datatype Settlement = Settlement(
    state: Scalar,
    participants: Option<seq<Entry>>,
    participantSettlements: Option<seq<Entry>>)

  /** The decoded body of a 200 reply: a JSON object, or anything `.json().get` fails on. */
  datatype Body = NotAnObject | Object(settlement: Settlement)

  /** Outcome of the hub read: the request raised, or the hub answered with a status code and a body. */
  datatype HubRead = Unreachable | Answered(statusCode: int, body: Body)

  const Recorded := "PS_TRANSFERS_RECORDED"
  const Reserved := "PS_TRANSFERS_RESERVED"
  const Committed := "PS_TRANSFERS_COMMITTED"
  const Settled := "SETTLED"

  /** The four settlement states for which a notification is accepted, in the source's order. */
  const AllowedStates: seq<string> := [Recorded, Reserved, Committed, Settled]

  /** `state in allowed_states`: only a string equal to one of the four passes. */
  predicate StateAllowed(state: Scalar)
    ensures StateAllowed(state) <==>
      state == Str(Recorded) || state == Str(Reserved) || state == Str(Committed) || state == Str(Settled)
  {
    state.Str? && state.s in AllowedStates
  }

  /** Python truthiness of an optional list: present and non-empty. */
  predicate NonEmpty(l: Option<seq<Entry>>)
  {
    l.Some? && l.value != []
  }

  /** `participants or participantSettlements or []`. */
  function ParticipantsList(s: Settlement): (r: seq<Entry>)
    ensures NonEmpty(s.participants) ==> r == s.participants.value
    ensures !NonEmpty(s.participants) && NonEmpty(s.participantSettlements) ==> r == s.participantSettlements.value
    ensures !NonEmpty(s.participants) && !NonEmpty(s.participantSettlements) ==> r == []
  {
    if NonEmpty(s.participants) then s.participants.value
    else if NonEmpty(s.participantSettlements) then s.participantSettlements.value
    else []
  }

  /** `str(p.get("id") or p.get("participantId"))`. */
  function EntryKey(e: Entry): (key: string)
    ensures Truthy(e.id) ==> key == ToStr(e.id)
    ensures !Truthy(e.id) ==> key == ToStr(e.participantId)
    ensures key == "None" <==> Or(e.id, e.participantId) == Null || Or(e.id, e.participantId) == Str("None")
  {
    ToStr(Or(e.id, e.participantId))
  }

  /** `any(str(...) == str(participant_id) for p in participants_list)`. */
  predicate IsMember(list: seq<Entry>, participantId: Scalar)
    ensures IsMember(list, participantId) <==> exists e :: e in list && EntryKey(e) == ToStr(participantId)
  {
    exists k :: 0 <= k < |list| && EntryKey(list[k]) == ToStr(participantId)
  }

  /** Nobody belongs to an empty list. */
  lemma EmptyListHasNoMember(participantId: Scalar)
    ensures !IsMember([], participantId)
  {
  }

  /**
   * Integer ids are compared through their decimal text, so an integer entry id
   * matches an integer participant id exactly when the two numbers are equal,
   * and matches the string of its decimal digits too.
   */
  lemma IntIdMatch(id: int, pid: int)
    requires id != 0
    ensures EntryKey(Entry(Int(id), Null)) == ToStr(Int(pid)) <==> id == pid
    ensures EntryKey(Entry(Int(id), Null)) == ToStr(Str(IntToDecimal(id)))
  {
    if EntryKey(Entry(Int(id), Null)) == ToStr(Int(pid)) {
      IntToDecimalInjective(id, pid);
    }
  }

  /** A zero `id` is falsy, so the entry is keyed by its `participantId`. */
  lemma ZeroIdFallsBack(pid: Scalar)
    ensures EntryKey(Entry(Int(0), pid)) == ToStr(pid)
  {
  }

  /**
   * The request id "None" matches exactly the entries whose `id or participantId`
   * is null (neither key set, or a falsy `id` and no `participantId`) or the string "None".
   */
  lemma {:induction false} NoneTextMatches(list: seq<Entry>)
    ensures IsMember(list, Str("None")) <==>
      exists k :: 0 <= k < |list| && (Or(list[k].id, list[k].participantId) == Null || Or(list[k].id, list[k].participantId) == Str("None"))
  {
    if IsMember(list, Str("None")) {
      var k :| 0 <= k < |list| && EntryKey(list[k]) == ToStr(Str("None"));
      assert EntryKey(list[k]) == "None";
    }
  }

  /** Any list holding an entry with neither key set admits the request id "None". */
  lemma IdlessEntryMatchesNoneText(list: seq<Entry>, k: int)
    requires 0 <= k < |list| && list[k] == Entry(Null, Null)
    ensures IsMember(list, Str("None"))
  {
    NoneTextMatches(list);
  }
}
