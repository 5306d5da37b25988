/**
 * The two lookups against the participant directory of the central ledger:
 * the notification e-mail endpoint of one participant, and the map from
 * account id to the owning participant's name, currency and account type.
 * The HTTP replies are inputs.
 */
module Directory {
  import opened Values

  /** The one endpoint type the e-mail lookup recognises. */
  const EmailEndpointType := "SETTLEMENT_TRANSFER_POSITION_CHANGE_EMAIL"

  /** An endpoint object: `ep.get("type")` and `ep.get("value")`, `Null` when absent. */
  datatype Endpoint = Endpoint(kind: Scalar, value: Scalar)

  /** The decoded body: a list of endpoint objects, or something the loop raises on. */
  datatype EndpointsBody = EndpointsMalformed | EndpointList(endpoints: seq<Endpoint>)

  /** The reply to `GET /participants/{name}/endpoints`: the request raised, or a status and a body. */
  datatype EndpointsRead = EndpointsUnreachable | EndpointsAnswered(statusCode: int, body: EndpointsBody)

  predicate IsEmailEndpoint(ep: Endpoint)
  {
    ep.kind == Str(EmailEndpointType)
  }

  /** k is the first position of an e-mail endpoint. */
  predicate FirstEmailAt(eps: seq<Endpoint>, k: int)
  {
    0 <= k < |eps| && IsEmailEndpoint(eps[k]) && forall j :: 0 <= j < k ==> !IsEmailEndpoint(eps[j])
  }

  /** The endpoint list when the reply is a readable 200, else nothing to search. */
  predicate Readable(reply: EndpointsRead)
  {
    reply.EndpointsAnswered? && reply.statusCode == 200 && reply.body.EndpointList?
  }

  /**
   * `get_participant_endpoint_email`: the `value` of the first endpoint of the
   * recognised type (which may itself be null), and null when the call failed,
   * the status was not 200, the body was unreadable or no endpoint matched.
   */
  method GetParticipantEndpointEmail(reply: EndpointsRead) returns (email: Scalar)
    ensures !Readable(reply) ==> email == Null
    ensures Readable(reply) && (exists k :: 0 <= k < |reply.body.endpoints| && IsEmailEndpoint(reply.body.endpoints[k])) ==>
      exists k :: FirstEmailAt(reply.body.endpoints, k) && email == reply.body.endpoints[k].value
    ensures Readable(reply) && (forall k :: 0 <= k < |reply.body.endpoints| ==> !IsEmailEndpoint(reply.body.endpoints[k])) ==>
      email == Null
  {
    if !Readable(reply) {
      return Null;
    }
    var endpoints := reply.body.endpoints;
    var i := 0;
    while i < |endpoints|
      invariant 0 <= i <= |endpoints|
      invariant forall j :: 0 <= j < i ==> !IsEmailEndpoint(endpoints[j])
    {
      if endpoints[i].kind == Str(EmailEndpointType) {
        assert FirstEmailAt(endpoints, i);
        return endpoints[i].value;
      }
      i := i + 1;
    }
    return Null;
  }

  /** An account object; `None` is a key that is absent, so that `account["..."]` raises. */
  datatype LedgerAccount = LedgerAccount(id: Option<Scalar>, currency: Option<Scalar>, ledgerAccountType: Option<Scalar>)

  /** `p.get("accounts", [])`: absent (iterated as empty), a value the loop raises on, or a list. */
  datatype AccountsField = NoAccounts | AccountsMalformed | AccountList(accounts: seq<LedgerAccount>)

  /** A participant object; `name` is `None` when the key is absent. */
  datatype LedgerParticipant = LedgerParticipant(name: Option<Scalar>, accounts: AccountsField)

  datatype ParticipantsBody = ParticipantsMalformed | ParticipantList(participants: seq<LedgerParticipant>)

  /** The reply to `GET /participants`. */
  datatype ParticipantsRead = ParticipantsUnreachable | ParticipantsAnswered(statusCode: int, body: ParticipantsBody)

  /** The value stored under an account id. */
  datatype AccountInfo = AccountInfo(name: Scalar, currency: Scalar, ledgerAccountType: Scalar)

  type AccountMap = map<Scalar, AccountInfo>

  /** The accounts the loop walks for one participant. */
  function AccountsOf(p: LedgerParticipant): seq<LedgerAccount>
  {
    if p.accounts.AccountList? then p.accounts.accounts else []
  }

  /** Every key the map entry for this account reads is present. */
  predicate CompleteAccount(name: Option<Scalar>, a: LedgerAccount)
  {
    name.Some? && a.id.Some? && a.currency.Some? && a.ledgerAccountType.Some?
  }

  /** The loop gets through this participant without raising. */
  predicate WellFormed(p: LedgerParticipant)
  {
    !p.accounts.AccountsMalformed? &&
    forall j :: 0 <= j < |AccountsOf(p)| ==> CompleteAccount(p.name, AccountsOf(p)[j])
  }

  /** The inner loop: the entries of `accounts`, in order, over `m`; `None` once one raises. Keys are never dropped. */
  function FoldAccounts(m: AccountMap, name: Option<Scalar>, accounts: seq<LedgerAccount>): (r: Option<AccountMap>)
    ensures r.Some? ==> m.Keys <= r.value.Keys
    decreases |accounts|
  {
    if accounts == [] then Some(m)
    else
      var a := accounts[|accounts| - 1];
      match FoldAccounts(m, name, accounts[..|accounts| - 1])
      case None => None
      case Some(m') =>
        if CompleteAccount(name, a)
        then Some(m'[a.id.value := AccountInfo(name.value, a.currency.value, a.ledgerAccountType.value)])
        else None
  }

  /** The outer loop: every participant's accounts, in order, over `m`. Keys are never dropped. */
  function FoldParticipants(m: AccountMap, ps: seq<LedgerParticipant>): (r: Option<AccountMap>)
    ensures r.Some? ==> m.Keys <= r.value.Keys
    decreases |ps|
  {
    if ps == [] then Some(m)
    else
      var p := ps[|ps| - 1];
      match FoldParticipants(m, ps[..|ps| - 1])
      case None => None
      case Some(m') =>
        if p.accounts.AccountsMalformed? then None else FoldAccounts(m', p.name, AccountsOf(p))
  }

  /** The account ids of all participants. */
  function AccountIds(ps: seq<LedgerParticipant>): set<Scalar>
  {
    set i, j | 0 <= i < |ps| && 0 <= j < |AccountsOf(ps[i])| && AccountsOf(ps[i])[j].id.Some? :: AccountsOf(ps[i])[j].id.value
  }

  /** v is the entry some account with id k of some participant would store. */
  predicate IsEntryFor(ps: seq<LedgerParticipant>, k: Scalar, v: AccountInfo)
  {
    exists i, j :: 0 <= i < |ps| && 0 <= j < |AccountsOf(ps[i])| &&
      CompleteAccount(ps[i].name, AccountsOf(ps[i])[j]) &&
      AccountsOf(ps[i])[j].id.value == k &&
      v == AccountInfo(ps[i].name.value, AccountsOf(ps[i])[j].currency.value, AccountsOf(ps[i])[j].ledgerAccountType.value)
  }

  /**
   * `build_account_to_participant_map`: the fold of every participant's
   * accounts into one map, later accounts overwriting earlier ones with the same
   * id; the empty map when the call failed, the status was not 200, or any step raised.
   */
  method BuildAccountToParticipantMap(reply: ParticipantsRead) returns (mapping: AccountMap)
    ensures !(reply.ParticipantsAnswered? && reply.statusCode == 200 && reply.body.ParticipantList?) ==> mapping == map[]
    ensures reply.ParticipantsAnswered? && reply.statusCode == 200 && reply.body.ParticipantList? ==>
      mapping == match FoldParticipants(map[], reply.body.participants)
                 case Some(m) => m
                 case None => map[]
  {
    if !(reply.ParticipantsAnswered? && reply.statusCode == 200 && reply.body.ParticipantList?) {
      return map[];
    }
    var participants := reply.body.participants;
    mapping := map[];
    var i := 0;
    while i < |participants|
      invariant 0 <= i <= |participants|
      invariant FoldParticipants(map[], participants[..i]) == Some(mapping)
    {
      var p := participants[i];
      assert participants[..i + 1][..i] == participants[..i];
      if p.accounts.AccountsMalformed? {
        assert FoldParticipants(map[], participants[..i + 1]) == None;
        FoldParticipantsStaysFailed(participants, i + 1);
        return map[];
      }
      var accounts := AccountsOf(p);
      ghost var before := mapping;
      var j := 0;
      while j < |accounts|
        invariant 0 <= j <= |accounts|
        invariant FoldAccounts(before, p.name, accounts[..j]) == Some(mapping)
      {
        var account := accounts[j];
        assert accounts[..j + 1][..j] == accounts[..j];
        if !CompleteAccount(p.name, account) {
          assert FoldAccounts(before, p.name, accounts[..j + 1]) == None;
          FoldAccountsStaysFailed(before, p.name, accounts, j + 1);
          assert accounts[..|accounts|] == accounts;
          assert participants[..i + 1][i] == p;
          assert FoldParticipants(map[], participants[..i + 1]) == None;
          FoldParticipantsStaysFailed(participants, i + 1);
          return map[];
        }
        mapping := mapping[account.id.value := AccountInfo(p.name.value, account.currency.value, account.ledgerAccountType.value)];
        j := j + 1;
      }
      assert accounts[..|accounts|] == accounts;
      assert participants[..i + 1][i] == p;
      i := i + 1;
    }
    assert participants[..|participants|] == participants;
  }

  /** Once the inner fold raised on a prefix, it raises on every longer prefix. */
  lemma {:induction false} FoldAccountsStaysFailed(m: AccountMap, name: Option<Scalar>, accounts: seq<LedgerAccount>, n: nat)
    requires n <= |accounts|
    requires FoldAccounts(m, name, accounts[..n]) == None
    ensures FoldAccounts(m, name, accounts) == None
    decreases |accounts| - n
  {
    if n < |accounts| {
      assert accounts[..n + 1][..n] == accounts[..n];
      FoldAccountsStaysFailed(m, name, accounts, n + 1);
    } else {
      assert accounts[..n] == accounts;
    }
  }

  /** Once the outer fold raised on a prefix, it raises on every longer prefix. */
  lemma {:induction false} FoldParticipantsStaysFailed(ps: seq<LedgerParticipant>, n: nat)
    requires n <= |ps|
    requires FoldParticipants(map[], ps[..n]) == None
    ensures FoldParticipants(map[], ps) == None
    decreases |ps| - n
  {
    if n < |ps| {
      assert ps[..n + 1][..n] == ps[..n];
      FoldParticipantsStaysFailed(ps, n + 1);
    } else {
      assert ps[..n] == ps;
    }
  }

  /** The ids of a list of accounts. */
  function IdsOf(accounts: seq<LedgerAccount>): set<Scalar>
  {
    set j | 0 <= j < |accounts| && accounts[j].id.Some? :: accounts[j].id.value
  }

  /** The ids of a list with one more account that has an id. */
  lemma IdsOfSnoc(init: seq<LedgerAccount>, a: LedgerAccount)
    requires a.id.Some?
    ensures IdsOf(init + [a]) == IdsOf(init) + {a.id.value}
  {
    var accounts := init + [a];
    forall x | x in IdsOf(accounts) ensures x in IdsOf(init) + {a.id.value} {
      var j :| 0 <= j < |accounts| && accounts[j].id.Some? && accounts[j].id.value == x;
      if j < |init| { assert init[j] == accounts[j]; }
    }
    forall x | x in IdsOf(init) ensures x in IdsOf(accounts) {
      var j :| 0 <= j < |init| && init[j].id.Some? && init[j].id.value == x;
      assert accounts[j] == init[j];
    }
    assert accounts[|init|] == a;
  }

  /** v is the entry account j of `accounts` would store under k. */
  predicate IsAccountEntry(name: Option<Scalar>, accounts: seq<LedgerAccount>, k: Scalar, v: AccountInfo)
  {
    exists j :: 0 <= j < |accounts| && CompleteAccount(name, accounts[j]) && accounts[j].id.value == k &&
      v == AccountInfo(name.value, accounts[j].currency.value, accounts[j].ledgerAccountType.value)
  }

  /**
   * The inner loop raises exactly when some account (or the name) misses a key;
   * otherwise it adds every account id, and each entry is either untouched or
   * the one some account stores.
   */
  lemma {:induction false} FoldAccountsMeaning(m: AccountMap, name: Option<Scalar>, accounts: seq<LedgerAccount>)
    ensures FoldAccounts(m, name, accounts).None? <==> exists j :: 0 <= j < |accounts| && !CompleteAccount(name, accounts[j])
    ensures FoldAccounts(m, name, accounts).Some? ==>
      var r := FoldAccounts(m, name, accounts).value;
      r.Keys == m.Keys + IdsOf(accounts) &&
      (forall k :: k in r ==> (k in m && r[k] == m[k]) || IsAccountEntry(name, accounts, k, r[k])) &&
      (forall k :: k in IdsOf(accounts) ==> IsAccountEntry(name, accounts, k, r[k]))
    decreases |accounts|
  {
    if accounts != [] {
      var n := |accounts| - 1;
      var init := accounts[..n];
      var a := accounts[n];
      assert accounts == init + [a];
      FoldAccountsMeaning(m, name, init);
      assert forall j :: 0 <= j < n ==> init[j] == accounts[j];
      if FoldAccounts(m, name, init).Some? && CompleteAccount(name, a) {
        FoldAccountsStep(m, name, init, a, FoldAccounts(m, name, init).value);
      }
    }
  }

  /** The inductive step of `FoldAccountsMeaning`: one more complete account stored over the map so far. */
  lemma FoldAccountsStep(m: AccountMap, name: Option<Scalar>, init: seq<LedgerAccount>, a: LedgerAccount, r0: AccountMap)
    requires CompleteAccount(name, a)
    requires r0.Keys == m.Keys + IdsOf(init)
    requires forall k :: k in r0 ==> (k in m && r0[k] == m[k]) || IsAccountEntry(name, init, k, r0[k])
    requires forall k :: k in IdsOf(init) ==> IsAccountEntry(name, init, k, r0[k])
    ensures var r := r0[a.id.value := AccountInfo(name.value, a.currency.value, a.ledgerAccountType.value)];
      var accounts := init + [a];
      r.Keys == m.Keys + IdsOf(accounts) &&
      (forall k :: k in r ==> (k in m && r[k] == m[k]) || IsAccountEntry(name, accounts, k, r[k])) &&
      (forall k :: k in IdsOf(accounts) ==> IsAccountEntry(name, accounts, k, r[k]))
  {
    var r := r0[a.id.value := AccountInfo(name.value, a.currency.value, a.ledgerAccountType.value)];
    var accounts := init + [a];
    var n := |init|;
    IdsOfSnoc(init, a);
    assert accounts[n] == a;
    forall k, v | IsAccountEntry(name, init, k, v) ensures IsAccountEntry(name, accounts, k, v) {
      var j :| 0 <= j < n && CompleteAccount(name, init[j]) && init[j].id.value == k &&
        v == AccountInfo(name.value, init[j].currency.value, init[j].ledgerAccountType.value);
      assert accounts[j] == init[j];
    }
    assert IsAccountEntry(name, accounts, a.id.value, r[a.id.value]);
  }

  /**
   * Later participants overwrite earlier ones: every id among the last
   * participant's accounts maps to an entry that one of its own accounts stores.
   */
  lemma LastParticipantWins(ps: seq<LedgerParticipant>, p: LedgerParticipant, k: Scalar)
    requires FoldParticipants(map[], ps + [p]).Some?
    requires k in IdsOf(AccountsOf(p))
    ensures k in FoldParticipants(map[], ps + [p]).value
    ensures IsAccountEntry(p.name, AccountsOf(p), k, FoldParticipants(map[], ps + [p]).value[k])
  {
    assert (ps + [p])[..|ps|] == ps;
    FoldAccountsMeaning(FoldParticipants(map[], ps).value, p.name, AccountsOf(p));
  }

  /**
   * The whole fold raises exactly when some participant is not well formed;
   * otherwise its keys are the account ids of all participants, and every entry
   * is one that an account of some participant stores.
   */
  lemma {:induction false} AccountMapMeaning(ps: seq<LedgerParticipant>)
    ensures FoldParticipants(map[], ps).None? <==> exists i :: 0 <= i < |ps| && !WellFormed(ps[i])
    ensures FoldParticipants(map[], ps).Some? ==>
      var r := FoldParticipants(map[], ps).value;
      r.Keys == AccountIds(ps) && forall k :: k in r ==> IsEntryFor(ps, k, r[k])
    decreases |ps|
  {
    if ps == [] {
      assert AccountIds(ps) == {};
    } else {
      var init := ps[..|ps| - 1];
      var p := ps[|ps| - 1];
      assert ps == init + [p];
      AccountMapMeaning(init);
      AccountMapSnoc(init, p);
    }
  }

  /** One more participant: the statement of `AccountMapMeaning` carries over from `init` to `init + [p]`. */
  lemma AccountMapSnoc(init: seq<LedgerParticipant>, p: LedgerParticipant)
    requires FoldParticipants(map[], init).None? <==> exists i :: 0 <= i < |init| && !WellFormed(init[i])
    requires FoldParticipants(map[], init).Some? ==>
      var r := FoldParticipants(map[], init).value;
      r.Keys == AccountIds(init) && forall k :: k in r ==> IsEntryFor(init, k, r[k])
    ensures FoldParticipants(map[], init + [p]).None? <==> exists i :: 0 <= i < |init + [p]| && !WellFormed((init + [p])[i])
    ensures FoldParticipants(map[], init + [p]).Some? ==>
      var r := FoldParticipants(map[], init + [p]).value;
      r.Keys == AccountIds(init + [p]) && forall k :: k in r ==> IsEntryFor(init + [p], k, r[k])
  {
    var ps := init + [p];
    var n := |init|;
    assert ps[..n] == init && ps[n] == p;
    if FoldParticipants(map[], init).Some? {
      var r0 := FoldParticipants(map[], init).value;
      FoldAccountsMeaning(r0, p.name, AccountsOf(p));
      if FoldParticipants(map[], ps).Some? {
        assert WellFormed(p);
        forall i | 0 <= i < |ps| ensures WellFormed(ps[i]) {
          if i < n { assert ps[i] == init[i]; }
        }
        AccountMapStep(init, p, r0);
      } else {
        assert !WellFormed(ps[n]);
      }
    } else {
      var i :| 0 <= i < n && !WellFormed(init[i]);
      assert ps[i] == init[i];
    }
  }

  /** The account ids of a list with one more participant. */
  lemma AccountIdsSnoc(init: seq<LedgerParticipant>, p: LedgerParticipant)
    ensures AccountIds(init + [p]) == AccountIds(init) + IdsOf(AccountsOf(p))
  {
    var ps := init + [p];
    var n := |init|;
    assert ps[n] == p;
    forall x | x in AccountIds(ps) ensures x in AccountIds(init) + IdsOf(AccountsOf(p)) {
      var i, j :| 0 <= i < |ps| && 0 <= j < |AccountsOf(ps[i])| && AccountsOf(ps[i])[j].id.Some? &&
        AccountsOf(ps[i])[j].id.value == x;
      if i < n { assert init[i] == ps[i]; }
    }
    forall x | x in AccountIds(init) ensures x in AccountIds(ps) {
      var i, j :| 0 <= i < n && 0 <= j < |AccountsOf(init[i])| && AccountsOf(init[i])[j].id.Some? &&
        AccountsOf(init[i])[j].id.value == x;
      assert ps[i] == init[i];
    }
    forall x | x in IdsOf(AccountsOf(p)) ensures x in AccountIds(ps) {
      var j :| 0 <= j < |AccountsOf(p)| && AccountsOf(p)[j].id.Some? && AccountsOf(p)[j].id.value == x;
    }
  }

  /** An entry some earlier participant's account stores is still one after another participant is appended. */
  lemma EntryForSnoc(init: seq<LedgerParticipant>, p: LedgerParticipant, k: Scalar, v: AccountInfo)
    requires IsEntryFor(init, k, v)
    ensures IsEntryFor(init + [p], k, v)
  {
    var ps := init + [p];
    var i, j :| 0 <= i < |init| && 0 <= j < |AccountsOf(init[i])| &&
      CompleteAccount(init[i].name, AccountsOf(init[i])[j]) &&
      AccountsOf(init[i])[j].id.value == k &&
      v == AccountInfo(init[i].name.value, AccountsOf(init[i])[j].currency.value, AccountsOf(init[i])[j].ledgerAccountType.value);
    assert ps[i] == init[i];
  }

  /** An entry one of the appended participant's own accounts stores is an entry of the longer list. */
  lemma OwnEntryIsEntryFor(init: seq<LedgerParticipant>, p: LedgerParticipant, k: Scalar, v: AccountInfo)
    requires IsAccountEntry(p.name, AccountsOf(p), k, v)
    ensures IsEntryFor(init + [p], k, v)
  {
    var ps := init + [p];
    assert ps[|init|] == p;
  }

  /** The inductive step of `AccountMapMeaning`: one more participant's accounts folded over the map so far. */
  lemma AccountMapStep(init: seq<LedgerParticipant>, p: LedgerParticipant, r0: AccountMap)
    requires r0.Keys == AccountIds(init) && forall k :: k in r0 ==> IsEntryFor(init, k, r0[k])
    requires FoldAccounts(r0, p.name, AccountsOf(p)).Some?
    ensures var r := FoldAccounts(r0, p.name, AccountsOf(p)).value;
      r.Keys == AccountIds(init + [p]) && forall k :: k in r ==> IsEntryFor(init + [p], k, r[k])
  {
    var r := FoldAccounts(r0, p.name, AccountsOf(p)).value;
    FoldAccountsMeaning(r0, p.name, AccountsOf(p));
    AccountIdsSnoc(init, p);
    forall k | k in r ensures IsEntryFor(init + [p], k, r[k]) {
      if k in r0 && r[k] == r0[k] {
        EntryForSnoc(init, p, k, r[k]);
      } else {
        OwnEntryIsEntryFor(init, p, k, r[k]);
      }
    }
  }
}
