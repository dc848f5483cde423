/**
 `createCampaign` under concurrency and replays (backend/src/services/campaignService.ts): any number of
 calls interleave, and any of them can fail or crash at every point.  The unique index on (user,
 idempotency key), where calls without a key never collide, is the guard.
 */
module Idempotency {
  import opened Wrappers
  import Schema

  type CallId = nat
  type CampaignId = Schema.CampaignId

  datatype Owner = Owner(user: int, key: Option<string>)

  datatype Pc =
    | ToFind
    | ToCommit
    | ToFindAgain
    | ToEnqueue(id: CampaignId)
    | Returned(id: CampaignId, deduplicated: bool)
    | Failed

  datatype Call = Call(owner: Owner, pc: Pc)

  /** `rowSets` records each committed batch of job rows by its campaign. */
  datatype State = State(campaigns: map<CampaignId, Owner>, rowSets: seq<CampaignId>, calls: map<CallId, Call>)

  const EMPTY := State(map[], [], map[])

  datatype Action =
    | Begin(call: CallId, owner: Owner)
    | Step(call: CallId, freshId: CampaignId)
    | Fail(call: CallId)

  predicate Matches(s: State, id: CampaignId, owner: Owner)
  {
    id in s.campaigns && s.campaigns[id] == owner
  }

  function Found(s: State, owner: Owner): set<CampaignId>
  {
    set id | id in s.campaigns && Matches(s, id, owner)
  }

  ghost function SetPc(s: State, c: CallId, pc: Pc): State
    requires c in s.calls
  {
    s.(calls := s.calls[c := s.calls[c].(pc := pc)])
  }

  /** `findByIdempotencyKey`: the campaign with this owner, if any. */
  ghost function Lookup(s: State, owner: Owner): (r: Option<CampaignId>)
    ensures r.Some? ==> Matches(s, r.value, owner)
    ensures r.None? ==> Found(s, owner) == {}
  {
    if Found(s, owner) == {} then None
    else
      var id :| id in Found(s, owner);
      Some(id)
  }

  ghost function CallStep(s: State, c: CallId, freshId: CampaignId): State
    requires c in s.calls
  {
    var owner := s.calls[c].owner;
    match s.calls[c].pc
    case ToFind =>
      // Without a key there is nothing to look up.
      var existing := if owner.key.Some? then Lookup(s, owner) else None;
      SetPc(s, c, if existing.Some? then Returned(existing.value, true) else ToCommit)
    case ToCommit =>
      // The transaction: campaign and rows together, or a unique violation.
      if owner.key.Some? && Found(s, owner) != {} then SetPc(s, c, ToFindAgain)
      else if freshId in s.campaigns then s
      else SetPc(s.(campaigns := s.campaigns[freshId := owner], rowSets := s.rowSets + [freshId]), c, ToEnqueue(freshId))
    case ToFindAgain =>
      var existing := Lookup(s, owner);
      SetPc(s, c, if existing.Some? then Returned(existing.value, true) else Failed)
    case ToEnqueue(id) => SetPc(s, c, Returned(id, false))
    case _ => s
  }

  ghost function Next(s: State, a: Action): State
  {
    match a
    case Begin(c, owner) => if c in s.calls then s else s.(calls := s.calls[c := Call(owner, ToFind)])
    case Step(c, freshId) => if c in s.calls then CallStep(s, c, freshId) else s
    case Fail(c) => if c in s.calls && !s.calls[c].pc.Returned? then SetPc(s, c, Failed) else s
  }

  ghost function Exec(s: State, trace: seq<Action>): State
    decreases |trace|
  {
    if trace == [] then s else Exec(Next(s, trace[0]), trace[1..])
  }

  // ---- The invariant ----------------------------------------------------------------------------

  /** The call committed campaign `id` itself. */
  predicate Committed(pc: Pc, id: CampaignId)
  {
    pc == ToEnqueue(id) || pc == Returned(id, false)
  }

  ghost predicate KeysAreUnique(s: State)
  {
    forall i, j :: i in s.campaigns && j in s.campaigns && s.campaigns[i] == s.campaigns[j] && s.campaigns[i].key.Some?
      ==> i == j
  }

  ghost predicate CallsAreRight(s: State)
  {
    forall c :: c in s.calls ==> CallIsRight(s, s.calls[c])
  }

  ghost predicate CallIsRight(s: State, call: Call)
  {
    match call.pc
    case ToEnqueue(id) => Matches(s, id, call.owner)
    case Returned(id, _) => Matches(s, id, call.owner)
    case ToFindAgain => exists id :: Matches(s, id, call.owner)
    case _ => true
  }

  lemma CallStaysRight(s: State, s': State, call: Call)
    requires CallIsRight(s, call)
    requires forall id :: id in s.campaigns ==> id in s'.campaigns && s'.campaigns[id] == s.campaigns[id]
    ensures CallIsRight(s', call)
  {
    if call.pc == ToFindAgain {
      var id :| Matches(s, id, call.owner);
      assert Matches(s', id, call.owner);
    }
  }

  lemma FoundSome(s: State, owner: Owner)
    requires Found(s, owner) != {}
    ensures exists id :: Matches(s, id, owner)
  {
    var id :| id in Found(s, owner);
  }

  ghost predicate CommitsAreOwn(s: State)
  {
    forall c, d, id :: c in s.calls && d in s.calls && Committed(s.calls[c].pc, id) && Committed(s.calls[d].pc, id)
      ==> c == d
  }

  ghost predicate RowsOnce(s: State)
  {
    && (forall i, j :: 0 <= i < j < |s.rowSets| ==> s.rowSets[i] != s.rowSets[j])
    && (forall id :: id in s.rowSets <==> id in s.campaigns)
  }

  ghost predicate Inv(s: State)
  {
    KeysAreUnique(s) && CallsAreRight(s) && CommitsAreOwn(s) && RowsOnce(s)
  }

  lemma FoundNone(s: State, owner: Owner)
    requires Found(s, owner) == {}
    ensures forall id :: id in s.campaigns ==> s.campaigns[id] != owner
  {
    forall id | id in s.campaigns
      ensures s.campaigns[id] != owner
    {
      assert id !in Found(s, owner);
    }
  }

  lemma CommitKeepsRest(s: State, c: CallId, id: CampaignId)
    requires Inv(s) && c in s.calls && s.calls[c].pc == ToCommit && id !in s.campaigns
    requires s.calls[c].owner.key.Some? ==> Found(s, s.calls[c].owner) == {}
    ensures var s' := SetPc(s.(campaigns := s.campaigns[id := s.calls[c].owner], rowSets := s.rowSets + [id]), c, ToEnqueue(id));
            KeysAreUnique(s') && CommitsAreOwn(s') && RowsOnce(s')
  {
    var owner := s.calls[c].owner;
    CommitKeepsKeys(s, SetPc(s.(campaigns := s.campaigns[id := owner], rowSets := s.rowSets + [id]), c, ToEnqueue(id)),
                    owner, id);
  }

  lemma CommitKeepsKeys(s: State, s': State, owner: Owner, id: CampaignId)
    requires KeysAreUnique(s) && id !in s.campaigns && (owner.key.Some? ==> Found(s, owner) == {})
    requires s'.campaigns == s.campaigns[id := owner]
    ensures KeysAreUnique(s')
  {
    if owner.key.Some? {
      FoundNone(s, owner);
    }
  }

  lemma NextKeepsCalls(s: State, a: Action)
    requires Inv(s)
    ensures CallsAreRight(Next(s, a))
  {
    var s' := Next(s, a);
    forall c | c in s'.calls
      ensures CallIsRight(s', s'.calls[c])
    {
      if c in s.calls && s'.calls[c] == s.calls[c] {
        CallStaysRight(s, s', s.calls[c]);
      } else if c in s.calls && s'.calls[c].pc == ToFindAgain {
        FoundSome(s, s.calls[c].owner);
        CallStaysRight(s, s', s'.calls[c]);
      }
    }
  }

  lemma NextKeepsInv(s: State, a: Action)
    requires Inv(s)
    ensures Inv(Next(s, a))
  {
    NextKeepsCalls(s, a);
    if a.Step? && a.call in s.calls && s.calls[a.call].pc == ToCommit && a.freshId !in s.campaigns
       && !(s.calls[a.call].owner.key.Some? && Found(s, s.calls[a.call].owner) != {})
    {
      CommitKeepsRest(s, a.call, a.freshId);
    }
  }

  lemma {:induction false} RunKeepsInv(s: State, trace: seq<Action>)
    requires Inv(s)
    ensures Inv(Exec(s, trace))
    decreases |trace|
  {
    if trace != [] {
      NextKeepsInv(s, trace[0]);
      RunKeepsInv(Next(s, trace[0]), trace[1..]);
    }
  }

  // ---- Results ----------------------------------------------------------------------------------

  predicate ReturnedFor(s: State, c: CallId, owner: Owner)
  {
    c in s.calls && s.calls[c].owner == owner && s.calls[c].pc.Returned?
  }

  predicate CreatedBy(s: State, c: CallId, owner: Owner)
  {
    ReturnedFor(s, c, owner) && !s.calls[c].pc.deduplicated
  }

  /**
   For one user and key, over any interleaving: at most one campaign is committed, with one set of
   rows; every call that returns, returns its id; at most one of them reports `deduplicated: false`.
   */
  lemma OneCampaignPerKey(trace: seq<Action>, user: int, key: string)
    ensures var s, owner := Exec(EMPTY, trace), Owner(user, Some(key));
            && (forall i, j :: Matches(s, i, owner) && Matches(s, j, owner) ==> i == j)
            && (forall i, j :: 0 <= i < j < |s.rowSets| && Matches(s, s.rowSets[i], owner) ==> s.rowSets[j] != s.rowSets[i])
            && (forall i :: Matches(s, i, owner) ==> i in s.rowSets)
            && (forall c :: ReturnedFor(s, c, owner) ==> Matches(s, s.calls[c].pc.id, owner))
            && (forall c, d :: ReturnedFor(s, c, owner) && ReturnedFor(s, d, owner) ==> s.calls[c].pc.id == s.calls[d].pc.id)
            && (forall c, d :: CreatedBy(s, c, owner) && CreatedBy(s, d, owner) ==> c == d)
  {
    RunKeepsInv(EMPTY, trace);
    var s := Exec(EMPTY, trace);
    forall c, d | CreatedBy(s, c, Owner(user, Some(key))) && CreatedBy(s, d, Owner(user, Some(key)))
      ensures c == d
    {
      assert Committed(s.calls[c].pc, s.calls[c].pc.id) && Committed(s.calls[d].pc, s.calls[c].pc.id);
    }
  }

  /** A call that lost the race always finds the winner: the unique violation never surfaces. */
  lemma LoserFindsWinner(trace: seq<Action>, c: CallId, freshId: CampaignId)
    requires c in Exec(EMPTY, trace).calls && Exec(EMPTY, trace).calls[c].pc == ToFindAgain
    ensures var pc := CallStep(Exec(EMPTY, trace), c, freshId).calls[c].pc;
            pc.Returned? && pc.deduplicated
  {
    RunKeepsInv(EMPTY, trace);
    var s := Exec(EMPTY, trace);
    var id :| Matches(s, id, s.calls[c].owner);
    assert id in Found(s, s.calls[c].owner);
  }
}
