/**
 Campaign creation (backend/src/services/campaignService.ts): recipients are normalised and deduplicated,
 planned and dealt round-robin to the senders, written in one transaction in chunks, then enqueued.
 `CreateCampaign` is one call, with other calls' transactions between its statements; any number of calls
 as a protocol, and what all of them keep, are the subject of `Idempotency`, of which the statements here
 are steps (`LookupIsStep`, `InsertIsStep`).

 Trimming and lower-casing are parameters, `Cleaner`.
 */
module CampaignService {
  import opened EmailQueue
  import opened Schema
  import opened Wrappers
  import Idempotency
  import PlanMeetsLimiter
  import Planner
  import RateLimiter
  import LimiterRefinement

  datatype Recipient = Recipient(email: string, name: Option<string>)

  datatype Cleaner = Cleaner(email: string -> string, name: string -> string)

  datatype PlannedRow = PlannedRow(senderId: string, toEmail: string, toName: Option<string>,
                                   sequenceNumber: nat, scheduledAt: int)

  /** The operator's limits that bound every campaign. */
  datatype Env = Env(minDelayMs: nat, maxEmailsPerHour: nat)

  datatype Input = Input(startAt: int, delayMs: nat, hourlyLimit: nat, recipients: seq<Recipient>,
                         senderIds: seq<string>, idempotencyKey: Option<string>)

  // ---- First occurrences -------------------------------------------------------------------------

  function KeysOf<T(==)>(items: seq<T>, key: T -> string): set<string>
  {
    set x | x in items :: key(x)
  }

  /** The items whose key has not occurred before, in their order. */
  function FirstOccurrences<T(==)>(items: seq<T>, key: T -> string): seq<T>
  {
    if items == [] then []
    else
      var before, last := items[..|items| - 1], items[|items| - 1];
      FirstOccurrences(before, key) + if key(last) in KeysOf(before, key) then [] else [last]
  }

  /** Positions `at` pick out `picked` from `items`: increasing, and each the first with its key. */
  ghost predicate PicksFirsts<T>(items: seq<T>, key: T -> string, picked: seq<T>, at: seq<nat>)
  {
    && |at| == |picked|
    && (forall i :: 0 <= i < |at| ==> at[i] < |items| && items[at[i]] == picked[i])
    && (forall i, j :: 0 <= i < j < |at| ==> at[i] < at[j])
    && (forall i, j :: 0 <= i < |at| && 0 <= j < at[i] ==> key(items[j]) != key(picked[i]))
  }

  /** `picked` holds exactly the first item of every key of `items`, in order. */
  ghost predicate AreFirsts<T>(items: seq<T>, key: T -> string, picked: seq<T>, at: seq<nat>)
  {
    && PicksFirsts(items, key, picked, at)
    && KeysOf(picked, key) == KeysOf(items, key)
    && forall i, j :: 0 <= i < j < |picked| ==> key(picked[i]) != key(picked[j])
  }

  lemma FirstsStep<T>(before: seq<T>, last: T, key: T -> string, picked: seq<T>, at: seq<nat>)
    requires AreFirsts(before, key, picked, at)
    ensures key(last) in KeysOf(before, key) ==> AreFirsts(before + [last], key, picked, at)
    ensures key(last) !in KeysOf(before, key) ==> AreFirsts(before + [last], key, picked + [last], at + [|before|])
  {
    KeysAppend(before, last, key);
    KeysAppend(picked, last, key);
    if key(last) in KeysOf(before, key) {
      OldFirsts(before, last, key, picked, at);
      assert KeysOf(before, key) + {key(last)} == KeysOf(before, key);
    } else {
      NewFirst(before, last, key, picked, at);
    }
  }

  lemma NoFirsts<T>(key: T -> string)
    ensures AreFirsts([], key, [], [])
  {
  }

  /**
   `FirstOccurrences` keeps exactly the first item of every key, in input order: no key twice, no
   key lost.
   */
  lemma {:induction false} FirstOccurrencesMeaning<T>(items: seq<T>, key: T -> string) returns (at: seq<nat>)
    ensures PicksFirsts(items, key, FirstOccurrences(items, key), at)
    ensures KeysOf(FirstOccurrences(items, key), key) == KeysOf(items, key)
    ensures forall i, j :: 0 <= i < j < |FirstOccurrences(items, key)| ==>
              key(FirstOccurrences(items, key)[i]) != key(FirstOccurrences(items, key)[j])
    decreases |items|
  {
    hide PicksFirsts, KeysOf;
    if items == [] {
      NoFirsts<T>(key);
      at := [];
    } else {
      var n := |items| - 1;
      var before, last := items[..n], items[n];
      at := FirstOccurrencesMeaning(before, key);
      FirstsStep(before, last, key, FirstOccurrences(before, key), at);
      assert items == before + [last];
      if key(last) in KeysOf(before, key) {
        assert FirstOccurrences(items, key) == FirstOccurrences(before, key);
      } else {
        at := at + [n];
      }
    }
  }

  lemma KeysAppend<T>(items: seq<T>, x: T, key: T -> string)
    ensures KeysOf(items + [x], key) == KeysOf(items, key) + {key(x)}
  {
    forall k
      ensures k in KeysOf(items + [x], key) <==> k in KeysOf(items, key) + {key(x)}
    {
      if k in KeysOf(items, key) {
        var y :| y in items && key(y) == k;
        assert y in items + [x];
      } else if k == key(x) {
        assert x in items + [x];
      }
    }
  }

  lemma OldFirsts<T>(before: seq<T>, last: T, key: T -> string, picked: seq<T>, at: seq<nat>)
    requires PicksFirsts(before, key, picked, at)
    ensures PicksFirsts(before + [last], key, picked, at)
  {
  }

  lemma NewFirst<T>(before: seq<T>, last: T, key: T -> string, picked: seq<T>, at: seq<nat>)
    requires PicksFirsts(before, key, picked, at) && key(last) !in KeysOf(before, key)
    ensures PicksFirsts(before + [last], key, picked + [last], at + [|before|])
    ensures forall i :: 0 <= i < |picked| ==> key(picked[i]) != key(last)
  {
    forall j | 0 <= j < |before|
      ensures key(before[j]) != key(last)
    {
      assert before[j] in before;
    }
  }

  // ---- Recipients and rows -----------------------------------------------------------------------

  function Normalised(r: Recipient, cleaner: Cleaner): Recipient
  {
    var trimmed := if r.name.Some? then cleaner.name(r.name.value) else "";
    Recipient(cleaner.email(r.email), if trimmed != "" then Some(trimmed) else None)
  }

  function AllNormalised(recipients: seq<Recipient>, cleaner: Cleaner): seq<Recipient>
  {
    seq(|recipients|, (i: nat) requires i < |recipients| => Normalised(recipients[i], cleaner))
  }

  function EmailOf(r: Recipient): string
  {
    r.email
  }

  function Contacts(input: Input, cleaner: Cleaner): seq<Recipient>
  {
    FirstOccurrences(AllNormalised(input.recipients, cleaner), EmailOf)
  }

  function Same(s: string): string
  {
    s
  }

  function Senders(input: Input): seq<string>
  {
    FirstOccurrences(input.senderIds, Same)
  }

  function EffectiveDelay(input: Input, env: Env): nat
  {
    if input.delayMs >= env.minDelayMs then input.delayMs else env.minDelayMs
  }

  function EffectiveLimit(input: Input, env: Env): nat
  {
    if input.hourlyLimit <= env.maxEmailsPerHour then input.hourlyLimit else env.maxEmailsPerHour
  }

  /** The bounds that the parsed request and the parsed environment guarantee. */
  predicate Parsed(input: Input, env: Env)
  {
    input.hourlyLimit >= 1 && env.maxEmailsPerHour >= 1 && input.recipients != [] && input.senderIds != []
  }

  function RowAt(contacts: seq<Recipient>, senders: seq<string>, startAt: int, delayMs: nat, limit: nat, n: nat): PlannedRow
    requires n < |contacts| && senders != [] && limit >= 1
  {
    PlannedRow(senders[n % |senders|], contacts[n].email, contacts[n].name, n,
               Planner.PlanSendTime(startAt, n, delayMs, limit).value)
  }

  function PlannedRows(input: Input, env: Env, cleaner: Cleaner): seq<PlannedRow>
    requires Parsed(input, env)
  {
    var contacts, senders := Contacts(input, cleaner), Senders(input);
    SomeSender(input);
    seq(|contacts|, (n: nat) requires n < |contacts| =>
      RowAt(contacts, senders, input.startAt, EffectiveDelay(input, env), EffectiveLimit(input, env), n))
  }

  lemma SomeSender(input: Input)
    requires input.senderIds != []
    ensures Senders(input) != []
  {
    var at := FirstOccurrencesMeaning(input.senderIds, Same);
    assert Same(input.senderIds[0]) in KeysOf(input.senderIds, Same);
  }

  // ---- What is committed --------------------------------------------------------------------------

  /** Contact `n` is the recipient at position `at`, cleaned, and no earlier one has its address. */
  ghost predicate IsContactOf(contact: Recipient, at: nat, recipients: seq<Recipient>, cleaner: Cleaner)
  {
    && at < |recipients|
    && contact.email == cleaner.email(recipients[at].email)
    && IsCleanedName(contact.name, recipients[at].name, cleaner)
    && forall i :: 0 <= i < at ==> cleaner.email(recipients[i].email) != contact.email
  }

  lemma ContactsFollowRecipients(input: Input, cleaner: Cleaner) returns (at: seq<nat>)
    ensures |at| == |Contacts(input, cleaner)|
    ensures forall m, n :: 0 <= m < n < |at| ==> at[m] < at[n]
    ensures forall n :: 0 <= n < |at| ==> IsContactOf(Contacts(input, cleaner)[n], at[n], input.recipients, cleaner)
  {
    var contacts, all := Contacts(input, cleaner), AllNormalised(input.recipients, cleaner);
    at := FirstOccurrencesMeaning(all, EmailOf);
    forall n | 0 <= n < |contacts|
      ensures IsContactOf(contacts[n], at[n], input.recipients, cleaner)
    {
      assert contacts[n] == all[at[n]] == Normalised(input.recipients[at[n]], cleaner);
      forall i | 0 <= i < at[n]
        ensures cleaner.email(input.recipients[i].email) != contacts[n].email
      {
        assert EmailOf(all[i]) != EmailOf(contacts[n]);
      }
    }
  }

  /**
   Row `n` is for the recipient at position `at[n]` of the request, the first with its cleaned address: the
   cleaned name comes along, or none when it is empty; the order is the request's, no address occurs twice,
   and none is lost.
   */
  lemma RowsFollowRecipients(input: Input, env: Env, cleaner: Cleaner) returns (at: seq<nat>)
    requires Parsed(input, env)
    ensures var rows := PlannedRows(input, env, cleaner);
            && |at| == |rows|
            && (forall m, n :: 0 <= m < n < |at| ==> at[m] < at[n])
            && (forall m, n :: 0 <= m < n < |rows| ==> rows[m].toEmail != rows[n].toEmail)
            && (forall n :: 0 <= n < |rows| ==> rows[n].sequenceNumber == n)
            && (forall n :: 0 <= n < |rows| ==>
                  IsContactOf(Recipient(rows[n].toEmail, rows[n].toName), at[n], input.recipients, cleaner))
            && (forall r :: r in input.recipients ==> exists n :: 0 <= n < |rows| && rows[n].toEmail == cleaner.email(r.email))
  {
    var contacts := Contacts(input, cleaner);
    at := ContactsFollowRecipients(input, cleaner);
    ContactsDiffer(input, cleaner);
    hide Contacts, IsContactOf;
    assert forall n :: 0 <= n < |contacts| ==> contacts[n] == Recipient(contacts[n].email, contacts[n].name);
    forall r | r in input.recipients
      ensures exists n :: 0 <= n < |contacts| && contacts[n].email == cleaner.email(r.email)
    {
      RecipientIsContacted(input, cleaner, r);
    }
  }

  /** The cleaned name, or none when there was none or nothing is left of it. */
  predicate IsCleanedName(stored: Option<string>, given: Option<string>, cleaner: Cleaner)
  {
    match stored
    case Some(name) => given.Some? && name == cleaner.name(given.value) && name != ""
    case None => given.Some? ==> cleaner.name(given.value) == ""
  }

  lemma ContactsDiffer(input: Input, cleaner: Cleaner)
    ensures var contacts := Contacts(input, cleaner);
            forall m, n :: 0 <= m < n < |contacts| ==> contacts[m].email != contacts[n].email
  {
    var at := FirstOccurrencesMeaning(AllNormalised(input.recipients, cleaner), EmailOf);
    var contacts := Contacts(input, cleaner);
    assert forall m, n :: 0 <= m < n < |contacts| ==> EmailOf(contacts[m]) != EmailOf(contacts[n]);
  }

  lemma RecipientIsContacted(input: Input, cleaner: Cleaner, r: Recipient)
    requires r in input.recipients
    ensures exists n :: 0 <= n < |Contacts(input, cleaner)| && Contacts(input, cleaner)[n].email == cleaner.email(r.email)
  {
    var all := AllNormalised(input.recipients, cleaner);
    var at := FirstOccurrencesMeaning(all, EmailOf);
    var i :| 0 <= i < |input.recipients| && input.recipients[i] == r;
    assert all[i] in all && EmailOf(all[i]) in KeysOf(all, EmailOf);
    var c :| c in Contacts(input, cleaner) && EmailOf(c) == cleaner.email(r.email);
  }

  function Times(rows: seq<PlannedRow>): seq<int>
  {
    seq(|rows|, (n: nat) requires n < |rows| => rows[n].scheduledAt)
  }

  /**
   The committed times are the least schedule under the tighter of the campaign's own limits and the
   operator's, and those are the limits stored with the campaign.
   */
  lemma RowsAreTheLeastSchedule(input: Input, env: Env, cleaner: Cleaner) returns (delayMs: nat, limit: nat)
    requires Parsed(input, env)
    ensures (delayMs == input.delayMs || delayMs == env.minDelayMs) && delayMs >= input.delayMs && delayMs >= env.minDelayMs
    ensures limit == input.hourlyLimit || limit == env.maxEmailsPerHour
    ensures limit <= input.hourlyLimit && limit <= env.maxEmailsPerHour
    ensures var times := Times(PlannedRows(input, env, cleaner));
            && Planner.IsSchedule(times, input.startAt, delayMs, limit)
            && forall others: seq<int> :: |others| == |times| && Planner.IsSchedule(others, input.startAt, delayMs, limit) ==>
                 forall n :: 0 <= n < |times| ==> times[n] <= others[n]
    ensures forall userId, count :: RecordOf(userId, input, env, count)
              == CampaignRecord(userId, input.idempotencyKey, input.startAt, delayMs, limit, count)
  {
    delayMs, limit := EffectiveDelay(input, env), EffectiveLimit(input, env);
    var rows := PlannedRows(input, env, cleaner);
    assert Times(rows) == Planner.Plan(input.startAt, |rows|, delayMs, limit);
    Planner.PlanIsLeastSchedule(input.startAt, |rows|, delayMs, limit);
  }

  function RowsOf(rows: seq<PlannedRow>, sender: string): nat
  {
    if rows == [] then 0
    else RowsOf(rows[..|rows| - 1], sender) + if rows[|rows| - 1].senderId == sender then 1 else 0
  }

  ghost predicate RoundRobin(rows: seq<PlannedRow>, senders: seq<string>)
    requires senders != []
  {
    forall n :: 0 <= n < |rows| ==> rows[n].senderId == senders[n % |senders|]
  }

  /** An even share of `n` rows among `k` senders: the first `n mod k` senders get one more. */
  function Share(n: nat, k: nat, a: nat): nat
    requires k >= 1
  {
    n / k + if a < n % k then 1 else 0
  }

  lemma NextShare(n: nat, k: nat, a: nat)
    requires a < k
    ensures Share(0, k, a) == 0
    ensures Share(n + 1, k, a) == Share(n, k, a) + if n % k == a then 1 else 0
  {
    Planner.DivModStep(n, k);
  }

  lemma RowOfSender(rows: seq<PlannedRow>, senders: seq<string>, n: nat, a: nat)
    requires n < |rows| && a < |senders| && PlanMeetsLimiter.Distinct(senders) && RoundRobin(rows, senders)
    ensures rows[n].senderId == senders[a] <==> n % |senders| == a
  {
  }

  /** Round-robin shares the rows out evenly. */
  lemma {:induction false} SharesAreEven(rows: seq<PlannedRow>, senders: seq<string>, a: nat)
    requires a < |senders| && PlanMeetsLimiter.Distinct(senders) && RoundRobin(rows, senders)
    ensures RowsOf(rows, senders[a]) == Share(|rows|, |senders|, a)
  {
    if rows == [] {
      NextShare(0, |senders|, a);
    } else {
      var n := |rows| - 1;
      SharesAreEven(rows[..n], senders, a);
      NextShare(n, |senders|, a);
      RowOfSender(rows, senders, n, a);
      hide Share;
    }
  }

  lemma SendersAreDistinct(input: Input)
    ensures PlanMeetsLimiter.Distinct(Senders(input))
  {
    var at := FirstOccurrencesMeaning(input.senderIds, Same);
    assert forall i, j :: 0 <= i < j < |Senders(input)| ==> Same(Senders(input)[i]) != Same(Senders(input)[j]);
  }

  /** No sender of a campaign gets two rows more than another. */
  lemma SendersDifferByAtMostOne(input: Input, env: Env, cleaner: Cleaner, a: nat, b: nat)
    requires Parsed(input, env) && a < |Senders(input)| && b < |Senders(input)|
    ensures var rows := PlannedRows(input, env, cleaner);
            -1 <= RowsOf(rows, Senders(input)[a]) - RowsOf(rows, Senders(input)[b]) <= 1
  {
    SendersAreDistinct(input);
    SharesAreEven(PlannedRows(input, env, cleaner), Senders(input), a);
    SharesAreEven(PlannedRows(input, env, cleaner), Senders(input), b);
  }

  /**
   A campaign created here, alone on its senders and fired on time, is never denied by the limiter,
   whatever other senders' calls come in between.
   */
  lemma CreatedCampaignIsNeverDenied(policy: RateLimiter.Policy, input: Input, env: Env, cleaner: Cleaner,
                                     c: PlanMeetsLimiter.Campaign, calls: seq<RateLimiter.Call>)
    requires Parsed(input, env) && policy.Faithful() && policy.minGapMs == env.minDelayMs && input.startAt >= 0
    requires c.senders == Senders(input) && c.senders != [] && |c.times| == |PlannedRows(input, env, cleaner)|
    requires forall n :: 0 <= n < |c.times| ==> c.times[n] == PlannedRows(input, env, cleaner)[n].scheduledAt
    requires forall s :: s in c.senders ==> EffectiveLimit(input, env) <= policy.Cap(s) * |c.senders|
    requires LimiterRefinement.OneClock(calls) && PlanMeetsLimiter.FiresAsPlanned(c, calls)
    ensures |LimiterRefinement.Decisions(policy, map[], calls)| == |calls|
    ensures forall p :: 0 <= p < |calls| && calls[p].sender in c.senders ==>
              LimiterRefinement.Decisions(policy, map[], calls)[p]
  {
    SendersAreDistinct(input);
    PlanMeetsLimiter.PlannedJobsAreNeverDenied(policy, c, input.startAt, EffectiveDelay(input, env),
                                               EffectiveLimit(input, env), calls);
  }

  // ---- The call itself ----------------------------------------------------------------------------

  datatype CampaignRecord = CampaignRecord(userId: int, idempotencyKey: Option<string>, startAt: int,
                                           delayMs: nat, hourlyLimit: nat, totalCount: nat)

  datatype JobRecord = JobRecord(id: JobId, campaign: CampaignId, row: PlannedRow)

  datatype Created = Created(id: CampaignId, deduplicated: bool)

  /** The transaction can also fail for a reason of its own, such as a lost connection, and so can the queue. */
  datatype CreateError = UnknownSenders(ids: seq<string>) | TransactionFailed | EnqueueFailed

  /** The rows as stored, with consecutive ids from `firstId`. */
  function Stored(campaign: CampaignId, firstId: JobId, rows: seq<PlannedRow>): seq<JobRecord>
  {
    seq(|rows|, (n: nat) requires n < |rows| => JobRecord(firstId + n, campaign, rows[n]))
  }

  function QueueJobs(records: seq<JobRecord>): seq<PlannedEmailJob>
  {
    seq(|records|, (n: nat) requires n < |records| => PlannedEmailJob(records[n].id, records[n].row.scheduledAt))
  }

  predicate OwnedWithKey(campaigns: map<CampaignId, CampaignRecord>, id: CampaignId, userId: int, key: string)
  {
    id in campaigns && campaigns[id].userId == userId && campaigns[id].idempotencyKey == Some(key)
  }

  ghost predicate KeyTaken(campaigns: map<CampaignId, CampaignRecord>, userId: int, key: Option<string>)
  {
    key.Some? && exists id :: OwnedWithKey(campaigns, id, userId, key.value)
  }

  function UnknownAmong(senders: seq<string>, active: set<string>): seq<string>
  {
    if senders == [] then []
    else UnknownAmong(senders[..|senders| - 1], active)
         + if senders[|senders| - 1] in active then [] else [senders[|senders| - 1]]
  }

  /** `ids` are picked from `requested` at increasing positions. */
  ghost predicate PickedInOrder(requested: seq<string>, ids: seq<string>, at: seq<nat>)
  {
    && |at| == |ids|
    && (forall i :: 0 <= i < |at| ==> at[i] < |requested| && requested[at[i]] == ids[i])
    && (forall i, j :: 0 <= i < j < |at| ==> at[i] < at[j])
  }

  /** Exactly the requested ids that are not active, each once, in the order of the request. */
  ghost predicate AreTheInactive(ids: seq<string>, requested: seq<string>, active: set<string>)
  {
    && (forall id :: id in ids <==> id in requested && id !in active)
    && (forall i, j :: 0 <= i < j < |ids| ==> ids[i] != ids[j])
    && exists at: seq<nat> :: PickedInOrder(requested, ids, at)
  }

  lemma {:induction false} UnknownArePicked(senders: seq<string>, active: set<string>) returns (at: seq<nat>)
    ensures PickedInOrder(senders, UnknownAmong(senders, active), at)
    ensures forall id :: id in UnknownAmong(senders, active) <==> id in senders && id !in active
    decreases |senders|
  {
    if senders == [] {
      at := [];
    } else {
      var n := |senders| - 1;
      at := UnknownArePicked(senders[..n], active);
      assert senders == senders[..n] + [senders[n]];
      if senders[n] !in active {
        at := at + [n];
      }
    }
  }

  lemma PickedTwice(a: seq<string>, b: seq<string>, c: seq<string>, ab: seq<nat>, bc: seq<nat>) returns (ac: seq<nat>)
    requires PickedInOrder(a, b, ab) && PickedInOrder(b, c, bc)
    ensures PickedInOrder(a, c, ac)
  {
    ac := seq(|bc|, i requires 0 <= i < |bc| => ab[bc[i]]);
  }

  lemma PickedOnce(senders: seq<string>, ids: seq<string>, at: seq<nat>)
    requires PickedInOrder(senders, ids, at) && PlanMeetsLimiter.Distinct(senders)
    ensures forall i, j :: 0 <= i < j < |ids| ==> ids[i] != ids[j]
  {
    forall i, j | 0 <= i < j < |ids|
      ensures ids[i] != ids[j]
    {
      assert senders[at[i]] != senders[at[j]];
    }
  }

  lemma UnknownAreTheInactive(input: Input, active: set<string>)
    ensures AreTheInactive(UnknownAmong(Senders(input), active), input.senderIds, active)
  {
    hide PickedInOrder, UnknownAmong, PicksFirsts;
    var ids, senders := UnknownAmong(Senders(input), active), Senders(input);
    var first := SendersArePicked(input);
    var second := UnknownArePicked(senders, active);
    var at := PickedTwice(input.senderIds, senders, ids, first, second);
    SendersAreDistinct(input);
    PickedOnce(senders, ids, second);
    SendersAreRequested(input);
  }

  lemma SendersArePicked(input: Input) returns (at: seq<nat>)
    ensures PickedInOrder(input.senderIds, Senders(input), at)
  {
    at := FirstOccurrencesMeaning(input.senderIds, Same);
  }

  lemma SendersAreRequested(input: Input)
    ensures forall id :: id in Senders(input) <==> id in input.senderIds
  {
    var first := FirstOccurrencesMeaning(input.senderIds, Same);
    forall id
      ensures id in Senders(input) <==> id in input.senderIds
    {
      assert id in KeysOf(Senders(input), Same) <==> id in Senders(input) by {
        if id in Senders(input) { assert Same(id) in KeysOf(Senders(input), Same); }
      }
      assert id in KeysOf(input.senderIds, Same) <==> id in input.senderIds by {
        if id in input.senderIds { assert Same(id) in KeysOf(input.senderIds, Same); }
      }
    }
  }

  lemma RowSendersAreRequested(input: Input, env: Env, cleaner: Cleaner)
    requires Parsed(input, env)
    ensures forall n :: 0 <= n < |PlannedRows(input, env, cleaner)| ==>
              PlannedRows(input, env, cleaner)[n].senderId in input.senderIds
  {
    SendersAreRequested(input);
    SomeSender(input);
    var rows, senders := PlannedRows(input, env, cleaner), Senders(input);
    forall n | 0 <= n < |rows|
      ensures rows[n].senderId in input.senderIds
    {
      assert rows[n].senderId == senders[n % |senders|];
    }
  }

  /** Each of the first `n` stored rows whose job was absent gets one that fires when the row is due. */
  lemma StoredRowsFire(jobs: Jobs, campaign: CampaignId, firstId: JobId, rows: seq<PlannedRow>, n: nat, now: int)
    requires n <= |rows|
    ensures var stored := Stored(campaign, firstId, rows);
            var after := AddedAll(jobs, QueueJobs(stored)[..n], now);
            && (forall k :: 0 <= k < n ==> stored[k].id in after)
            && (forall k :: 0 <= k < |rows| && stored[k].id in after && stored[k].id !in jobs ==>
                  now + after[stored[k].id] == if rows[k].scheduledAt > now then rows[k].scheduledAt else now)
  {
    var stored := Stored(campaign, firstId, rows);
    var planned := QueueJobs(stored)[..n];
    EnqueuedFires(jobs, planned, now);
    forall k | 0 <= k < n
      ensures planned[k] == PlannedEmailJob(firstId + k, rows[k].scheduledAt)
      ensures stored[k].id !in jobs ==> IsFirstMention(jobs, planned, k)
    {
    }
    hide QueueJobs, AddedAll;
  }

  // How many rows one insert statement carries.
  const INSERT_CHUNK_SIZE := 5000

  function RecordOf(userId: int, input: Input, env: Env, count: nat): CampaignRecord
  {
    CampaignRecord(userId, input.idempotencyKey, input.startAt, EffectiveDelay(input, env), EffectiveLimit(input, env), count)
  }

  /** Another call's creation, as it reaches the database. */
  datatype Creation = Creation(record: CampaignRecord, rows: seq<PlannedRow>)

  ghost predicate Extends(campaigns: map<CampaignId, CampaignRecord>, more: map<CampaignId, CampaignRecord>)
  {
    forall id :: id in campaigns ==> id in more && more[id] == campaigns[id]
  }

  predicate SameKey(a: CampaignRecord, b: CampaignRecord)
  {
    a.idempotencyKey.Some? && a.idempotencyKey == b.idempotencyKey && a.userId == b.userId
  }

  /** The answer of a lookup by user and key. */
  ghost predicate IsLookup(campaigns: map<CampaignId, CampaignRecord>, userId: int, key: string, found: Option<CampaignId>)
  {
    && (found.Some? ==> OwnedWithKey(campaigns, found.value, userId, key))
    && (found.None? ==> forall id :: !OwnedWithKey(campaigns, id, userId, key))
  }

  /** The campaigns before and after an insert: one more, or a unique violation that changes nothing. */
  ghost predicate IsInsert(campaigns: map<CampaignId, CampaignRecord>, campaigns': map<CampaignId, CampaignRecord>,
                           record: CampaignRecord, created: Option<CampaignId>)
  {
    && (created.None? <==> KeyTaken(campaigns, record.userId, record.idempotencyKey))
    && (created.None? ==> campaigns' == campaigns)
    && (created.Some? ==> created.value !in campaigns && campaigns' == campaigns[created.value := record])
  }

  class Database {
    const queue: Queue
    const activeSenders: set<string>
    var campaigns: map<CampaignId, CampaignRecord>
    var nextCampaign: CampaignId
    var jobs: seq<JobRecord>

    constructor (queue: Queue, activeSenders: set<string>)
      ensures Valid() && campaigns == map[] && jobs == []
      ensures this.queue == queue && this.activeSenders == activeSenders
    {
      this.queue, this.activeSenders := queue, activeSenders;
      campaigns, nextCampaign, jobs := map[], 0, [];
    }

    /** Ids are handed out upwards, and the unique index on user and key holds. */
    ghost predicate Valid()
      reads this
    {
      && (forall id :: id in campaigns ==> id < nextCampaign)
      && (forall i, j :: i in campaigns && j in campaigns && SameKey(campaigns[i], campaigns[j]) ==> i == j)
    }

    method FindByIdempotencyKey(userId: int, key: string) returns (found: Option<CampaignId>)
      ensures IsLookup(campaigns, userId, key, found)
    {
      var matching := set id | id in campaigns && OwnedWithKey(campaigns, id, userId, key);
      if matching == {} {
        found := None;
        forall id ensures !OwnedWithKey(campaigns, id, userId, key) {
          assert id !in matching;
        }
      } else {
        var id :| id in matching;
        found := Some(id);
      }
    }

    method FindUnknownSenders(senders: seq<string>) returns (missing: seq<string>)
      ensures missing == UnknownAmong(senders, activeSenders)
    {
      missing := [];
      for i := 0 to |senders|
        invariant missing == UnknownAmong(senders[..i], activeSenders)
      {
        assert senders[..i + 1][..i] == senders[..i];
        if senders[i] !in activeSenders {
          missing := missing + [senders[i]];
        }
      }
      assert senders[..|senders|] == senders;
    }

    /** Normalise each recipient, and keep those whose address has not been seen. */
    method CollectContacts(input: Input, cleaner: Cleaner) returns (contacts: seq<Recipient>)
      ensures contacts == Contacts(input, cleaner)
    {
      ghost var all := AllNormalised(input.recipients, cleaner);
      var seen: set<string> := {};
      contacts := [];
      for i := 0 to |input.recipients|
        invariant contacts == FirstOccurrences(all[..i], EmailOf)
        invariant seen == KeysOf(all[..i], EmailOf)
      {
        var contact := Normalised(input.recipients[i], cleaner);
        assert all[..i + 1] == all[..i] + [contact] && all[..i + 1][..i] == all[..i];
        KeysAppend(all[..i], contact, EmailOf);
        if contact.email !in seen {
          seen := seen + {contact.email};
          contacts := contacts + [contact];
        } else {
          assert seen + {contact.email} == seen;
        }
      }
      assert all[..|input.recipients|] == all;
    }

    /** The inserts of one transaction: the chunks add up to all rows, in order. */
    method InsertRows(campaign: CampaignId, rows: seq<PlannedRow>)
      modifies this`jobs
      ensures jobs == old(jobs) + Stored(campaign, |old(jobs)|, rows)
    {
      var i := 0;
      assert Stored(campaign, |jobs|, rows[..0]) == [];
      while i < |rows|
        invariant 0 <= i
        invariant jobs == old(jobs) + Stored(campaign, |old(jobs)|, rows[..if i < |rows| then i else |rows|])
      {
        var end := if i + INSERT_CHUNK_SIZE < |rows| then i + INSERT_CHUNK_SIZE else |rows|;
        StoredInChunks(campaign, |old(jobs)|, rows[..end], i);
        assert rows[..end][..i] == rows[..i] && rows[..end][i..] == rows[i..end];
        jobs := jobs + Stored(campaign, |jobs|, rows[i..end]);
        i := i + INSERT_CHUNK_SIZE;
      }
      assert rows[..|rows|] == rows;
    }

    /** One campaign with all its rows, or a unique violation that changes nothing. */
    method Insert(record: CampaignRecord, rows: seq<PlannedRow>) returns (created: Option<CampaignId>)
      requires Valid()
      modifies this`campaigns, this`jobs, this`nextCampaign
      ensures Valid()
      ensures IsInsert(old(campaigns), campaigns, record, created)
      ensures jobs == old(jobs) + if created.Some? then Stored(created.value, |old(jobs)|, rows) else []
    {
      if record.idempotencyKey.Some? {
        var existing := FindByIdempotencyKey(record.userId, record.idempotencyKey.value);
        if existing.Some? {
          return None;
        }
        assert forall id :: id in campaigns ==> !OwnedWithKey(campaigns, id, record.userId, record.idempotencyKey.value);
      }
      var id := nextCampaign;
      campaigns := campaigns[id := record];
      nextCampaign := nextCampaign + 1;
      InsertRows(id, rows);
      created := Some(id);
    }

    /** Other calls' transactions. */
    method OthersCreate(others: seq<Creation>)
      requires Valid()
      modifies this`campaigns, this`jobs, this`nextCampaign
      ensures Valid() && Extends(old(campaigns), campaigns) && old(jobs) <= jobs
    {
      for i := 0 to |others|
        invariant Valid() && Extends(old(campaigns), campaigns) && old(jobs) <= jobs
      {
        var created := Insert(others[i].record, others[i].rows);
      }
    }

    /** Look the key up, and check the senders. */
    method CheckRequest(userId: int, input: Input) returns (answer: Option<Result<Created, CreateError>>)
      ensures match answer
              case None =>
                !KeyTaken(campaigns, userId, input.idempotencyKey) && forall id :: id in input.senderIds ==> id in activeSenders
              case Some(Ok(c)) =>
                input.idempotencyKey.Some? && c.deduplicated && OwnedWithKey(campaigns, c.id, userId, input.idempotencyKey.value)
              case Some(Err(e)) =>
                && !KeyTaken(campaigns, userId, input.idempotencyKey)
                && e.UnknownSenders? && AreTheInactive(e.ids, input.senderIds, activeSenders)
                && exists id :: id in input.senderIds && id !in activeSenders
    {
      if input.idempotencyKey.Some? {
        var existing := FindByIdempotencyKey(userId, input.idempotencyKey.value);
        if existing.Some? {
          return Some(Ok(Created(existing.value, true)));
        }
      }
      var missing := FindUnknownSenders(Senders(input));
      UnknownAreTheInactive(input, activeSenders);
      if |missing| > 0 {
        assert missing[0] in missing;
        return Some(Err(UnknownSenders(missing)));
      }
      answer := None;
    }

    /** Normalise, deduplicate and plan. */
    method PlanRows(input: Input, env: Env, cleaner: Cleaner) returns (rows: seq<PlannedRow>)
      requires Parsed(input, env)
      ensures rows == PlannedRows(input, env, cleaner)
    {
      SomeSender(input);
      var senders := Senders(input);
      var contacts := CollectContacts(input, cleaner);
      var delayMs, limit := EffectiveDelay(input, env), EffectiveLimit(input, env);
      rows := seq(|contacts|, (n: nat) requires n < |contacts| =>
        RowAt(contacts, senders, input.startAt, delayMs, limit, n));
    }

    /**
     One call, with other calls' transactions between its checks and its own, which may fail, and with
     enqueueing that may fail after `pushed` jobs.  `before` is what its transaction finds, `committed` the
     campaign it commits, if any.  A known key, or one that another call took meanwhile, returns that
     campaign; unknown senders are refused; a failed transaction leaves nothing; otherwise one campaign with
     all its rows, each from an active sender, is added to `before`, and every row gets a queue job that fires
     when the row is due, or the first `pushed` of them do.
     */
    method CreateCampaign(userId: int, input: Input, env: Env, cleaner: Cleaner, now: int,
                          others: seq<Creation>, fails: bool, pushed: Option<nat>)
      returns (result: Result<Created, CreateError>, ghost committed: Option<CampaignId>,
               ghost before: (map<CampaignId, CampaignRecord>, seq<JobRecord>))
      requires Valid() && Parsed(input, env)
      modifies this, queue
      ensures Valid() && Extends(old(campaigns), before.0) && old(jobs) <= before.1
      ensures (result.Err? && result.error.UnknownSenders?) <==>
                !KeyTaken(old(campaigns), userId, input.idempotencyKey)
                && exists id :: id in input.senderIds && id !in activeSenders
      ensures result.Err? && result.error.UnknownSenders? ==>
                committed.None? && AreTheInactive(result.error.ids, input.senderIds, activeSenders)
      ensures KeyTaken(old(campaigns), userId, input.idempotencyKey) ==> result.Ok? && result.value.deduplicated
      ensures KeyTaken(before.0, userId, input.idempotencyKey) ==> committed.None?
      ensures Answers(userId, input, result, committed, fails)
      ensures committed.Some? ==>
                (result.Err? <==> pushed.Some? && pushed.value < |PlannedRows(input, env, cleaner)|)
      ensures committed.None? ==> campaigns == before.0 && jobs == before.1 && queue.jobs == old(queue.jobs)
      ensures committed.Some? ==>
                var rows := PlannedRows(input, env, cleaner);
                var stored := Stored(committed.value, |before.1|, rows);
                && committed.value !in before.0
                && campaigns == before.0[committed.value := RecordOf(userId, input, env, |rows|)]
                && jobs == before.1 + stored
                && queue.jobs == AddedAll(old(queue.jobs), QueueJobs(stored)[..Pushed(result, stored, pushed)], now)
      ensures committed.Some? ==> forall k :: |before.1| <= k < |jobs| ==>
                jobs[k].campaign == committed.value && jobs[k].row.senderId in activeSenders
      ensures result.Ok? && committed.Some? ==> forall k :: |before.1| <= k < |jobs| ==> jobs[k].id in queue.jobs
      ensures committed.Some? ==> forall k :: |before.1| <= k < |jobs| && jobs[k].id in queue.jobs
                                              && jobs[k].id !in old(queue.jobs) ==>
                now + queue.jobs[jobs[k].id] == if jobs[k].row.scheduledAt > now then jobs[k].row.scheduledAt else now
    {
      hide PlannedRows, RecordOf, QueueJobs, AddedAll, Stored, AreTheInactive;
      before, committed := (campaigns, jobs), None;
      var answer := CheckRequest(userId, input);
      if answer.Some? {
        return answer.value, None, before;
      }
      var rows := PlanRows(input, env, cleaner);
      OthersCreate(others);
      before := (campaigns, jobs);
      result, committed := Transact(userId, input, env, rows, now, fails, pushed);
      RowSendersAreRequested(input, env, cleaner);
    }

    /** How the answer goes with what the call committed. */
    ghost predicate Answers(userId: int, input: Input, result: Result<Created, CreateError>,
                            committed: Option<CampaignId>, fails: bool)
      reads this
    {
      match result
      case Ok(c) =>
        if c.deduplicated
        then committed.None? && input.idempotencyKey.Some? && OwnedWithKey(campaigns, c.id, userId, input.idempotencyKey.value)
        else committed == Some(c.id) && !fails
      case Err(UnknownSenders(_)) => true
      case Err(TransactionFailed) => committed.None? && fails
      case Err(EnqueueFailed) => committed.Some? && !fails
    }

    /** The transaction; after a unique violation the winner is looked up, after a commit the queue is filled. */
    method Transact(userId: int, input: Input, env: Env, rows: seq<PlannedRow>, now: int, fails: bool, pushed: Option<nat>)
      returns (result: Result<Created, CreateError>, ghost committed: Option<CampaignId>)
      requires Valid() && Parsed(input, env)
      modifies this, queue
      ensures Valid() && Answers(userId, input, result, committed, fails)
      ensures result.Err? ==> !result.error.UnknownSenders?
      ensures committed.None? <==> fails || KeyTaken(old(campaigns), userId, input.idempotencyKey)
      ensures committed.Some? ==> (result.Err? <==> pushed.Some? && pushed.value < |rows|)
      ensures committed.None? ==> campaigns == old(campaigns) && jobs == old(jobs) && queue.jobs == old(queue.jobs)
      ensures committed.Some? ==>
                var stored := Stored(committed.value, |old(jobs)|, rows);
                && committed.value !in old(campaigns)
                && campaigns == old(campaigns)[committed.value := RecordOf(userId, input, env, |rows|)]
                && jobs == old(jobs) + stored
                && queue.jobs == AddedAll(old(queue.jobs), QueueJobs(stored)[..Pushed(result, stored, pushed)], now)
      ensures committed.Some? ==>
                && |jobs| == |old(jobs)| + |rows|
                && forall k :: |old(jobs)| <= k < |jobs| ==>
                     jobs[k].campaign == committed.value && jobs[k].row == rows[k - |old(jobs)|]
      ensures result.Ok? && committed.Some? ==> forall k :: |old(jobs)| <= k < |jobs| ==> jobs[k].id in queue.jobs
      ensures committed.Some? ==> forall k :: |old(jobs)| <= k < |jobs| && jobs[k].id in queue.jobs
                                              && jobs[k].id !in old(queue.jobs) ==>
                now + queue.jobs[jobs[k].id] == if jobs[k].row.scheduledAt > now then jobs[k].row.scheduledAt else now
    {
      committed := None;
      if fails {
        return Err(TransactionFailed), None;
      }
      var first := |jobs|;
      var created := Insert(RecordOf(userId, input, env, |rows|), rows);
      if created.None? {
        var winner := FindByIdempotencyKey(userId, input.idempotencyKey.value);
        return Ok(Created(winner.value, true)), None;
      }
      committed := created;
      assert jobs[first..] == Stored(created.value, first, rows);
      var done := EnqueueRows(created.value, first, rows, now, pushed);
      result := if done then Ok(Created(created.value, false)) else Err(EnqueueFailed);
    }

    /** The rows just stored get their queue jobs, or the first `pushed` of them do. */
    method EnqueueRows(campaign: CampaignId, first: nat, ghost rows: seq<PlannedRow>, now: int, pushed: Option<nat>)
      returns (done: bool)
      requires first <= |jobs| && jobs[first..] == Stored(campaign, first, rows)
      modifies queue
      ensures done <==> !(pushed.Some? && pushed.value < |rows|)
      ensures var n := if done then |rows| else pushed.value;
              queue.jobs == AddedAll(old(queue.jobs), QueueJobs(Stored(campaign, first, rows))[..n], now)
      ensures done ==> forall k :: first <= k < |jobs| ==> jobs[k].id in queue.jobs
      ensures forall k :: first <= k < |jobs| && jobs[k].id in queue.jobs && jobs[k].id !in old(queue.jobs) ==>
                now + queue.jobs[jobs[k].id] == if jobs[k].row.scheduledAt > now then jobs[k].row.scheduledAt else now
    {
      var planned := QueueJobs(jobs[first..]);
      done := !(pushed.Some? && pushed.value < |planned|);
      var n := if done then |planned| else pushed.value;
      StoredRowsFire(queue.jobs, campaign, first, rows, n, now);
      assert forall k :: first <= k < |jobs| ==> jobs[k] == jobs[first..][k - first];
      queue.EnqueueEmailJobs(planned[..n], now);
    }
  }

  /** How many of the rows stored get a queue job: all, unless the enqueueing fails. */
  ghost function Pushed(result: Result<Created, CreateError>, stored: seq<JobRecord>, pushed: Option<nat>): (n: nat)
    ensures n <= |stored|
    ensures result.Ok? ==> n == |stored|
  {
    if result.Err? && pushed.Some? && pushed.value < |stored| then pushed.value else |stored|
  }

  /** After a failed enqueueing, enqueueing the campaign's rows again gives every one of them its queue job. */
  lemma EnqueueingIsCompleted(jobs: Jobs, stored: seq<JobRecord>, n: nat, now: int, later: int)
    requires n <= |stored|
    ensures var partial := AddedAll(jobs, QueueJobs(stored)[..n], now);
            var repaired := AddedAll(partial, QueueJobs(stored), later);
            && (forall i :: 0 <= i < |stored| ==> stored[i].id in repaired)
            && (forall id :: id in partial ==> id in repaired && repaired[id] == partial[id])
  {
    var planned := QueueJobs(stored);
    EnqueueIsRepeatable(jobs, planned, n, now, later);
    AddedAllKeys(jobs, planned, now);
    IdsAre(planned);
    forall i | 0 <= i < |stored|
      ensures stored[i].id in Ids(planned)
    {
      assert planned[i].emailJobId == stored[i].id;
    }
  }

  lemma StoredInChunks(campaign: CampaignId, firstId: JobId, rows: seq<PlannedRow>, n: nat)
    requires n <= |rows|
    ensures Stored(campaign, firstId, rows)
         == Stored(campaign, firstId, rows[..n]) + Stored(campaign, firstId + n, rows[n..])
  {
  }

  // ---- The statements are steps of the protocol -----------------------------------------------------

  /** The campaigns as the protocol of concurrent calls sees them. */
  function Owners(campaigns: map<CampaignId, CampaignRecord>): map<CampaignId, Idempotency.Owner>
  {
    map id | id in campaigns :: Idempotency.Owner(campaigns[id].userId, campaigns[id].idempotencyKey)
  }

  /** Both lookups of a key, before the transaction and after a unique violation, are steps of the call. */
  lemma LookupIsStep(s: Idempotency.State, call: Idempotency.CallId, campaigns: map<CampaignId, CampaignRecord>,
                     userId: int, key: string, found: Option<CampaignId>, freshId: CampaignId)
    requires s.campaigns == Owners(campaigns) && Idempotency.KeysAreUnique(s) && IsLookup(campaigns, userId, key, found)
    requires call in s.calls && s.calls[call].owner == Idempotency.Owner(userId, Some(key))
    requires s.calls[call].pc.ToFind? || s.calls[call].pc.ToFindAgain?
    ensures Idempotency.CallStep(s, call, freshId)
         == Idempotency.SetPc(s, call, if found.Some? then Idempotency.Returned(found.value, true)
                                       else if s.calls[call].pc.ToFind? then Idempotency.ToCommit else Idempotency.Failed)
  {
    var owner := s.calls[call].owner;
    if found.Some? {
      assert Idempotency.Matches(s, found.value, owner);
      assert found.value in Idempotency.Found(s, owner);
    } else {
      assert forall id :: id in s.campaigns ==> !OwnedWithKey(campaigns, id, userId, key);
      assert Idempotency.Found(s, owner) == {};
    }
  }

  /** The transaction is the commit step of the call, with the id it was given. */
  lemma InsertIsStep(s: Idempotency.State, call: Idempotency.CallId, campaigns: map<CampaignId, CampaignRecord>,
                     campaigns': map<CampaignId, CampaignRecord>, record: CampaignRecord, created: Option<CampaignId>,
                     freshId: CampaignId)
    requires s.campaigns == Owners(campaigns) && IsInsert(campaigns, campaigns', record, created)
    requires call in s.calls && s.calls[call].pc.ToCommit? && (created.Some? ==> freshId == created.value)
    requires s.calls[call].owner == Idempotency.Owner(record.userId, record.idempotencyKey)
    ensures var s' := Idempotency.CallStep(s, call, freshId);
            && s'.campaigns == Owners(campaigns')
            && call in s'.calls
            && s'.calls[call].pc == if created.Some? then Idempotency.ToEnqueue(created.value) else Idempotency.ToFindAgain
  {
    var owner := s.calls[call].owner;
    if created.None? {
      var id :| OwnedWithKey(campaigns, id, record.userId, record.idempotencyKey.value);
      assert id in Idempotency.Found(s, owner);
    } else if owner.key.Some? {
      assert forall id :: id in s.campaigns ==> !OwnedWithKey(campaigns, id, record.userId, owner.key.value);
      assert Idempotency.Found(s, owner) == {};
    }
  }
}
