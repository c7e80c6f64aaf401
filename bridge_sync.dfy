/**
 * The scheduling side of the bridge sync component: `useSync`'s `schedule` and
 * its action handlers over the sync queue, the background tick, the
 * pending-operations re-scheduler, and the once-per-currency hydration.
 *
 * A caller's priority `p` is stored in the queue as the key `-p`, so larger
 * priorities are dispatched first.
 */
module BridgeSync {
  import opened Wrappers
  import opened StableOrder
  import opened Accounts
  import opened SyncQueue

  /** The priority of background syncs, and the initial (no pause) threshold. */
  const BackgroundPriority := -1
  /** The priority at which accounts with pending operations are re-synced. */
  const PendingOperationsPriority := 20

  /** The caller priority an entry was scheduled with. */
  function CallerPriority(e: Entry): int { -e.key }

  /** Dedup rule: the queued entries scheduled at the caller's priority. */
  function SamePriority(priority: int): Entry -> bool {
    e => CallerPriority(e) == priority
  }

  /** Eviction rule: the queued entries scheduled below the threshold. */
  function BelowThreshold(threshold: int): Entry -> bool {
    e => CallerPriority(e) < threshold
  }

  /** The queue after `schedule(ids, priority)` under the threshold `threshold`. */
  function Scheduled(entries: seq<Entry>, threshold: int, ids: seq<AccountId>, priority: int): seq<Entry> {
    if priority < threshold then entries
    else Pushed(Without(entries, SamePriority(priority)), ids, -priority)
  }

  lemma {:induction false} OfRankWithoutSamePriority(s: seq<Entry>, priority: int, k: int)
    ensures OfRank(Without(s, SamePriority(priority)), KeyOf, k) == if k == -priority then [] else OfRank(s, KeyOf, k)
  {
    if s != [] {
      OfRankWithoutSamePriority(s[1..], priority, k);
      var head := if SamePriority(priority)(s[0]) then [] else [s[0]];
      OfRankAppend(head, Without(s[1..], SamePriority(priority)), KeyOf, k);
    }
  }

  /**
   * Dedup then push: after a schedule that passes the gate, the entries queued
   * at that priority are exactly the new batch, in the order of `ids`, and the
   * entries of every other priority are those queued before, in the same order.
   */
  lemma {:induction false} ScheduledReplacesSamePriority(entries: seq<Entry>, threshold: int, ids: seq<AccountId>, priority: int, k: int)
    requires priority >= threshold
    ensures OfRank(Scheduled(entries, threshold, ids, priority), KeyOf, k)
         == if k == -priority then Batch(ids, -priority) else OfRank(entries, KeyOf, k)
  {
    var key := -priority;
    ScheduledAdmitted(entries, threshold, ids, priority, key);
    if k == key {
      DedupPushOwnGroup(entries, ids, priority, k);
    } else {
      DedupPushOtherGroup(entries, ids, priority, key, k);
    }
  }

  lemma DedupPushOwnGroup(entries: seq<Entry>, ids: seq<AccountId>, priority: int, k: int)
    requires k == -priority
    ensures OfRank(Pushed(Without(entries, SamePriority(priority)), ids, k), KeyOf, k) == Batch(ids, k)
  {
    var kept := Without(entries, SamePriority(priority));
    PushedOfRank(kept, ids, k, k);
    OfRankWithoutSamePriority(entries, priority, k);
    assert [] + Batch(ids, k) == Batch(ids, k);
  }

  lemma DedupPushOtherGroup(entries: seq<Entry>, ids: seq<AccountId>, priority: int, key: int, k: int)
    requires key == -priority && k != key
    ensures OfRank(Pushed(Without(entries, SamePriority(priority)), ids, key), KeyOf, k) == OfRank(entries, KeyOf, k)
  {
    var kept := Without(entries, SamePriority(priority));
    PushedOfRank(kept, ids, key, k);
    assert OfRank(Pushed(kept, ids, key), KeyOf, k) == OfRank(kept, KeyOf, k) + [];
    OfRankWithoutSamePriority(entries, priority, k);
    assert OfRank(kept, KeyOf, k) == OfRank(entries, KeyOf, k);
  }

  /** A schedule that passes the gate drops the same-priority entries, then pushes. */
  lemma ScheduledAdmitted(entries: seq<Entry>, threshold: int, ids: seq<AccountId>, priority: int, key: int)
    requires priority >= threshold && key == -priority
    ensures Scheduled(entries, threshold, ids, priority)
         == Pushed(Without(entries, SamePriority(priority)), ids, key)
  {
    var kept := Without(entries, SamePriority(priority));
    assert Pushed(kept, ids, -priority) == Pushed(kept, ids, key);
  }

  lemma DedupThenPushSorted(entries: seq<Entry>, ids: seq<AccountId>, priority: int, key: int)
    requires SortedBy(entries, KeyOf) && key == -priority
    ensures SortedBy(Pushed(Without(entries, SamePriority(priority)), ids, key), KeyOf)
  {
    WithoutSorted(entries, KeyOf, SamePriority(priority));
    PushedSorted(Without(entries, SamePriority(priority)), ids, key);
  }

  lemma ScheduledSortedAdmitted(entries: seq<Entry>, threshold: int, ids: seq<AccountId>, priority: int, key: int)
    requires SortedBy(entries, KeyOf) && priority >= threshold && key == -priority
    ensures SortedBy(Scheduled(entries, threshold, ids, priority), KeyOf)
  {
    DedupThenPushSorted(entries, ids, priority, key);
    ScheduledAdmitted(entries, threshold, ids, priority, key);
  }

  /** A schedule keeps the queue ordered by key. */
  lemma ScheduledSorted(entries: seq<Entry>, threshold: int, ids: seq<AccountId>, priority: int)
    requires SortedBy(entries, KeyOf)
    ensures SortedBy(Scheduled(entries, threshold, ids, priority), KeyOf)
  {
    if priority >= threshold {
      ScheduledSortedAdmitted(entries, threshold, ids, priority, -priority);
    }
  }

  /**
   * A request of higher priority goes first: scheduling `y` at priority 10
   * after `x` at priority 1 on an otherwise empty queue dispatches `y` first.
   */
  lemma HigherPriorityDispatchedFirst(x: AccountId, y: AccountId)
    ensures Scheduled(Scheduled([], BackgroundPriority, [x], 1), BackgroundPriority, [y], 10)
         == [Entry(y, -10), Entry(x, -1)]
  {
    var q1 := Scheduled([], BackgroundPriority, [x], 1);
    assert q1 == [Entry(x, -1)];
    assert Without(q1, SamePriority(10)) == q1;
    PushedHead(q1, [y], -10);
    AboveOfHigh(q1, KeyOf, -10);
  }

  /**
   * Scheduling `{a, b}` and then `{c}` at the same priority leaves a single
   * batch, `{c}`, at that priority.
   */
  lemma DedupScenario()
    ensures Scheduled(Scheduled([], BackgroundPriority, ["a", "b"], 5), BackgroundPriority, ["c"], 5)
         == [Entry("c", -5)]
  {
    var q1 := Scheduled([], BackgroundPriority, ["a", "b"], 5);
    assert q1 == [Entry("a", -5), Entry("b", -5)];
    assert Without(q1, SamePriority(5)) == [];
  }

  lemma {:induction false} OfRankWithoutBelow(s: seq<Entry>, threshold: int, k: int)
    ensures OfRank(Without(s, BelowThreshold(threshold)), KeyOf, k) == if -k < threshold then [] else OfRank(s, KeyOf, k)
  {
    if s != [] {
      OfRankWithoutBelow(s[1..], threshold, k);
      var head := if BelowThreshold(threshold)(s[0]) then [] else [s[0]];
      OfRankAppend(head, Without(s[1..], BelowThreshold(threshold)), KeyOf, k);
    }
  }

  /**
   * Eviction: raising the threshold empties every priority below it and
   * leaves the entries of every other priority, in their order.
   */
  lemma EvictionKeepsOnlyAdmitted(entries: seq<Entry>, threshold: int, k: int)
    ensures OfRank(Without(entries, BelowThreshold(threshold)), KeyOf, k)
         == if -k < threshold then [] else OfRank(entries, KeyOf, k)
    ensures forall e :: e in Without(entries, BelowThreshold(threshold)) ==> CallerPriority(e) >= threshold
  {
    OfRankWithoutBelow(entries, threshold, k);
  }

  // ---------------------------------------------------------------------------
  // The two queue tests exactly as BridgeSync.js writes them.

  /**
   * The dedup test of BridgeSync.js:278 as written: it compares the caller's
   * priority with the stored key, which is the negated priority.
   */
  function SamePriorityAsWritten(priority: int): Entry -> bool {
    (e: Entry) => e.key == priority
  }

  /**
   * The eviction test of BridgeSync.js:296 as written: it compares a key with
   * the ref object rather than its `current` value; JavaScript's `<` between a
   * number and that object is always false.
   */
  function BelowThresholdAsWritten(threshold: int): Entry -> bool {
    (e: Entry) => false
  }

  /** `schedule` with the dedup test as written. */
  function ScheduledAsWritten(entries: seq<Entry>, threshold: int, ids: seq<AccountId>, priority: int): seq<Entry> {
    if priority < threshold then entries
    else Pushed(Without(entries, SamePriorityAsWritten(priority)), ids, -priority)
  }

  /** As written, the dedup test hits an entry of the same priority only at priority 0. */
  lemma DedupAsWrittenOnlyAtZero(e: Entry, priority: int)
    requires CallerPriority(e) == priority
    ensures SamePriorityAsWritten(priority)(e) <==> priority == 0
  {
  }

  /**
   * As written, scheduling `{a, b}` and then `{c}` at priority 5 keeps the
   * stale batch: all three ids stay queued.
   */
  lemma DedupAsWrittenKeepsStaleBatch()
    ensures ScheduledAsWritten(ScheduledAsWritten([], BackgroundPriority, ["a", "b"], 5), BackgroundPriority, ["c"], 5)
         == [Entry("a", -5), Entry("b", -5), Entry("c", -5)]
  {
    var q1 := ScheduledAsWritten([], BackgroundPriority, ["a", "b"], 5);
    assert q1 == [Entry("a", -5), Entry("b", -5)];
    assert Without(q1, SamePriorityAsWritten(5)) == q1;
    AtMostOfLow(q1, KeyOf, -5);
    assert Pushed(q1, ["c"], -5) == q1 + [Entry("c", -5)];
  }

  /**
   * As written, the dedup test removes the entries queued at the opposite
   * priority: a background pass (priority -1) drops a queued priority-1
   * request for `x`.
   */
  lemma DedupAsWrittenDropsOpposite()
    ensures ScheduledAsWritten([Entry("x", -1)], BackgroundPriority, ["y"], BackgroundPriority) == [Entry("y", 1)]
  {
    assert Without([Entry("x", -1)], SamePriorityAsWritten(BackgroundPriority)) == [];
    assert Pushed([], ["y"], 1) == [Entry("y", 1)];
  }

  /** As written, setting a new threshold evicts nothing. */
  lemma {:induction false} EvictionAsWrittenKeepsAll(entries: seq<Entry>, threshold: int)
    ensures Without(entries, BelowThresholdAsWritten(threshold)) == entries
  {
    if entries != [] {
      EvictionAsWrittenKeepsAll(entries[1..], threshold);
      assert entries == [entries[0]] + entries[1..];
    }
  }

  /** `accounts.every(isUpToDateAccount)`. */
  predicate AllUpToDate(accounts: seq<Account>) {
    forall i :: 0 <= i < |accounts| ==> accounts[i].upToDate
  }

  /** `shuffle(accounts.map(a => a.id))` may return any ordering of the account ids. */
  ghost predicate IsShuffleOf(order: seq<AccountId>, accounts: seq<Account>) {
    multiset(order) == multiset(AccountIds(accounts))
  }

  /** The ids of the accounts with at least one pending operation, in account order. */
  function PendingIds(accounts: seq<Account>): (ids: seq<AccountId>)
    ensures |ids| <= |accounts|
    ensures forall id :: id in ids <==> exists a :: a in accounts && a.pendingOperations > 0 && a.id == id
  {
    if accounts == [] then []
    else
      var rest := PendingIds(accounts[1..]);
      assert forall a :: a in accounts[1..] ==> a in accounts;
      if accounts[0].pendingOperations > 0 then [accounts[0].id] + rest else rest
  }

  /** The actions `sync` understands, and any other action type. */
  datatype SyncAction =
    | BackgroundTick
    | SetSkipUnderPriority(priority: int)
    | SyncAllAccounts(priority: int)
    | SyncOneAccount(accountId: AccountId, priority: int)
    | SyncSomeAccounts(accountIds: seq<AccountId>, priority: int)
    | Unsupported(actionType: string)

  /** `useSync`: the schedule function and its threshold over one sync queue. */
  class Scheduler {
    const queue: TaskQueue
    /** `skipUnderPriority.current`: requests below it are dropped. */
    var skipUnderPriority: int

    ghost predicate Valid()
      reads this, queue
    {
      queue.Valid()
    }

    constructor (queue: TaskQueue)
      requires queue.Valid()
      ensures Valid() && this.queue == queue && skipUnderPriority == BackgroundPriority
    {
      this.queue := queue;
      skipUnderPriority := BackgroundPriority;
    }

    /**
     * `schedule(ids, priority)`: a request below the threshold is dropped;
     * otherwise the entries already queued at that priority are removed and one
     * entry per id is pushed with key `-priority`.
     */
    method Schedule(ids: seq<AccountId>, priority: int)
      requires Valid()
      modifies queue`entries
      ensures Valid()
      ensures queue.entries == Scheduled(old(queue.entries), skipUnderPriority, ids, priority)
    {
      if priority < skipUnderPriority {
        return;
      }
      ghost var before := queue.entries;
      ghost var kept := Without(before, SamePriority(priority));
      ScheduledAdmitted(before, skipUnderPriority, ids, priority, -priority);
      queue.Remove(SamePriority(priority));
      assert queue.entries == kept;
      queue.Push(ids, -priority);
      assert queue.entries == Pushed(kept, ids, -priority);
    }

    /** `BACKGROUND_TICK`: a full background pass, only when the queue is idle. */
    method OnBackgroundTick(shuffled: seq<AccountId>)
      requires Valid()
      modifies queue`entries
      ensures Valid()
      ensures queue.entries ==
        if old(queue.Idle()) then Scheduled([], skipUnderPriority, shuffled, BackgroundPriority) else old(queue.entries)
    {
      if queue.Idle() {
        Schedule(shuffled, BackgroundPriority);
      }
    }

    /**
     * `SET_SKIP_UNDER_PRIORITY`: a new threshold evicts the queued entries below
     * it; going back to the background priority while some account is not up
     * to date schedules a full background pass right away.
     */
    method OnSetSkipUnderPriority(priority: int, accounts: seq<Account>, shuffled: seq<AccountId>)
      requires Valid()
      modifies this`skipUnderPriority, queue`entries
      ensures Valid()
      ensures priority == old(skipUnderPriority) ==>
        skipUnderPriority == old(skipUnderPriority) && queue.entries == old(queue.entries)
      ensures priority != old(skipUnderPriority) ==>
        var evicted := Without(old(queue.entries), BelowThreshold(priority));
        && skipUnderPriority == priority
        && queue.entries ==
             if priority == BackgroundPriority && !AllUpToDate(accounts)
             then Scheduled(evicted, priority, shuffled, BackgroundPriority)
             else evicted
    {
      if priority == skipUnderPriority {
        return;
      }
      skipUnderPriority := priority;
      queue.Remove(BelowThreshold(skipUnderPriority));
      if priority == BackgroundPriority && !AllUpToDate(accounts) {
        Schedule(shuffled, BackgroundPriority);
      }
    }

    /**
     * `sync(action)`: runs the handler of the action's type; an unsupported
     * type is only logged. `shuffled` is the random order of the account ids
     * the handlers that sync every account use.
     */
    method Sync(action: SyncAction, accounts: seq<Account>, shuffled: seq<AccountId>)
      requires Valid() && IsShuffleOf(shuffled, accounts)
      modifies this`skipUnderPriority, queue`entries
      ensures Valid()
      ensures action.Unsupported? ==>
        skipUnderPriority == old(skipUnderPriority) && queue.entries == old(queue.entries)
      ensures !action.SetSkipUnderPriority? ==> skipUnderPriority == old(skipUnderPriority)
      ensures action.BackgroundTick? ==>
        queue.entries ==
          if old(queue.Idle()) then Scheduled([], skipUnderPriority, shuffled, BackgroundPriority) else old(queue.entries)
      ensures action.SetSkipUnderPriority? && action.priority == old(skipUnderPriority) ==>
        skipUnderPriority == old(skipUnderPriority) && queue.entries == old(queue.entries)
      ensures action.SetSkipUnderPriority? && action.priority != old(skipUnderPriority) ==>
        var evicted := Without(old(queue.entries), BelowThreshold(action.priority));
        && skipUnderPriority == action.priority
        && queue.entries ==
             if action.priority == BackgroundPriority && !AllUpToDate(accounts)
             then Scheduled(evicted, action.priority, shuffled, BackgroundPriority)
             else evicted
      ensures action.SyncAllAccounts? ==>
        queue.entries == Scheduled(old(queue.entries), skipUnderPriority, shuffled, action.priority)
      ensures action.SyncOneAccount? ==>
        queue.entries == Scheduled(old(queue.entries), skipUnderPriority, [action.accountId], action.priority)
      ensures action.SyncSomeAccounts? ==>
        queue.entries == Scheduled(old(queue.entries), skipUnderPriority, action.accountIds, action.priority)
    {
      match action {
        case BackgroundTick => OnBackgroundTick(shuffled);
        case SetSkipUnderPriority(p) => OnSetSkipUnderPriority(p, accounts, shuffled);
        case SyncAllAccounts(p) => Schedule(shuffled, p);
        case SyncOneAccount(id, p) => Schedule([id], p);
        case SyncSomeAccounts(ids, p) => Schedule(ids, p);
        case Unsupported(_) =>
      }
    }
  }

  /** One firing of the background timer. */
  method BackgroundTimerFires(scheduler: Scheduler, accounts: seq<Account>, shuffled: seq<AccountId>)
    requires scheduler.Valid() && IsShuffleOf(shuffled, accounts)
    modifies scheduler.queue`entries
    ensures scheduler.Valid()
    ensures scheduler.queue.entries ==
      if old(scheduler.queue.Idle())
      then Scheduled([], scheduler.skipUnderPriority, shuffled, BackgroundPriority)
      else old(scheduler.queue.entries)
  {
    scheduler.OnBackgroundTick(shuffled);
  }

  /** One firing of the pending-operations timer: re-syncs the accounts with pending operations. */
  method PendingOperationsTimerFires(scheduler: Scheduler, accounts: seq<Account>)
    requires scheduler.Valid()
    modifies scheduler.queue`entries
    ensures scheduler.Valid()
    ensures scheduler.queue.entries ==
      Scheduled(old(scheduler.queue.entries), scheduler.skipUnderPriority, PendingIds(accounts), PendingOperationsPriority)
  {
    scheduler.Schedule(PendingIds(accounts), PendingOperationsPriority);
  }

  // ---------------------------------------------------------------------------
  // Hydration, once per currency.

  function CurrencyIds(accounts: seq<Account>): set<CurrencyId> {
    set a | a in accounts :: a.currency.id
  }

  function IdsOf(cs: seq<Currency>): (r: seq<CurrencyId>)
    ensures |r| == |cs|
    ensures forall i :: 0 <= i < |r| ==> r[i] == cs[i].id
  {
    MapSeq(cs, (c: Currency) => c.id)
  }

  predicate Distinct<T(==)>(s: seq<T>) {
    forall i, j :: 0 <= i < j < |s| ==> s[i] != s[j]
  }

  /**
   * The currencies hydrated for `accounts` when the ids in `seen` are already
   * hydrated: each currency whose id is new, the first time its id appears.
   */
  function FirstSeen(accounts: seq<Account>, seen: set<CurrencyId>): seq<Currency>
    decreases |accounts|
  {
    if accounts == [] then []
    else
      var init := accounts[..|accounts| - 1];
      var c := accounts[|accounts| - 1].currency;
      if c.id in seen || c.id in CurrencyIds(init) then FirstSeen(init, seen)
      else FirstSeen(init, seen) + [c]
  }

  lemma CurrencyIdsSnoc(init: seq<Account>, a: Account)
    ensures CurrencyIds(init + [a]) == CurrencyIds(init) + {a.currency.id}
  {
    forall id | id in CurrencyIds(init + [a]) ensures id in CurrencyIds(init) + {a.currency.id} {
      var b :| b in init + [a] && b.currency.id == id;
    }
  }

  /**
   * Hydrate once: the currencies hydrated for `accounts` have distinct ids, none
   * already hydrated, and they are exactly the new currency ids of `accounts`.
   */
  lemma {:induction false} FirstSeenFresh(accounts: seq<Account>, seen: set<CurrencyId>)
    ensures Distinct(IdsOf(FirstSeen(accounts, seen)))
    ensures forall id :: id in IdsOf(FirstSeen(accounts, seen)) <==> id in CurrencyIds(accounts) && id !in seen
    decreases |accounts|
  {
    if accounts != [] {
      var init := accounts[..|accounts| - 1];
      var a := accounts[|accounts| - 1];
      FirstSeenFresh(init, seen);
      assert accounts == init + [a];
      CurrencyIdsSnoc(init, a);
      var pre := FirstSeen(init, seen);
      if !(a.currency.id in seen || a.currency.id in CurrencyIds(init)) {
        assert IdsOf(pre + [a.currency]) == IdsOf(pre) + [a.currency.id] by {
          assert forall i :: 0 <= i < |pre| ==> (pre + [a.currency])[i] == pre[i];
        }
      }
    }
  }

  /** One more account: its currency is hydrated exactly when its id is not hydrated yet. */
  lemma FirstSeenStep(accounts: seq<Account>, i: nat, seen: set<CurrencyId>)
    requires i < |accounts|
    ensures seen + CurrencyIds(accounts[..i + 1]) == (seen + CurrencyIds(accounts[..i])) + {accounts[i].currency.id}
    ensures FirstSeen(accounts[..i + 1], seen) ==
      if accounts[i].currency.id in seen + CurrencyIds(accounts[..i]) then FirstSeen(accounts[..i], seen)
      else FirstSeen(accounts[..i], seen) + [accounts[i].currency]
  {
    var pre := accounts[..i + 1];
    assert pre[..|pre| - 1] == accounts[..i];
    assert pre == accounts[..i] + [accounts[i]];
    CurrencyIdsSnoc(accounts[..i], accounts[i]);
  }

  /** The hydrated set and the call list after the step over `accounts[i]`. */
  lemma HydrateStep(accounts: seq<Account>, i: nat, seen: set<CurrencyId>, done: seq<Currency>,
                    h: set<CurrencyId>, cs: seq<Currency>)
    requires i < |accounts|
    requires h == seen + CurrencyIds(accounts[..i])
    requires cs == done + FirstSeen(accounts[..i], seen)
    ensures accounts[i].currency.id in h ==>
      h == seen + CurrencyIds(accounts[..i + 1]) && cs == done + FirstSeen(accounts[..i + 1], seen)
    ensures accounts[i].currency.id !in h ==>
      h + {accounts[i].currency.id} == seen + CurrencyIds(accounts[..i + 1]) &&
      cs + [accounts[i].currency] == done + FirstSeen(accounts[..i + 1], seen)
  {
    FirstSeenStep(accounts, i, seen);
    var c := accounts[i].currency;
    if c.id in h {
      assert h + {c.id} == h;
    } else {
      assert cs + [c] == done + (FirstSeen(accounts[..i], seen) + [c]);
    }
  }

  lemma IdsOfAppend(a: seq<Currency>, b: seq<Currency>)
    ensures IdsOf(a + b) == IdsOf(a) + IdsOf(b)
  {
    assert forall j :: 0 <= j < |a| ==> (a + b)[j] == a[j];
    assert forall j :: 0 <= j < |b| ==> (a + b)[|a| + j] == b[j];
  }

  /**
   * Across repeated account lists, no currency is ever hydrated twice: calls
   * that hydrated each id of `hydrated` once go on doing so after one more pass.
   */
  lemma HydrationStaysOnce(calls: seq<Currency>, hydrated: set<CurrencyId>, accounts: seq<Account>)
    requires Distinct(IdsOf(calls)) && forall id :: id in IdsOf(calls) <==> id in hydrated
    ensures var after := calls + FirstSeen(accounts, hydrated);
      && Distinct(IdsOf(after))
      && forall id :: id in IdsOf(after) <==> id in hydrated + CurrencyIds(accounts)
  {
    var added := FirstSeen(accounts, hydrated);
    FirstSeenFresh(accounts, hydrated);
    IdsOfAppend(calls, added);
    var ids := IdsOf(calls + added);
    forall i, j | 0 <= i < j < |ids| ensures ids[i] != ids[j] {
      if j < |calls| {
      } else if i >= |calls| {
        assert ids[i] == IdsOf(added)[i - |calls|];
        assert ids[j] == IdsOf(added)[j - |calls|];
      } else {
        assert ids[i] in IdsOf(calls);
        assert ids[j] == IdsOf(added)[j - |calls|];
        assert ids[j] in IdsOf(added);
      }
    }
  }

  /** `useHydrate`: the set of hydrated currency ids and the calls of `hydrateCurrency`. */
  class Hydrator {
    var hydrated: set<CurrencyId>
    /** Every `hydrateCurrency` call, in order. */
    var calls: seq<Currency>

    /** No currency is hydrated twice, and `hydrated` records exactly those that were. */
    ghost predicate Valid()
      reads this
    {
      Distinct(IdsOf(calls)) && forall id :: id in IdsOf(calls) <==> id in hydrated
    }

    constructor ()
      ensures Valid() && hydrated == {} && calls == []
    {
      hydrated, calls := {}, [];
    }

    /** The effect run whenever the account list changes. */
    method OnAccounts(accounts: seq<Account>)
      requires Valid()
      modifies this
      ensures Valid()
      ensures hydrated == old(hydrated) + CurrencyIds(accounts)
      ensures calls == old(calls) + FirstSeen(accounts, old(hydrated))
    {
      ghost var seen, done := hydrated, calls;
      var h, cs := hydrated, calls;
      var i := 0;
      while i < |accounts|
        invariant i <= |accounts|
        invariant h == seen + CurrencyIds(accounts[..i])
        invariant cs == done + FirstSeen(accounts[..i], seen)
      {
        var c := accounts[i].currency;
        HydrateStep(accounts, i, seen, done, h, cs);
        if c.id !in h {
          h := h + {c.id};
          cs := cs + [c];
        }
        i := i + 1;
      }
      assert accounts[..i] == accounts;
      hydrated, calls := h, cs;
      HydrationStaysOnce(old(calls), old(hydrated), accounts);
    }
  }
}
