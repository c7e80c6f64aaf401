/**
 * One account's sync attempt (`synchronize` in the bridge sync component): the
 * short-circuit for an account already syncing or no longer listed, the state
 * transitions stored per account, the updaters handed to the account store in
 * the order the sync stream emits them, the 90-second analytics throttle, and
 * the worker-slot release that every path ends with.
 */
module AccountSync {
  import opened Wrappers
  import opened Accounts
  import SyncQueue
  import opened StableOrder

  /** An account updater emitted by a currency's sync stream (opaque to the scheduler). */
  type Updater = nat

  /** How a sync stream terminates. */
  datatype StreamEnd = Completed | Failed(raw: Error)

  /** What the currency bridge does during one attempt. */
  datatype SyncRun =
    /** `getAccountBridge(account)` throws. */
    | BridgeThrows(error: Error)
    /** `prepareCurrency` or `bridge.sync` throws before the stream is subscribed. */
    | SetupThrows(error: Error)
    /** The stream emits `updaters`, then ends with `end`. */
    | Emits(updaters: seq<Updater>, end: StreamEnd)

  /** One call of `trackAnalytics`. */
  datatype AnalyticsEvent =
    /**
     * `accountId` is not part of the tracked payload: it records which
     * account the event is about, so that events of several accounts can be
     * told apart in the log.
     */
    | SyncEvent(name: string, accountId: AccountId, currencyName: string, operationsLength: nat,
                accountsCountForCurrency: nat, tokensLength: nat)
    | TokenEvent(tokenId: string, tokenTicker: string, operationsLength: nat, parentCurrencyName: string)

  const ThrottleWindowMs := 90 * 1000
  const Pending := SyncState(true, None)

  /** `bridgeSyncState[accountId] || nothingState`. */
  function StateOf(states: map<AccountId, SyncState>, id: AccountId): SyncState {
    if id in states then states[id] else Nothing
  }

  /**
   * The stamp check at the start of an attempt: a stamp that is missing or zero
   * (falsy) never throttles; otherwise events are suppressed while less than
   * 90 seconds have passed since it.
   */
  predicate TrackedRecently(last: map<AccountId, int>, id: AccountId, now: int) {
    id in last && last[id] != 0 && now - last[id] < ThrottleWindowMs
  }

  /** The throttle map after the start of an attempt: stamped with `now` only when not throttled. */
  function Stamped(last: map<AccountId, int>, id: AccountId, now: int): (r: map<AccountId, int>)
    ensures forall k :: k != id ==> (k in r <==> k in last) && (k in last ==> r[k] == last[k])
    ensures TrackedRecently(last, id, now) ==> r == last
    ensures !TrackedRecently(last, id, now) ==> id in r && r[id] == now
  {
    if TrackedRecently(last, id, now) then last else last[id := now]
  }

  /** The states an attempt that passed the short-circuit stores for its account, in order. */
  function Writes(run: SyncRun, recover: Error -> Option<Error>): seq<SyncState> {
    match run
    case BridgeThrows(e) => [SyncState(false, Some(e))]
    case SetupThrows(e) => [Pending, SyncState(false, Some(e))]
    case Emits(_, Completed) => [Pending, Nothing]
    case Emits(_, Failed(raw)) => [Pending, SyncState(false, recover(raw))]
  }

  /** The updaters an attempt hands to the account store. */
  function Applied(run: SyncRun): seq<Updater> {
    if run.Emits? then run.updaters else []
  }

  /** The event name `trackEnd` is called with, if it is called. */
  function EndEvent(run: SyncRun, recover: Error -> Option<Error>): Option<string> {
    match run
    case Emits(_, Completed) => Some("SyncSuccess")
    case Emits(_, Failed(raw)) =>
      (match recover(raw)
       case Some(e) => if e.name != "NetworkDown" then Some("SyncError") else None
       case None => None)
    case _ => None
  }

  /** The currency of each account, in order. */
  function CurrenciesOf(accounts: seq<Account>): (r: seq<Currency>)
    ensures |r| == |accounts|
    ensures forall i :: 0 <= i < |r| ==> r[i] == accounts[i].currency
  {
    if accounts == [] then [] else [accounts[0].currency] + CurrenciesOf(accounts[1..])
  }

  /** `accounts.filter(a => a.currency === c).length`: how many accounts hold `c`. */
  function CountForCurrency(accounts: seq<Account>, c: Currency): (n: nat)
    ensures n <= |accounts|
    ensures n == multiset(CurrenciesOf(accounts))[c]
    ensures n == 0 <==> forall a :: a in accounts ==> a.currency != c
  {
    if accounts == [] then 0
    else
      assert CurrenciesOf(accounts) == [accounts[0].currency] + CurrenciesOf(accounts[1..]);
      (if accounts[0].currency == c then 1 else 0) + CountForCurrency(accounts[1..], c)
  }

  /** One `SyncSuccessToken` event per sub-account. */
  function TokenEvents(account: Account, subs: seq<SubAccount>): (r: seq<AnalyticsEvent>)
    ensures |r| == |subs|
    ensures forall i :: 0 <= i < |r| ==>
      && r[i].TokenEvent?
      && r[i].tokenId == (if subs[i].kind == TokenAccount then subs[i].currencyId else account.currency.name)
      && r[i].tokenTicker == subs[i].ticker
      && r[i].operationsLength == subs[i].operationsCount
      && r[i].parentCurrencyName == account.currency.name
  {
    if subs == [] then []
    else
      var a := subs[0];
      var tokenId := if a.kind == TokenAccount then a.currencyId else account.currency.name;
      [TokenEvent(tokenId, a.ticker, a.operationsCount, account.currency.name)] + TokenEvents(account, subs[1..])
  }

  /** The events of `trackEnd(name)` when the attempt is not throttled. */
  function EndEvents(accounts: seq<Account>, account: Account, name: string): (r: seq<AnalyticsEvent>)
    ensures |r| == 1 + (if name == "SyncSuccess" then |account.subAccounts| else 0)
    ensures r[0].SyncEvent? && r[0].name == name && r[0].accountId == account.id
  {
    [SyncEvent(name, account.id, account.currency.name, account.operationsCount,
               CountForCurrency(accounts, account.currency), |account.subAccounts|)]
    + (if name == "SyncSuccess" then TokenEvents(account, account.subAccounts) else [])
  }

  function Tag<T>(id: AccountId, xs: seq<T>): (r: seq<(AccountId, T)>)
    ensures |r| == |xs|
    ensures forall i :: 0 <= i < |r| ==> r[i] == (id, xs[i])
  {
    if xs == [] then [] else [(id, xs[0])] + Tag(id, xs[1..])
  }

  lemma TagAppend<T>(id: AccountId, a: seq<T>, b: seq<T>)
    ensures Tag(id, a + b) == Tag(id, a) + Tag(id, b)
  {
    var l, r := Tag(id, a + b), Tag(id, a) + Tag(id, b);
    forall i | 0 <= i < |l| ensures l[i] == r[i] {
      if i < |a| {
        assert r[i] == Tag(id, a)[i];
      } else {
        assert r[i] == Tag(id, b)[i - |a|];
      }
    }
  }

  /** Two stored states in a row: the transitions they append and the state that stays. */
  lemma TagPair<T>(id: AccountId, a: T, b: T, log: seq<(AccountId, T)>, states: map<AccountId, T>)
    ensures log + [(id, a)] + [(id, b)] == log + Tag(id, [a, b])
    ensures states[id := a][id := b] == states[id := b]
  {
    assert [a, b][1..] == [b];
  }

  /** An attempt goes past the short-circuit: the account is not already syncing and is still listed. */
  predicate Starts(states: map<AccountId, SyncState>, accounts: seq<Account>, id: AccountId) {
    !StateOf(states, id).pending && FindAccount(accounts, id).Some?
  }

  /** The state an attempt leaves its account in. */
  function Settled(run: SyncRun, recover: Error -> Option<Error>): SyncState {
    var w := Writes(run, recover);
    w[|w| - 1]
  }

  /** The analytics events an attempt reports for `account`. */
  function Reported(last: map<AccountId, int>, accounts: seq<Account>, account: Account, now: int,
                    run: SyncRun, recover: Error -> Option<Error>): seq<AnalyticsEvent>
  {
    var quiet := run.BridgeThrows? || TrackedRecently(last, account.id, now);
    if quiet || EndEvent(run, recover).None? then []
    else EndEvents(accounts, account, EndEvent(run, recover).value)
  }

  /** What an attempt whose stream emits writes, applies and reports. */
  lemma EmitsOutcome(last: map<AccountId, int>, accounts: seq<Account>, account: Account, now: int,
                     run: SyncRun, recover: Error -> Option<Error>)
    requires run.Emits?
    ensures Writes(run, recover) == [Pending, Settled(run, recover)]
    ensures Applied(run) == run.updaters
    ensures Reported(last, accounts, account, now, run, recover)
         == if TrackedRecently(last, account.id, now) || EndEvent(run, recover).None? then []
            else EndEvents(accounts, account, EndEvent(run, recover).value)
  {
  }

  // ---------------------------------------------------------------------------
  // What an attempt promises.

  /**
   * Every attempt that passes the short-circuit ends settled: its last stored
   * state is not pending, and it is preceded by a pending state unless the
   * bridge lookup itself threw.
   */
  lemma AttemptSettles(run: SyncRun, recover: Error -> Option<Error>)
    ensures var w := Writes(run, recover);
      && 1 <= |w| <= 2
      && !w[|w| - 1].pending
      && (w[0] == Pending <==> !run.BridgeThrows?)
  {
  }

  /**
   * The error left in the state: none exactly when the stream completed or
   * `recoverError` dismissed its failure; otherwise the recovered error, or
   * the error thrown synchronously.
   */
  lemma StoredError(run: SyncRun, recover: Error -> Option<Error>)
    ensures var w := Writes(run, recover); var last := w[|w| - 1];
      && (last.error.None? <==>
            (run.Emits? && (run.end.Completed? || recover(run.end.raw).None?)))
      && (run.Emits? && run.end.Failed? ==> last.error == recover(run.end.raw))
      && (run.BridgeThrows? || run.SetupThrows? ==> last.error == Some(run.error))
  {
  }

  /**
   * Which attempts report an end event: success exactly on completion, and a
   * sync error exactly for a failure whose recovered error is not `NetworkDown`.
   */
  lemma EndEventReported(run: SyncRun, recover: Error -> Option<Error>)
    ensures EndEvent(run, recover) == Some("SyncSuccess") <==> run.Emits? && run.end.Completed?
    ensures EndEvent(run, recover) == Some("SyncError") <==>
      run.Emits? && run.end.Failed? && recover(run.end.raw).Some? && recover(run.end.raw).value.name != "NetworkDown"
  {
  }

  /**
   * When `recoverError` dismisses every error, a failing stream never surfaces
   * an error: every state it stores has no error.
   */
  lemma DismissedErrorsNeverSurface(run: SyncRun, recover: Error -> Option<Error>)
    requires forall e :: recover(e).None?
    requires run.Emits?
    ensures forall i :: 0 <= i < |Writes(run, recover)| ==> Writes(run, recover)[i].error.None?
  {
  }

  /**
   * The throttle window: after an attempt at time `t` that was not throttled
   * (and `t` is not the falsy stamp 0), a later attempt at `t2` reports its
   * events exactly when at least 90 seconds have passed.
   */
  lemma ThrottleWindow(last: map<AccountId, int>, id: AccountId, t: int, t2: int)
    requires !TrackedRecently(last, id, t) && t != 0
    ensures TrackedRecently(Stamped(last, id, t), id, t2) <==> t2 - t < ThrottleWindowMs
    ensures !TrackedRecently(Stamped(last, id, t), id, t2) ==>
      Stamped(Stamped(last, id, t), id, t2) == last[id := t2]
  {
  }

  /** The mutable state one sync attempt reads and writes. */
  class Synchronizer {
    /** `bridgeSyncState`: the sync status per account id. */
    var syncState: map<AccountId, SyncState>
    /** Every `setAccountSyncState` call, in order. */
    var transitions: seq<(AccountId, SyncState)>
    /** `lastTimeAnalyticsTrackPerAccountId`. */
    var lastTrack: map<AccountId, int>
    /** Every `updateAccountWithUpdater` call, in order. */
    var updates: seq<(AccountId, Updater)>
    /** Every `trackAnalytics` call, in order. */
    var tracked: seq<AnalyticsEvent>

    constructor ()
      ensures syncState == map[] && transitions == [] && lastTrack == map[]
      ensures updates == [] && tracked == []
    {
      syncState, transitions, lastTrack := map[], [], map[];
      updates, tracked := [], [];
    }

    /** `setAccountSyncState`: merges one key into the state map. */
    method SetAccountSyncState(id: AccountId, s: SyncState)
      modifies this`syncState, this`transitions
      ensures syncState == old(syncState)[id := s]
      ensures transitions == old(transitions) + [(id, s)]
    {
      syncState := syncState[id := s];
      transitions := transitions + [(id, s)];
    }

    /** `trackEnd(name)`: reports the end of an attempt unless it is throttled. */
    method TrackEnd(recently: bool, accounts: seq<Account>, account: Account, name: string)
      modifies this`tracked
      ensures tracked == old(tracked) + (if recently then [] else EndEvents(accounts, account, name))
    {
      if recently {
        return;
      }
      tracked := tracked + EndEvents(accounts, account, name);
    }

    /**
     * `synchronize(accountId, next)` for one worker of the queue: the attempt
     * runs `run` to its end and releases the worker's slot exactly once.
     */
    method Synchronize(queue: SyncQueue.TaskQueue, accounts: seq<Account>, id: AccountId, now: int,
                       run: SyncRun, recover: Error -> Option<Error>)
      requires queue.Valid() && queue.running > 0
      modifies this, queue`running
      ensures queue.Valid() && queue.running == old(queue.running) - 1
      ensures !Starts(old(syncState), accounts, id) ==>
        && syncState == old(syncState) && transitions == old(transitions) && lastTrack == old(lastTrack)
        && updates == old(updates) && tracked == old(tracked)
      ensures Starts(old(syncState), accounts, id) ==>
        syncState == old(syncState)[id := Settled(run, recover)]
      ensures Starts(old(syncState), accounts, id) ==>
        transitions == old(transitions) + Tag(id, Writes(run, recover))
      ensures Starts(old(syncState), accounts, id) ==>
        updates == old(updates) + Tag(id, Applied(run))
      ensures Starts(old(syncState), accounts, id) ==>
        lastTrack == if run.BridgeThrows? then old(lastTrack) else Stamped(old(lastTrack), id, now)
      ensures Starts(old(syncState), accounts, id) ==>
        tracked == old(tracked) + Reported(old(lastTrack), accounts, FindAccount(accounts, id).value, now, run, recover)
    {
      var state := StateOf(syncState, id);
      var found := FindAccount(accounts, id);
      if !state.pending && found.Some? {
        Attempt(accounts, found.value, now, run, recover);
      }
      queue.Release();
    }

    /** The part of `synchronize` after the short-circuit, up to the release of the slot. */
    method Attempt(accounts: seq<Account>, account: Account, now: int, run: SyncRun, recover: Error -> Option<Error>)
      modifies this
      ensures syncState == old(syncState)[account.id := Settled(run, recover)]
      ensures transitions == old(transitions) + Tag(account.id, Writes(run, recover))
      ensures updates == old(updates) + Tag(account.id, Applied(run))
      ensures lastTrack == if run.BridgeThrows? then old(lastTrack) else Stamped(old(lastTrack), account.id, now)
      ensures tracked == old(tracked) + Reported(old(lastTrack), accounts, account, now, run, recover)
    {
      var id := account.id;
      if run.BridgeThrows? {
        SetAccountSyncState(id, SyncState(false, Some(run.error)));
        return;
      }
      var recently := Start(id, now);
      if run.SetupThrows? {
        TagPair(id, Pending, SyncState(false, Some(run.error)), old(transitions), old(syncState));
        SetAccountSyncState(id, SyncState(false, Some(run.error)));
        return;
      }
      EmitsOutcome(old(lastTrack), accounts, account, now, run, recover);
      TagPair(id, Pending, Settled(run, recover), old(transitions), old(syncState));
      ApplyUpdaters(id, run.updaters);
      Finish(accounts, account, recently, run, recover);
    }

    /** The stream's `complete` or `error` handler. */
    method Finish(accounts: seq<Account>, account: Account, recently: bool, run: SyncRun, recover: Error -> Option<Error>)
      requires run.Emits?
      modifies this`syncState, this`transitions, this`tracked
      ensures syncState == old(syncState)[account.id := Settled(run, recover)]
      ensures transitions == old(transitions) + [(account.id, Settled(run, recover))]
      ensures tracked == old(tracked) +
        if recently || EndEvent(run, recover).None? then [] else EndEvents(accounts, account, EndEvent(run, recover).value)
    {
      var id := account.id;
      match run.end {
        case Completed =>
          TrackEnd(recently, accounts, account, "SyncSuccess");
          SetAccountSyncState(id, Nothing);
        case Failed(raw) =>
          var error := recover(raw);
          if error.Some? && error.value.name != "NetworkDown" {
            TrackEnd(recently, accounts, account, "SyncError");
          }
          SetAccountSyncState(id, SyncState(false, error));
      }
    }

    method Start(id: AccountId, now: int) returns (recently: bool)
      modifies this`syncState, this`transitions, this`lastTrack
      ensures recently == TrackedRecently(old(lastTrack), id, now)
      ensures syncState == old(syncState)[id := Pending]
      ensures transitions == old(transitions) + [(id, Pending)]
      ensures lastTrack == Stamped(old(lastTrack), id, now)
    {
      SetAccountSyncState(id, Pending);
      recently := TrackedRecently(lastTrack, id, now);
      if !recently {
        lastTrack := lastTrack[id := now];
      }
    }

    /** The stream's `next` handler, for each updater in emission order. */
    method ApplyUpdaters(id: AccountId, us: seq<Updater>)
      modifies this`updates
      ensures updates == old(updates) + Tag(id, us)
    {
      var i := 0;
      while i < |us|
        invariant i <= |us|
        invariant updates == old(updates) + Tag(id, us[..i])
      {
        TakeSnoc(us, i);
        TagAppend(id, us[..i], [us[i]]);
        updates := updates + [(id, us[i])];
        i := i + 1;
      }
      assert us[..i] == us;
    }
  }
}
