# Ledger Live common: account sync scheduling, manager cache, Ethereum token accounts

This project models three parts of Ledger Live's shared logic in Dafny and
proves properties of them.

- **Bridge sync** (`src/bridge/react/BridgeSync.js`). Components:
  - the scheduler that `useSync` builds over an `async/priorityQueue` of
    account ids: `schedule`, its dedup and threshold, and the action handlers;
  - one account's sync attempt (`synchronize`): the state transitions it
    stores, the updaters it forwards, the 90-second analytics throttle, and
    the release of its worker slot;
  - the background and pending-operations timers;
  - the once-per-currency hydration.

  The queue is a class (`SyncQueue.TaskQueue`). Its entries are a sequence
  kept sorted by key, first-in first-out among equal keys. A caller's
  priority `p` is stored as the key `-p`.
- **Manager cache** (`src/manager.js`). Components:
  - icon URLs, firmware version names, the firmware-update predicates and
    hash formatting;
  - install eligibility (`canHandleInstall`);
  - the decision at the end of `getLatestFirmwareForDevice`, once its
    fetches have returned;
  - the filter and currency-first reorder at the end of `getAppsList`.
- **Ethereum token accounts** (`src/families/ethereum/libcore-buildSubAccounts.js`).
  Components:
  - the loop that flags a core ERC20 account as a Ledgergotchi account, on a
    class whose flag field is updated in place;
  - the index of the existing token accounts by ticker;
  - the building of one token account per core account whose token is known;
  - the stable sort that puts existing tickers first, in their previous order.

Files:
- `wrappers.dfy`: `Option` and `Result`.
- `stable_order.dfy`: order-preserving filters, stable insertion and a stable sort.
- `sync_queue.dfy`: the priority queue's contract.
- `accounts.dfy`: accounts, errors and sync states.
- `bridge_sync.dfy`: scheduling and hydration.
- `synchronize.dfy`: one sync attempt.
- `manager.dfy`: the manager cache.
- `eth_sub_accounts.dfy`: the Ethereum token accounts.

## Model

| member | source | states |
|---|---|---|
| Accounts.FindAccount | src/bridge/react/BridgeSync.js:139 | None exactly when no listed account has the id; otherwise the first listed account with that id |
| Accounts.AccountIds | src/bridge/react/BridgeSync.js:284 | one id per account, the i-th being the i-th account's id |
| StableOrder.MapSeq | src/bridge/react/BridgeSync.js:284 | `Array.prototype.map`: the same length, the i-th result being the function of the i-th element |
| StableOrder.Find | src/bridge/react/BridgeSync.js:139 | `Array.prototype.find`: None exactly when no element satisfies the test; otherwise the element at the first index that does |
| StableOrder.SplitPoint | src/bridge/react/BridgeSync.js:258-262 | in a queue sorted by key, the entries with key at most `k` form a prefix, and the returned index ends it |
| StableOrder.InsertAfterSorted | src/bridge/react/BridgeSync.js:280 | placing a batch of one key after the entries with key at most that key keeps the queue sorted |
| StableOrder.InsertAfterMultiset | src/bridge/react/BridgeSync.js:280 | that placement adds exactly the batch and loses nothing |
| StableOrder.InsertAfterOfRank | src/bridge/react/BridgeSync.js:280 | stability: the batch is appended behind the entries of its own key, and every other key keeps its entries in their order |
| StableOrder.WithoutSorted | src/bridge/react/BridgeSync.js:278 | removing entries from a sorted queue leaves it sorted |
| StableOrder.StableSort | src/families/ethereum/libcore-buildSubAccounts.js:113-120 | the result is sorted by rank, is a permutation of the input, and keeps the input order within each rank |
| SyncQueue.Batch | src/bridge/react/BridgeSync.js:280 | a push creates one entry per id, in the order of the ids, all with the pushed key |
| SyncQueue.PushedSorted | src/bridge/react/BridgeSync.js:280 | a push keeps the queue sorted by key |
| SyncQueue.PushedMultiset | src/bridge/react/BridgeSync.js:280 | after a push the queue holds the old entries plus the batch, nothing lost and nothing else added |
| SyncQueue.PushedOfRank | src/bridge/react/BridgeSync.js:280 | after a push, the entries of the pushed key are the old ones followed by the batch; every other key is unchanged |
| SyncQueue.PushedFifo | src/bridge/react/BridgeSync.js:280 | two pushes at one key queue the second batch right behind the first, and both behind every entry already queued at that key or a smaller one |
| SyncQueue.PushedHead | src/bridge/react/BridgeSync.js:280 | a batch pushed with a key smaller than every queued key is dispatched next |
| SyncQueue.TaskQueue.constructor | src/bridge/react/BridgeSync.js:258-262 | the new queue is empty, idle and has the given concurrency |
| SyncQueue.TaskQueue.Push | src/bridge/react/BridgeSync.js:280 | the entries become the old entries with the batch inserted after those of key at most the key, and stay sorted |
| SyncQueue.TaskQueue.Remove | src/bridge/react/BridgeSync.js:278 | the entries become the old entries minus those the test selects, in order; running tasks are untouched |
| SyncQueue.TaskQueue.Dispatch | src/bridge/react/BridgeSync.js:258-262 | with a free slot and a non-empty queue, the head entry, of smallest key, is handed out, the queue loses exactly it and one more slot is taken; otherwise nothing changes |
| SyncQueue.TaskQueue.Release | src/bridge/react/BridgeSync.js:213 | a worker's `next()` frees exactly one slot |
| BridgeSync.ScheduledAdmitted | src/bridge/react/BridgeSync.js:274-281 | `Scheduled`, with the corrected dedup test: a request at or above the threshold removes the same-priority entries, then pushes the ids at key `-priority` |
| BridgeSync.OfRankWithoutSamePriority | src/bridge/react/BridgeSync.js:278 | the dedup empties the caller's priority and leaves every other priority's entries in their order |
| BridgeSync.ScheduledReplacesSamePriority | src/bridge/react/BridgeSync.js:274-281 | after an admitted schedule, the entries at that priority are exactly the new ids in order, and every other priority is as before |
| BridgeSync.ScheduledSorted | src/bridge/react/BridgeSync.js:274-281 | scheduling keeps the queue sorted by key |
| BridgeSync.HigherPriorityDispatchedFirst | src/bridge/react/BridgeSync.js:280 | `y` scheduled at priority 10 after `x` at priority 1 is queued ahead of `x` |
| BridgeSync.DedupScenario | src/bridge/react/BridgeSync.js:276-280 | scheduling `{a, b}` then `{c}` at one priority leaves only `c` queued |
| BridgeSync.OfRankWithoutBelow | src/bridge/react/BridgeSync.js:296 | eviction empties every priority below the threshold and keeps every other priority's entries in their order |
| BridgeSync.EvictionKeepsOnlyAdmitted | src/bridge/react/BridgeSync.js:293-296 | after a new threshold, no queued entry is below it, and the other priorities keep their entries in order |
| BridgeSync.DedupAsWrittenOnlyAtZero | src/bridge/react/BridgeSync.js:278 | as written (`SamePriorityAsWritten`), the dedup test matches an entry of the caller's own priority exactly when that priority is 0 |
| BridgeSync.DedupAsWrittenKeepsStaleBatch | src/bridge/react/BridgeSync.js:274-281 | as written (`ScheduledAsWritten`), scheduling `{a, b}` then `{c}` at priority 5 leaves all three queued |
| BridgeSync.DedupAsWrittenDropsOpposite | src/bridge/react/BridgeSync.js:278 | as written, a background pass (priority -1) removes a queued priority-1 request: `ScheduledAsWritten` matches the entries queued at the opposite priority |
| BridgeSync.EvictionAsWrittenKeepsAll | src/bridge/react/BridgeSync.js:296 | as written, a new threshold removes nothing from the queue |
| BridgeSync.PendingIds | src/bridge/react/BridgeSync.js:370-374 | an id is listed exactly when some account with that id has pending operations, and there are at most as many ids as accounts |
| BridgeSync.Scheduler.constructor | src/bridge/react/BridgeSync.js:271 | the threshold starts at the background priority -1 |
| BridgeSync.Scheduler.Schedule | src/bridge/react/BridgeSync.js:274-281 | below the threshold the queue is unchanged; otherwise it is the dedup-then-push queue of `Scheduled` (corrected dedup test), which stays sorted |
| BridgeSync.Scheduler.OnBackgroundTick | src/bridge/react/BridgeSync.js:287-291 | an idle queue gets a background pass over the shuffled ids; a busy queue is unchanged |
| BridgeSync.Scheduler.OnSetSkipUnderPriority | src/bridge/react/BridgeSync.js:293-301 | the same threshold changes nothing. Otherwise the threshold is stored and, with the corrected eviction test, the entries below it are evicted. Going back to -1 while some account is not up to date then schedules a background pass |
| BridgeSync.Scheduler.Sync | src/bridge/react/BridgeSync.js:328-340 | each action type runs its handler (303-325) with that handler's exact effect: a background tick schedules a pass over the shuffled ids only on an idle queue; a new threshold evicts and may schedule a pass, the same threshold changes nothing; the three sync actions schedule their ids at their priority; an unsupported type changes nothing; only `SET_SKIP_UNDER_PRIORITY` changes the threshold |
| BridgeSync.BackgroundTimerFires | src/bridge/react/BridgeSync.js:358-361 | one timer firing sends a background tick: a pass over the shuffled ids when the queue is idle, else nothing |
| BridgeSync.PendingOperationsTimerFires | src/bridge/react/BridgeSync.js:383-390 | one firing schedules the accounts with pending operations at priority 20 |
| BridgeSync.FirstSeenFresh | src/bridge/react/BridgeSync.js:101-107 | `FirstSeen`: the currencies a pass hydrates are distinct, and are exactly the account currencies not hydrated before |
| BridgeSync.HydrationStaysOnce | src/bridge/react/BridgeSync.js:99-108 | across passes, no currency is ever hydrated twice, and the hydrated set matches the calls |
| BridgeSync.Hydrator.constructor | src/bridge/react/BridgeSync.js:98 | nothing is hydrated at first |
| BridgeSync.Hydrator.OnAccounts | src/bridge/react/BridgeSync.js:99-108 | the hydrated set grows by the accounts' currencies; the calls grow by the first account of each new currency, in account order; no currency is hydrated twice |
| AccountSync.Stamped | src/bridge/react/BridgeSync.js:152-158 | a throttled attempt leaves the stamps unchanged; otherwise this account is stamped `now`, and no other stamp changes |
| AccountSync.CountForCurrency | src/bridge/react/BridgeSync.js:170-172 | the count is the number of accounts whose currency is `c` (its multiplicity among the accounts' currencies), so zero exactly when none has it |
| AccountSync.TokenEvents | src/bridge/react/BridgeSync.js:177-191 | one `SyncSuccessToken` event per sub-account, in order, carrying its token id (the token's id for a token account, else the parent currency's name), its ticker, its operation count and the parent currency's name |
| AccountSync.EndEvents | src/bridge/react/BridgeSync.js:159-193 | the named event for the account comes first; only a success adds one more event per sub-account |
| AccountSync.EmitsOutcome | src/bridge/react/BridgeSync.js:200-235 | for a stream that emits, `Writes` stores pending then the settled state, every updater is applied, and `Reported` holds its end event unless throttled or dismissed |
| AccountSync.AttemptSettles | src/bridge/react/BridgeSync.js:147-239 | `Writes`: every attempt stores one or two states, the last of them not pending, the first pending unless the bridge lookup threw |
| AccountSync.StoredError | src/bridge/react/BridgeSync.js:207-239 | the final state has no error exactly on completion or a dismissed failure; otherwise it holds the recovered or thrown error |
| AccountSync.EndEventReported | src/bridge/react/BridgeSync.js:207-230 | `EndEvent`: `SyncSuccess` is reported exactly on completion; `SyncError` exactly for a failure whose recovered error is not `NetworkDown` |
| AccountSync.DismissedErrorsNeverSurface | src/bridge/react/BridgeSync.js:215-226 | when `recoverError` dismisses every error, a stream's attempt stores no error |
| AccountSync.ThrottleWindow | src/bridge/react/BridgeSync.js:152-158 | `TrackedRecently` with `Stamped`: after an unthrottled attempt at `t`, a later attempt is throttled exactly when less than 90 seconds have passed, and is otherwise stamped afresh |
| AccountSync.Synchronizer.constructor | src/bridge/react/BridgeSync.js:124-126 | the state map, the throttle map and every log start empty |
| AccountSync.Synchronizer.SetAccountSyncState | src/bridge/react/BridgeSync.js:128-130 | one key of the state map is replaced and the others are kept |
| AccountSync.Synchronizer.TrackEnd | src/bridge/react/BridgeSync.js:159-193 | a throttled attempt reports nothing; otherwise it reports the end events |
| AccountSync.Synchronizer.Start | src/bridge/react/BridgeSync.js:149-158 | the account is set pending, and the throttle is checked and stamped |
| AccountSync.Synchronizer.ApplyUpdaters | src/bridge/react/BridgeSync.js:204-206 | every emitted updater is forwarded for the account, in emission order |
| AccountSync.Synchronizer.Finish | src/bridge/react/BridgeSync.js:207-234 | the settled state is stored, and the end events are reported unless throttled or without an event |
| AccountSync.Synchronizer.Attempt | src/bridge/react/BridgeSync.js:147-239 | the attempt's effects: settled state, stored transitions, forwarded updaters, throttle stamp and reported events, for each way the bridge can behave |
| AccountSync.Synchronizer.Synchronize | src/bridge/react/BridgeSync.js:132-240 | an account already pending, or no longer listed, is skipped with no effect. Otherwise the attempt's effects happen. Either way the worker slot is released exactly once |
| Manager.ToUpper | src/manager.js:77 | the same length, with each character upper-cased |
| Manager.IconUrl | src/manager.js:34-37 | the URL is the icons base followed by the icon name, `bitcoin_testnet` falling back to `bitcoin` |
| Manager.IconUrlSameExactly | src/manager.js:17-19 | two icons share a URL exactly when they are equal or are `bitcoin_testnet` and `bitcoin` |
| Manager.IndexFrom | src/manager.js:40 | the first occurrence of the pattern from a position on, or none |
| Manager.FirmwareVersionRemovesFirstOsu | src/manager.js:39-40 | `FirmwareVersion`: a name without `-osu` is unchanged; otherwise exactly the first `-osu` is removed |
| Manager.FirmwarePredicates | src/manager.js:43-64 | `NeedsLegacyBlueResetInstructions` and `WillResetSeed` go together, and concern Blue before 2.1.1 only. `WillUninstallApps` always holds. `RequiresUserToUninstallApps` concerns Nano S up to 1.4.2. Both version predicates carry over to older versions |
| Manager.FormatHashName | src/manager.js:66-81 | a hash of more than 8 characters that should be shortened becomes its first 4 characters, `...`, and its last 4; otherwise the upper-cased hash is returned |
| Manager.FormatHashNameUpperCase | src/manager.js:77-80 | a formatted hash holds no lower-case letter |
| Manager.HashHasNoLower | src/manager.js:77 | the upper-cased input holds no lower-case letter |
| Manager.EllipsisCases | src/manager.js:72-76 | `ShouldEllipsis`: the hash is shortened when model or info is missing, always for Blue, never for Nano X, and for Nano S before 1.6.0 only |
| Manager.AnyTerminatedApp | src/manager.js:24-29 | true exactly when some terminated currency has that manager app name, ignoring case |
| Manager.CanHandleInstall | src/manager.js:21-29 | installable exactly when the app is not ZenCash, Ripple or Ontology and no terminated currency uses its name |
| Manager.FindMcu | src/manager.js:130-132 | the first MCU of the list with that name, or none exactly when no MCU has it |
| Manager.LatestFirmwareDecision | src/manager.js:96-138 | no OSU means no update. An unknown MCU is `UnknownMCU`. Otherwise the update carries the OSU, its final firmware, and whether the MCU must be flashed, which holds exactly when the final firmware does not list the current MCU |
| Manager.FindApplication | src/manager.js:189 | the first application with that id, or none exactly when none has it |
| Manager.ListableVersions | src/manager.js:188-194 | outside dev mode, a version is kept exactly when its application is known and not of category 2; the kept versions keep their order (a subsequence) and their repeats (each kept version as often as in the input); nothing is added |
| Manager.MatchIndex | src/manager.js:198-201 | the found index is within the list |
| Manager.MatchIndexSpec | src/manager.js:198-201 | the found version matches the currency and is the first that does; none means no version matches |
| Manager.Unmatched | src/manager.js:208 | the remaining versions, in order, without a currency |
| Manager.CurrencyFirstPermutation | src/manager.js:195-208 | `CurrencyFirst`: the moved and the remaining versions together are a permutation of the filtered versions |
| Manager.CurrencyFirstMatches | src/manager.js:197-205 | every moved version carries one of the currencies, and its name matches it |
| Manager.CurrencyFirstOrder | src/manager.js:197-208 | the moved versions follow the currency order, and the remaining versions keep their order |
| Manager.CurrencyFirstComplete | src/manager.js:195-208 | no remaining version matches a listed currency that got no app moved: each currency with a matching version has one moved |
| Manager.CurrencyFirstEarliest | src/manager.js:198-205 | the version moved for a currency is the first that matches it: it comes before every remaining version that also matches |
| Manager.AppsList | src/manager.js:142-209 | OSU or bootloader devices list nothing; otherwise the moved apps come first, followed by the rest of the filtered versions |
| Manager.MoveCurrencyApps | src/manager.js:195-206 | the loop's moved apps and remaining versions are those of the reorder |
| EthereumSubAccounts.ToInt32 | src/families/ethereum/libcore-buildSubAccounts.js:92 | the result is a 32-bit signed number congruent to the input modulo 2^32 |
| EthereumSubAccounts.OpIdValue | src/families/ethereum/libcore-buildSubAccounts.js:92 | `OpId`: the ID is negative exactly when the first byte is 0x80 or more, and is otherwise the big-endian value of the first four bytes |
| EthereumSubAccounts.LedgergotchiIdBytes | src/families/ethereum/libcore-buildSubAccounts.js:15 | an operation's ID is a Ledgergotchi method ID exactly when its data starts 23 b8 72 dd |
| EthereumSubAccounts.FlagAfterAsWrittenIsLast | src/families/ethereum/libcore-buildSubAccounts.js:84-95 | `FlagAfterAsWritten`: the last operation with at least four bytes of data alone decides the flag; with none, the flag is unchanged |
| EthereumSubAccounts.FlagAsWrittenMissesEarlierCall | src/families/ethereum/libcore-buildSubAccounts.js:94 | a Ledgergotchi call followed by a transfer leaves the account unflagged as written, but flagged when corrected |
| EthereumSubAccounts.FlagAfterContains | src/families/ethereum/libcore-buildSubAccounts.js:82-95 | `FlagAfter` (corrected): the flag is set exactly when some operation is a Ledgergotchi call or it already was set; with no operation of four bytes or more, it is unchanged |
| EthereumSubAccounts.FlagAfterIdempotent | src/families/ethereum/libcore-buildSubAccounts.js:82-95 | flagging twice gives the same flag as once, so an account listed twice is flagged correctly |
| EthereumSubAccounts.CoreTokenAccount.constructor | src/families/ethereum/libcore-buildSubAccounts.js:68 | a core token account starts with its balance, operations and contract address, and no flag |
| EthereumSubAccounts.CoreTokenAccount.MarkLedgergotchiAsWritten | src/families/ethereum/libcore-buildSubAccounts.js:84-95 | the loop as written leaves the flag its specification function gives |
| EthereumSubAccounts.CoreTokenAccount.MarkLedgergotchi | src/families/ethereum/libcore-buildSubAccounts.js:82-95 | the corrected loop leaves the flag its specification function gives |
| EthereumSubAccounts.TokenTickers | src/families/ethereum/libcore-buildSubAccounts.js:70-80 | a ticker is listed exactly when some existing token sub-account has it, and there are at most as many tickers as sub-accounts |
| EthereumSubAccounts.TokenTickersPrefix | src/families/ethereum/libcore-buildSubAccounts.js:70-80 | the tickers of the first sub-accounts are a prefix of the whole ticker list: the loop only appends |
| EthereumSubAccounts.TokenTickersOrder | src/families/ethereum/libcore-buildSubAccounts.js:70-80 | tickers are listed in order of first appearance: a ticker first seen before another ranks before it |
| EthereumSubAccounts.LastByTickerDomain | src/families/ethereum/libcore-buildSubAccounts.js:77 | `LastByTicker`: the lookup table has an entry exactly for each listed ticker |
| EthereumSubAccounts.LastByTickerIsLast | src/families/ethereum/libcore-buildSubAccounts.js:77 | each ticker maps to the last existing token account with that ticker |
| EthereumSubAccounts.IndexExisting | src/families/ethereum/libcore-buildSubAccounts.js:70-80 | the loop builds exactly that ticker list and that lookup table from the existing sub-accounts, or from none when there is no existing account |
| EthereumSubAccounts.BuildTokenAccount | src/families/ethereum/libcore-buildSubAccounts.js:17-52 | the id is parent + `+` + contract address, with the parent id, the token, no pending operations and the core balance. The operations reconcile the existing account's operations, or none, with the core's |
| EthereumSubAccounts.Resolving | src/families/ethereum/libcore-buildSubAccounts.js:97-100 | the positions, strictly increasing, of exactly the core token accounts whose contract address resolves to a known token |
| EthereumSubAccounts.Built | src/families/ethereum/libcore-buildSubAccounts.js:97-109 | no more token accounts than core accounts; each belongs to the parent, has the parent-plus-contract id and no pending operations, and comes from a core account whose address resolves to its token |
| EthereumSubAccounts.BuiltResolving | src/families/ethereum/libcore-buildSubAccounts.js:97-109 | exactly one token account per resolving core account, in core order: the i-th built account is `BuildTokenAccount` of the i-th resolving core account, with its token and the previous account of its ticker |
| EthereumSubAccounts.IndexOf | src/families/ethereum/libcore-buildSubAccounts.js:114-115 | the first index of the ticker, or -1 exactly when it is absent |
| EthereumSubAccounts.Rank | src/families/ethereum/libcore-buildSubAccounts.js:113-120 | a rank lies between 0 and the number of existing tickers, and is below that number exactly when the ticker already exists, so new tickers rank after all existing ones |
| EthereumSubAccounts.CompareIsByRank | src/families/ethereum/libcore-buildSubAccounts.js:113-120 | `Compare`: the comparator's sign is the comparison of ranks and is antisymmetric, so it is a consistent ordering |
| EthereumSubAccounts.SortedByRankOrder | src/families/ethereum/libcore-buildSubAccounts.js:113-120 | in a list sorted by rank, no account of a later-ranked ticker comes before one of an earlier-ranked ticker; with `TokenTickersOrder`, existing tickers keep the order of the existing sub-accounts |
| EthereumSubAccounts.MarkAt | src/families/ethereum/libcore-buildSubAccounts.js:82-95 | with the corrected flag test (`FlagAfter`), flagging one more core account keeps every visited one flagged from its operations, even when repeated, and the others unchanged |
| EthereumSubAccounts.BuildAll | src/families/ethereum/libcore-buildSubAccounts.js:82-110 | the loop builds `Built`, which by `BuiltResolving` is one token account per core account of a known token, in core order, and leaves every core account flagged from its operations (corrected flag) |
| EthereumSubAccounts.BuildTokenAccounts | src/families/ethereum/libcore-buildSubAccounts.js:54-123 | without listed tokens: undefined, and no flag changes. Otherwise: the built accounts stably sorted with existing tickers first and new ones after (the existing ones in their previous order, by `TokenTickersOrder` and `SortedByRankOrder`), as a permutation, with every core account flagged (corrected flag) |

## Left out

- React is not modelled: hooks, refs, effects and re-renders. The classes hold the state those hooks keep. Every call sees the current state, so stale closures and the `synchronizeRef`/`ref` indirection are not modelled.
- Interleaving is not modelled: one sync attempt runs from start to end as one step, with its stream events in order. Concurrent attempts on the shared state are left out.
- `SYNC_MAX_CONCURRENT` is the queue's constructor parameter, required to be positive (the queue library rejects zero).
- The queue library's other operations (pause, kill, drain callbacks) are not part of this model. So is the ordering of pushes made while a worker runs, beyond the queue's sorted insert.
- Timers are not modelled (`setTimeout`, the `SYNC_*_INTERVAL` and `SYNC_BOOT_DELAY` settings, `clearTimeout` on unmount). Each firing is a method call.
- `Date.now()` is the parameter `now`.
- The analytics `duration` (a floating-point division), `derivationMode`, `freshAddressPath` and `votesCount` (`getVotesCount`) are omitted from events. Only which events are sent, in which order, with the counted fields, is modelled.
- `log` and `console.warn` are left out.
- `shuffle` is a parameter, required to be a permutation of the account ids.
- The behaviour of `getAccountBridge`, `prepareCurrency` and `bridge.sync` is the `SyncRun` value. A synchronous throw is `BridgeThrows` or `SetupThrows`. A rejected `prepareCurrency` promise is a stream that fails.
- `recoverError` is the parameter `recover`. `updateAccountWithUpdater` and `trackAnalytics` are recorded as logs. `hydrateCurrency` calls are recorded as a log.
- `isUpToDateAccount` is the account field `upToDate`.
- Firmware versions are `major.minor.patch` integer triples. `semver` prerelease tags, and the `TypeError` it throws on an invalid version string, are not modelled.
- `toUpperCase` and `toLowerCase` are ASCII-only.
- In `ICONS_FALLBACK` only the own key `bitcoin_testnet` is modelled. An icon named like an inherited object property (`constructor`) would yield a function's text in JavaScript.
- In the ticker lookup table, object-key quirks such as a `__proto__` ticker are not modelled.
- `getLatestFirmwareForDevice`: the fetches (`getMcus`, `getDeviceVersion`, `getCurrentOSU`, `getCurrentFirmware`, `getLatestFirmware`, `getFinalFirmwareById`) are parameters. Their order and their rejections are not modelled.
- `getAppsList`: the fetches (`getDeviceVersion`, `getCurrentFirmware`, `applicationsByDevice`, `listApps`, the sorted currency list) are parameters. A currency without a `managerAppName` is not modelled; JavaScript would throw on it. Apps without a currency carry `None`, where JavaScript has no `currency` field.
- `ethereumBuildTokenAccounts`: these library calls are parameters or fields:
  - `asEthereumLikeAccount`, `getERC20Accounts`, `getBalance`, `getOperations`, `getToken`, `getContractAddress`, `libcoreBigIntToBigNumber`;
  - `minimalOperationsBuilder` with `buildERC20Operation` (the parameter `reconcile`);
  - `findTokenByAddress` (the parameter `findToken`);
  - `listTokensForCryptoCurrency` (whether it is empty).
- The `if (tokenAccount)` test at `libcore-buildSubAccounts.js:108` always passes, because an object is returned, so it is not modelled.
- `libcore-buildSubAccounts.js:94` has an unmatched `)`, which is a syntax error. The model reads the line without it.
- `Array.prototype.sort` is modelled as a stable sort by rank. The comparator is proved to order by rank.
- BridgeSync.Scheduler.Schedule, BridgeSync.Scheduler.OnSetSkipUnderPriority, BridgeSync.Scheduler.OnBackgroundTick, BridgeSync.Scheduler.Sync, BridgeSync.BackgroundTimerFires and BridgeSync.PendingOperationsTimerFires: they use the corrected dedup and eviction tests (`Scheduled`, `BelowThreshold`) of the first two Findings rows; the behaviour as written is `ScheduledAsWritten` and `BelowThresholdAsWritten`.
- EthereumSubAccounts.MarkAt, EthereumSubAccounts.BuildAll and EthereumSubAccounts.BuildTokenAccounts: they use the corrected flag (`FlagAfter`) of the third Findings row; the loop as written is `FlagAfterAsWritten` and `CoreTokenAccount.MarkLedgergotchiAsWritten`.
- The flag loop at `libcore-buildSubAccounts.js:84-85` calls `getOperations()` and `getData()` without `await`, while line 27 awaits `getOperations()`. The model reads both as plain sequences. If they return promises, `for…of` over a promise throws a `TypeError`; that path is not modelled.
- AccountSync.SyncEvent's `accountId` is not in the tracked payload; the model adds it to tell the events of different accounts apart.
- Manager.MatchIndex: its own contract states only the bound; that it finds the first match is proved in Manager.MatchIndexSpec.

## Findings

| source | as written | input that shows it | evidently intended | confidence | as-written member | corrected member |
|---|---|---|---|---|---|---|
| src/bridge/react/BridgeSync.js:278 | `remove` tests `priority === o.priority`, but the queue stores the key `-priority`. So it matches the entries queued at the opposite priority `-p`, and an entry of the caller's own priority only at 0: a background pass (-1) even drops a queued priority-1 request | schedule `["a","b"]`, then `["c"]`, both at priority 5: `a`, `b` and `c` all stay queued | remove the entries queued at the same priority, leaving only `c` | not executed | BridgeSync.DedupAsWrittenKeepsStaleBatch | BridgeSync.ScheduledReplacesSamePriority |
| src/bridge/react/BridgeSync.js:296 | the test compares a key with the ref object `skipUnderPriority`, not its `current` value. A number compared with that object is never smaller | any queue and any new threshold: nothing is evicted | evict the entries whose caller priority is below the new threshold | not executed | BridgeSync.EvictionAsWrittenKeepsAll | BridgeSync.EvictionKeepsOnlyAdmitted |
| src/families/ethereum/libcore-buildSubAccounts.js:94 | every operation with at least four bytes of data overwrites the flag, so the last such operation decides it | operations with data `23 b8 72 dd`, then `a9 05 9c bb`: the account ends up not flagged | flag the account when it contains one Ledgergotchi call, as line 83 says | not executed | EthereumSubAccounts.FlagAsWrittenMissesEarlierCall | EthereumSubAccounts.FlagAfterContains |
