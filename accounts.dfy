/** The parts of an account record, and of an error, that the sync scheduler reads. */
module Accounts {
  import opened Wrappers
  import opened StableOrder

  type AccountId = string
  type CurrencyId = string

  datatype Currency = Currency(id: CurrencyId, name: string)

  datatype SubAccountKind = TokenAccount | ChildAccount

  /** A sub-account, with the currency (or token) that `getAccountCurrency` gives for it. */
  datatype SubAccount = SubAccount(kind: SubAccountKind, currencyId: string, ticker: string, operationsCount: nat)

  /**
   * An account as the scheduler sees it. `upToDate` stands for what the
   * external `isUpToDateAccount` reports for it.
   */
  datatype Account = Account(
    id: AccountId,
    currency: Currency,
    subAccounts: seq<SubAccount>,
    pendingOperations: nat,
    operationsCount: nat,
    upToDate: bool)

  /** An error with the `name` that classifies it (`"NetworkDown"` among others). */
  datatype Error = Error(name: string, message: string)

  /** The sync status of one account. */
  datatype SyncState = SyncState(pending: bool, error: Option<Error>)

  /** The state of an account that has never been synced. */
  const Nothing := SyncState(false, None)

  /** `accounts.find(a => a.id === id)`: the first account with that id. */
  function FindAccount(accounts: seq<Account>, id: AccountId): (r: Option<Account>)
    ensures r.None? <==> forall a :: a in accounts ==> a.id != id
    ensures r.Some? ==> r.value.id == id
    ensures r.Some? ==> exists i :: 0 <= i < |accounts| && accounts[i] == r.value && (forall j :: 0 <= j < i ==> accounts[j].id != id)
  {
    Find(accounts, (a: Account) => a.id == id)
  }

  /** `accounts.map(a => a.id)`. */
  function AccountIds(accounts: seq<Account>): (r: seq<AccountId>)
    ensures |r| == |accounts|
    ensures forall i :: 0 <= i < |r| ==> r[i] == accounts[i].id
  {
    MapSeq(accounts, (a: Account) => a.id)
  }
}
