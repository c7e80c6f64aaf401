/**
 * Building the ERC20 token accounts of an Ethereum account from what the
 * core library reports: which core token accounts become token accounts, how
 * they are built, how they are ordered after the existing ones, and how a core
 * token account gets flagged as a Ledgergotchi account.
 */
module EthereumSubAccounts {
  import opened Wrappers
  import opened StableOrder

  type Byte = b: int | 0 <= b < 256

  // ---------------------------------------------------------------------------
  // Operation method IDs.

  /** The recognised Ledgergotchi method IDs: `0x23b872dd` only. */
  const LedgergotchiMethodIds: set<int> := {0x23b872dd}

  /** JavaScript's ToInt32: the low 32 bits, read as a two's-complement number. */
  function ToInt32(x: int): (r: int)
    ensures -0x8000_0000 <= r < 0x8000_0000
    ensures (r - x) % 0x1_0000_0000 == 0
  {
    var m := x % 0x1_0000_0000;
    if m >= 0x8000_0000 then m - 0x1_0000_0000 else m
  }

  /**
   * `(data[0] << 24) + (data[1] << 16) + (data[2] << 8) + data[3]`: each shift
   * works on 32 bits, which only the first can overflow; the sum is exact.
   */
  function OpId(data: seq<Byte>): int
    requires |data| >= 4
  {
    ToInt32((data[0] as int) * 0x100_0000) + (data[1] as int) * 0x1_0000 + (data[2] as int) * 0x100 + data[3]
  }

  /**
   * The ID is negative exactly when the first byte has its top bit set, and
   * otherwise it is the big-endian value of the first four bytes.
   */
  lemma OpIdValue(data: seq<Byte>)
    requires |data| >= 4
    ensures data[0] < 0x80 ==> OpId(data) == (data[0] as int) * 0x100_0000 + (data[1] as int) * 0x1_0000 + (data[2] as int) * 0x100 + data[3]
    ensures data[0] >= 0x80 <==> OpId(data) < 0
  {
    if data[0] >= 0x80 {
      assert ((data[0] as int) * 0x100_0000) % 0x1_0000_0000 == (data[0] as int) * 0x100_0000;
    } else {
      assert ((data[0] as int) * 0x100_0000) % 0x1_0000_0000 == (data[0] as int) * 0x100_0000;
    }
  }

  /** An operation's data starts a Ledgergotchi call exactly when its first four bytes are 23 b8 72 dd. */
  lemma LedgergotchiIdBytes(data: seq<Byte>)
    requires |data| >= 4
    ensures OpId(data) in LedgergotchiMethodIds <==> data[..4] == [0x23, 0xb8, 0x72, 0xdd]
  {
    OpIdValue(data);
    if data[..4] == [0x23, 0xb8, 0x72, 0xdd] {
      assert data[0] == 0x23 && data[1] == 0xb8 && data[2] == 0x72 && data[3] == 0xdd;
    }
    if OpId(data) == 0x23b872dd {
      var x := (data[0] as int) * 0x100_0000 + (data[1] as int) * 0x1_0000 + (data[2] as int) * 0x100 + data[3];
      assert x == 0x23b872dd;
      assert data[3] == x % 0x100;
      assert data[0] == 0x23;
      assert data[1] == 0xb8;
      assert data[2] == 0x72;
    }
  }

  // ---------------------------------------------------------------------------
  // Core token accounts and the Ledgergotchi flag.

  datatype CoreOperation = CoreOperation(hash: string, data: seq<Byte>)

  predicate Qualifies(op: CoreOperation) {
    |op.data| >= 4
  }

  predicate IsLedgergotchiCall(op: CoreOperation) {
    Qualifies(op) && OpId(op.data) in LedgergotchiMethodIds
  }

  /**
   * The flag after the loop as written: each operation with at least four
   * bytes of data overwrites it with whether that operation is a call.
   */
  function FlagAfterAsWritten(ops: seq<CoreOperation>, flag: Option<bool>): Option<bool> {
    if ops == [] then flag
    else
      var prev := FlagAfterAsWritten(ops[..|ops| - 1], flag);
      var op := ops[|ops| - 1];
      if !Qualifies(op) then prev else Some(OpId(op.data) in LedgergotchiMethodIds)
  }

  /** The flag after the corrected loop: once a call is seen, it stays set. */
  function FlagAfter(ops: seq<CoreOperation>, flag: Option<bool>): Option<bool> {
    if ops == [] then flag
    else
      var prev := FlagAfter(ops[..|ops| - 1], flag);
      var op := ops[|ops| - 1];
      if !Qualifies(op) then prev else Some(prev == Some(true) || OpId(op.data) in LedgergotchiMethodIds)
  }

  /** As written, the last operation with enough data alone decides the flag. */
  lemma {:induction false} FlagAfterAsWrittenIsLast(ops: seq<CoreOperation>, flag: Option<bool>)
    ensures (forall j :: 0 <= j < |ops| ==> !Qualifies(ops[j])) ==> FlagAfterAsWritten(ops, flag) == flag
    ensures forall j :: 0 <= j < |ops| && Qualifies(ops[j]) && (forall l :: j < l < |ops| ==> !Qualifies(ops[l])) ==>
      FlagAfterAsWritten(ops, flag) == Some(IsLedgergotchiCall(ops[j]))
  {
    if ops != [] {
      var init := ops[..|ops| - 1];
      var n := |ops| - 1;
      FlagAfterAsWrittenIsLast(init, flag);
      assert forall j :: 0 <= j < |init| ==> init[j] == ops[j];
      forall j | 0 <= j < |ops| && Qualifies(ops[j]) && (forall l :: j < l < |ops| ==> !Qualifies(ops[l]))
        ensures FlagAfterAsWritten(ops, flag) == Some(IsLedgergotchiCall(ops[j]))
      {
        if j < n {
          assert !Qualifies(ops[n]);
          assert forall l :: j < l < |init| ==> !Qualifies(init[l]);
          assert Qualifies(init[j]) && init[j] == ops[j];
        }
      }
    }
  }

  /**
   * Corrected, the flag is set exactly when some operation is a Ledgergotchi
   * call (or it already was); with no operation of four bytes or more it is
   * left as it was.
   */
  lemma {:induction false} FlagAfterContains(ops: seq<CoreOperation>, flag: Option<bool>)
    ensures (forall j :: 0 <= j < |ops| ==> !Qualifies(ops[j])) ==> FlagAfter(ops, flag) == flag
    ensures (exists j :: 0 <= j < |ops| && Qualifies(ops[j])) ==>
      FlagAfter(ops, flag) == Some(flag == Some(true) || exists j :: 0 <= j < |ops| && IsLedgergotchiCall(ops[j]))
  {
    if ops != [] {
      var init := ops[..|ops| - 1];
      FlagAfterContains(init, flag);
      assert forall j :: 0 <= j < |init| ==> init[j] == ops[j];
      if exists j :: 0 <= j < |ops| && IsLedgergotchiCall(ops[j]) {
        var j :| 0 <= j < |ops| && IsLedgergotchiCall(ops[j]);
        if j < |init| {
          assert IsLedgergotchiCall(init[j]);
        }
      }
    }
  }

  /** Running the corrected loop twice sets the same flag as running it once. */
  lemma FlagAfterIdempotent(ops: seq<CoreOperation>, flag: Option<bool>)
    ensures FlagAfter(ops, FlagAfter(ops, flag)) == FlagAfter(ops, flag)
  {
    FlagAfterContains(ops, flag);
    FlagAfterContains(ops, FlagAfter(ops, flag));
  }

  /**
   * A Ledgergotchi call followed by an ERC20 `transfer` (a9 05 9c bb): as
   * written, the account ends up not flagged; corrected, it is flagged.
   */
  lemma FlagAsWrittenMissesEarlierCall()
    ensures var ops := [CoreOperation("0x1", [0x23, 0xb8, 0x72, 0xdd]), CoreOperation("0x2", [0xa9, 0x05, 0x9c, 0xbb])];
      FlagAfterAsWritten(ops, None) == Some(false) && FlagAfter(ops, None) == Some(true)
  {
    var ops := [CoreOperation("0x1", [0x23, 0xb8, 0x72, 0xdd]), CoreOperation("0x2", [0xa9, 0x05, 0x9c, 0xbb])];
    assert ops[..1] == [ops[0]];
    assert [ops[0]][..0] == [];
    LedgergotchiIdBytes(ops[0].data);
    LedgergotchiIdBytes(ops[1].data);
    assert ops[1].data[..4] != [0x23, 0xb8, 0x72, 0xdd];
  }

  /** A core ERC20 account: its balance, its operations and its token's contract address. */
  class CoreTokenAccount {
    const balance: int
    const operations: seq<CoreOperation>
    const contractAddress: string
    var isLedgergotchiAccount: Option<bool>

    constructor (balance: int, operations: seq<CoreOperation>, contractAddress: string)
      ensures this.balance == balance && this.operations == operations
      ensures this.contractAddress == contractAddress && isLedgergotchiAccount == None
    {
      this.balance := balance;
      this.operations := operations;
      this.contractAddress := contractAddress;
      isLedgergotchiAccount := None;
    }

    /** The flagging loop as written. */
    method MarkLedgergotchiAsWritten()
      modifies this
      ensures isLedgergotchiAccount == FlagAfterAsWritten(operations, old(isLedgergotchiAccount))
    {
      var k := 0;
      while k < |operations|
        invariant k <= |operations|
        invariant isLedgergotchiAccount == FlagAfterAsWritten(operations[..k], old(isLedgergotchiAccount))
      {
        assert operations[..k + 1][..k] == operations[..k];
        var data := operations[k].data;
        if |data| < 4 {
          k := k + 1;
          continue;
        }
        var opId := OpId(data);
        isLedgergotchiAccount := Some(opId in LedgergotchiMethodIds);
        k := k + 1;
      }
      assert operations[..k] == operations;
    }

    /** The flagging loop, corrected so that an earlier call is not overwritten. */
    method MarkLedgergotchi()
      modifies this
      ensures isLedgergotchiAccount == FlagAfter(operations, old(isLedgergotchiAccount))
    {
      var k := 0;
      while k < |operations|
        invariant k <= |operations|
        invariant isLedgergotchiAccount == FlagAfter(operations[..k], old(isLedgergotchiAccount))
      {
        assert operations[..k + 1][..k] == operations[..k];
        var data := operations[k].data;
        if |data| < 4 {
          k := k + 1;
          continue;
        }
        var opId := OpId(data);
        isLedgergotchiAccount := Some(isLedgergotchiAccount == Some(true) || opId in LedgergotchiMethodIds);
        k := k + 1;
      }
      assert operations[..k] == operations;
    }
  }

  // ---------------------------------------------------------------------------
  // Token accounts.

  datatype TokenCurrency = TokenCurrency(id: string, ticker: string, contractAddress: string)

  /** An operation of a token account, as the reconciliation produces it. */
  datatype Operation = Operation(id: string, hash: string)

  datatype TokenAccount = TokenAccount(
    id: string,
    parentId: string,
    token: TokenCurrency,
    operations: seq<Operation>,
    pendingOperations: seq<Operation>,
    balance: int)

  datatype SubAccount = TokenSub(account: TokenAccount) | ChildSub(id: string)

  /**
   * Reconciles the existing operations of a token account with the core's:
   * stands for `minimalOperationsBuilder` with `buildERC20Operation`, given
   * the new account id.
   */
  type Reconcile = (string, seq<Operation>, seq<CoreOperation>) -> seq<Operation>

  /** The tickers of the existing token accounts, in order (repeats kept). */
  function TokenTickers(subs: seq<SubAccount>): (r: seq<string>)
    ensures |r| <= |subs|
    ensures forall t :: t in r <==> exists i :: 0 <= i < |subs| && subs[i].TokenSub? && subs[i].account.token.ticker == t
  {
    if subs == [] then []
    else
      var init := subs[..|subs| - 1];
      var last := subs[|subs| - 1];
      assert forall i :: 0 <= i < |init| ==> init[i] == subs[i];
      TokenTickers(init) + (if last.TokenSub? then [last.account.token.ticker] else [])
  }

  /** The tickers are recorded as the loop meets them: those of a prefix of the sub-accounts come first. */
  lemma {:induction false} TokenTickersPrefix(subs: seq<SubAccount>, m: nat)
    requires m <= |subs|
    ensures TokenTickers(subs[..m]) <= TokenTickers(subs)
  {
    if m < |subs| {
      var init := subs[..|subs| - 1];
      assert init[..m] == subs[..m];
      TokenTickersPrefix(init, m);
    } else {
      assert subs[..m] == subs;
    }
  }

  /** `existingAccountByTicker`: each ticker to the last existing token account with it. */
  function LastByTicker(subs: seq<SubAccount>): map<string, TokenAccount> {
    if subs == [] then map[]
    else
      var m := LastByTicker(subs[..|subs| - 1]);
      var last := subs[|subs| - 1];
      if last.TokenSub? then m[last.account.token.ticker := last.account] else m
  }

  /** `subs[i]` is the last token account with ticker `t`. */
  predicate LastWithTicker(subs: seq<SubAccount>, i: int, t: string) {
    && 0 <= i < |subs|
    && subs[i].TokenSub? && subs[i].account.token.ticker == t
    && forall l :: i < l < |subs| ==> !(subs[l].TokenSub? && subs[l].account.token.ticker == t)
  }

  /** The lookup table holds exactly the tickers of the existing token accounts. */
  lemma {:induction false} LastByTickerDomain(subs: seq<SubAccount>)
    ensures forall t :: t in LastByTicker(subs) <==> t in TokenTickers(subs)
  {
    if subs != [] {
      LastByTickerDomain(subs[..|subs| - 1]);
    }
  }

  /** Each ticker maps to the last existing token account with that ticker. */
  lemma {:induction false} LastByTickerIsLast(subs: seq<SubAccount>)
    ensures forall t :: t in LastByTicker(subs) ==>
      exists i :: LastWithTicker(subs, i, t) && subs[i].account == LastByTicker(subs)[t]
  {
    if subs != [] {
      var init := subs[..|subs| - 1];
      LastByTickerIsLast(init);
      var m := LastByTicker(subs);
      var last := subs[|subs| - 1];
      forall t | t in m
        ensures exists i :: LastWithTicker(subs, i, t) && subs[i].account == m[t]
      {
        if last.TokenSub? && last.account.token.ticker == t {
          assert LastWithTicker(subs, |subs| - 1, t);
        } else {
          assert t in LastByTicker(init) && m[t] == LastByTicker(init)[t];
          var i :| LastWithTicker(init, i, t) && init[i].account == LastByTicker(init)[t];
          LastWithTickerExtend(subs, i, t);
        }
      }
    }
  }

  lemma LastWithTickerExtend(subs: seq<SubAccount>, i: int, t: string)
    requires subs != [] && LastWithTicker(subs[..|subs| - 1], i, t)
    requires !(subs[|subs| - 1].TokenSub? && subs[|subs| - 1].account.token.ticker == t)
    ensures LastWithTicker(subs, i, t)
  {
    var init := subs[..|subs| - 1];
    assert forall l :: i < l < |init| ==> init[l] == subs[l];
  }

  /** The existing sub-accounts: none when there is no existing account or it has no sub-accounts. */
  function ExistingSubs(existing: Option<seq<SubAccount>>): seq<SubAccount> {
    if existing.Some? then existing.value else []
  }

  /** The loop that indexes the existing token accounts by ticker. */
  method IndexExisting(existing: Option<seq<SubAccount>>) returns (tickers: seq<string>, byTicker: map<string, TokenAccount>)
    ensures tickers == TokenTickers(ExistingSubs(existing))
    ensures byTicker == LastByTicker(ExistingSubs(existing))
  {
    tickers := [];
    byTicker := map[];
    if existing.Some? {
      var subs := existing.value;
      var k := 0;
      while k < |subs|
        invariant k <= |subs|
        invariant tickers == TokenTickers(subs[..k])
        invariant byTicker == LastByTicker(subs[..k])
      {
        assert subs[..k + 1][..k] == subs[..k];
        var sub := subs[k];
        if sub.TokenSub? {
          var ticker := sub.account.token.ticker;
          tickers := tickers + [ticker];
          byTicker := byTicker[ticker := sub.account];
        }
        k := k + 1;
      }
      assert subs[..k] == subs;
    }
  }

  /** `buildERC20TokenAccount`. */
  function BuildTokenAccount(parentAccountId: string, token: TokenCurrency, core: CoreTokenAccount,
                             existing: Option<TokenAccount>, reconcile: Reconcile): (r: TokenAccount)
    ensures r.id == parentAccountId + "+" + token.contractAddress
    ensures r.parentId == parentAccountId && r.token == token && r.pendingOperations == []
    ensures r.balance == core.balance
    ensures r.operations == reconcile(r.id, if existing.Some? then existing.value.operations else [], core.operations)
  {
    var id := parentAccountId + "+" + token.contractAddress;
    TokenAccount(id, parentAccountId, token,
                 reconcile(id, if existing.Some? then existing.value.operations else [], core.operations),
                 [], core.balance)
  }

  /** The previous token account with this ticker, if any. */
  function ExistingFor(byTicker: map<string, TokenAccount>, ticker: string): Option<TokenAccount> {
    if ticker in byTicker then Some(byTicker[ticker]) else None
  }

  /**
   * The token accounts built, in core order: one for each core token account
   * whose contract address resolves to a known token.
   */
  function Built(cores: seq<CoreTokenAccount>, accountId: string, byTicker: map<string, TokenAccount>,
                 findToken: string -> Option<TokenCurrency>, reconcile: Reconcile): (r: seq<TokenAccount>)
    ensures |r| <= |cores|
    ensures forall a :: a in r ==>
      && a.parentId == accountId
      && a.id == accountId + "+" + a.token.contractAddress
      && a.pendingOperations == []
      && (exists c :: c in cores && findToken(c.contractAddress) == Some(a.token))
  {
    if cores == [] then []
    else
      var init := cores[..|cores| - 1];
      var core := cores[|cores| - 1];
      assert forall c :: c in init ==> c in cores;
      var token := findToken(core.contractAddress);
      Built(init, accountId, byTicker, findToken, reconcile)
        + (if token.Some? then [BuildTokenAccount(accountId, token.value, core, ExistingFor(byTicker, token.value.ticker), reconcile)]
           else [])
  }

  /**
   * The positions, in increasing order, of the core token accounts whose
   * contract address resolves to a known token.
   */
  function Resolving(cores: seq<CoreTokenAccount>, findToken: string -> Option<TokenCurrency>): (idx: seq<nat>)
    ensures forall i :: 0 <= i < |idx| ==> idx[i] < |cores| && findToken(cores[idx[i]].contractAddress).Some?
    ensures forall i, j :: 0 <= i < j < |idx| ==> idx[i] < idx[j]
    ensures forall k :: 0 <= k < |cores| && findToken(cores[k].contractAddress).Some? ==> k in idx
  {
    if cores == [] then []
    else
      var init := cores[..|cores| - 1];
      var rest := Resolving(init, findToken);
      assert forall k :: 0 <= k < |init| ==> init[k] == cores[k];
      if findToken(cores[|cores| - 1].contractAddress).Some? then rest + [|cores| - 1] else rest
  }

  /**
   * `r` is, position by position, the token accounts built from the core
   * token accounts at positions `idx`, each with its known token and the
   * previous account of that token's ticker.
   */
  ghost predicate BuiltAlong(r: seq<TokenAccount>, idx: seq<nat>, cores: seq<CoreTokenAccount>, accountId: string,
                             byTicker: map<string, TokenAccount>, findToken: string -> Option<TokenCurrency>, reconcile: Reconcile)
  {
    && |r| == |idx|
    && forall i :: 0 <= i < |idx| ==>
         && idx[i] < |cores|
         && findToken(cores[idx[i]].contractAddress).Some?
         && var token := findToken(cores[idx[i]].contractAddress).value;
            r[i] == BuildTokenAccount(accountId, token, cores[idx[i]], ExistingFor(byTicker, token.ticker), reconcile)
  }

  /** Appending one core account, and its token account when it resolves, keeps the correspondence. */
  lemma BuiltAlongSnoc(r: seq<TokenAccount>, idx: seq<nat>, cores: seq<CoreTokenAccount>, accountId: string,
                       byTicker: map<string, TokenAccount>, findToken: string -> Option<TokenCurrency>, reconcile: Reconcile)
    requires cores != [] && BuiltAlong(r, idx, cores[..|cores| - 1], accountId, byTicker, findToken, reconcile)
    ensures var last := |cores| - 1;
      var token := findToken(cores[last].contractAddress);
      BuiltAlong(r + (if token.Some? then [BuildTokenAccount(accountId, token.value, cores[last], ExistingFor(byTicker, token.value.ticker), reconcile)] else []),
                 idx + (if token.Some? then [last] else []), cores, accountId, byTicker, findToken, reconcile)
  {
    var init := cores[..|cores| - 1];
    assert forall k :: 0 <= k < |init| ==> init[k] == cores[k];
  }

  /**
   * Exactly one token account per resolving core token account, in core
   * order: the i-th built account is the one built from the i-th resolving
   * core account, with its token and the previous account of its ticker.
   */
  lemma {:induction false} BuiltResolving(cores: seq<CoreTokenAccount>, accountId: string, byTicker: map<string, TokenAccount>,
                                          findToken: string -> Option<TokenCurrency>, reconcile: Reconcile)
    ensures BuiltAlong(Built(cores, accountId, byTicker, findToken, reconcile), Resolving(cores, findToken),
                       cores, accountId, byTicker, findToken, reconcile)
  {
    if cores != [] {
      BuiltResolving(cores[..|cores| - 1], accountId, byTicker, findToken, reconcile);
      BuiltAlongSnoc(Built(cores[..|cores| - 1], accountId, byTicker, findToken, reconcile),
                     Resolving(cores[..|cores| - 1], findToken), cores, accountId, byTicker, findToken, reconcile);
    }
  }

  /** One more core token account adds at most its own token account. */
  lemma BuiltSnoc(cores: seq<CoreTokenAccount>, k: nat, accountId: string, byTicker: map<string, TokenAccount>,
                  findToken: string -> Option<TokenCurrency>, reconcile: Reconcile)
    requires k < |cores|
    ensures var token := findToken(cores[k].contractAddress);
      Built(cores[..k + 1], accountId, byTicker, findToken, reconcile)
      == Built(cores[..k], accountId, byTicker, findToken, reconcile)
         + (if token.Some? then [BuildTokenAccount(accountId, token.value, cores[k], ExistingFor(byTicker, token.value.ticker), reconcile)]
            else [])
  {
    assert cores[..k + 1][..k] == cores[..k];
  }

  // ---------------------------------------------------------------------------
  // Ordering.

  /** `existingAccountTickers.indexOf(ticker)`: the first index, or -1. */
  function IndexOf(tickers: seq<string>, ticker: string): (i: int)
    ensures -1 <= i < |tickers|
    ensures i == -1 <==> ticker !in tickers
    ensures i >= 0 ==> tickers[i] == ticker && forall j :: 0 <= j < i ==> tickers[j] != ticker
  {
    if tickers == [] then -1
    else if tickers[0] == ticker then 0
    else
      var i := IndexOf(tickers[1..], ticker);
      if i == -1 then -1 else i + 1
  }

  /** The comparator passed to `sort`, exactly as written. */
  function Compare(tickers: seq<string>, a: TokenAccount, b: TokenAccount): int {
    var i := IndexOf(tickers, a.token.ticker);
    var j := IndexOf(tickers, b.token.ticker);
    if i == j then 0
    else if i < 0 then 1
    else if j < 0 then -1
    else i - j
  }

  /** A token account's place: the position of its ticker, or after all of them when new. */
  function Rank(tickers: seq<string>, ticker: string): (r: int)
    ensures 0 <= r <= |tickers|
    ensures r < |tickers| <==> ticker in tickers
  {
    var i := IndexOf(tickers, ticker);
    if i < 0 then |tickers| else i
  }

  function RankOf(tickers: seq<string>): TokenAccount -> int {
    (a: TokenAccount) => Rank(tickers, a.token.ticker)
  }

  /**
   * The comparator orders token accounts as their ranks do, so it is a
   * consistent ordering and a stable sort with it sorts by rank: existing
   * tickers first, in their previous order, new ones after them.
   */
  lemma CompareIsByRank(tickers: seq<string>, a: TokenAccount, b: TokenAccount)
    ensures Compare(tickers, a, b) == 0 <==> Rank(tickers, a.token.ticker) == Rank(tickers, b.token.ticker)
    ensures Compare(tickers, a, b) < 0 <==> Rank(tickers, a.token.ticker) < Rank(tickers, b.token.ticker)
    ensures Compare(tickers, a, b) > 0 <==> Rank(tickers, a.token.ticker) > Rank(tickers, b.token.ticker)
    ensures Compare(tickers, a, b) < 0 <==> Compare(tickers, b, a) > 0
  {
  }

  /**
   * Existing tickers rank in the order the existing token accounts show them:
   * a ticker first met after another one ranks after it.
   */
  lemma TokenTickersOrder(subs: seq<SubAccount>, i: nat, j: nat)
    requires i < j < |subs| && subs[i].TokenSub? && subs[j].TokenSub?
    requires forall l :: 0 <= l <= i ==> !(subs[l].TokenSub? && subs[l].account.token.ticker == subs[j].account.token.ticker)
    ensures Rank(TokenTickers(subs), subs[i].account.token.ticker) < Rank(TokenTickers(subs), subs[j].account.token.ticker)
  {
    var r := TokenTickers(subs);
    var ti, tj := subs[i].account.token.ticker, subs[j].account.token.ticker;
    var a, b := TokenTickers(subs[..i]), TokenTickers(subs[..i + 1]);
    assert subs[..i + 1][..i] == subs[..i];
    assert b == a + [ti];
    TokenTickersPrefix(subs, i + 1);
    assert r[|a|] == ti;
    assert tj in r;
    assert tj !in b by {
      var pre := subs[..i + 1];
      forall l | 0 <= l < |pre| ensures !(pre[l].TokenSub? && pre[l].account.token.ticker == tj) {
        assert pre[l] == subs[l];
      }
    }
    assert forall x :: 0 <= x < |b| ==> r[x] == b[x] && b[x] != tj;
    var ki, kj := IndexOf(r, ti), IndexOf(r, tj);
    assert 0 <= ki <= |a| && Rank(r, ti) == ki;
    assert r[kj] == tj && kj >= |b| && Rank(r, tj) == kj;
  }

  /** In a sequence sorted by rank, no account of a higher-ranked ticker comes before one of a lower-ranked ticker. */
  lemma SortedByRankOrder(tickers: seq<string>, out: seq<TokenAccount>, ti: string, tj: string)
    requires SortedBy(out, RankOf(tickers)) && Rank(tickers, ti) < Rank(tickers, tj)
    ensures forall p, q :: 0 <= p < q < |out| && out[p].token.ticker == tj ==> out[q].token.ticker != ti
  {
    forall p, q | 0 <= p < q < |out| && out[p].token.ticker == tj
      ensures out[q].token.ticker != ti
    {
      SortedAt(out, RankOf(tickers), p, q);
    }
  }

  // ---------------------------------------------------------------------------
  // ethereumBuildTokenAccounts.

  /**
   * `ethereumBuildTokenAccounts`: `hasListedTokens` is whether
   * `listTokensForCryptoCurrency(currency)` is non-empty, `cores` what
   * `getERC20Accounts()` returns, `existing` the existing account's
   * sub-accounts, `findToken` stands for `findTokenByAddress`.
   */
  method BuildTokenAccounts(hasListedTokens: bool, cores: seq<CoreTokenAccount>, accountId: string,
                            existing: Option<seq<SubAccount>>,
                            findToken: string -> Option<TokenCurrency>, reconcile: Reconcile)
    returns (r: Option<seq<TokenAccount>>)
    modifies set c | c in cores
    ensures !hasListedTokens ==> r.None? && forall c :: c in cores ==> c.isLedgergotchiAccount == old(c.isLedgergotchiAccount)
    ensures hasListedTokens ==> r.Some?
    ensures hasListedTokens ==>
      var tickers := TokenTickers(ExistingSubs(existing));
      var built := Built(cores, accountId, LastByTicker(ExistingSubs(existing)), findToken, reconcile);
      && SortedBy(r.value, RankOf(tickers))
      && multiset(r.value) == multiset(built)
      && (forall k :: OfRank(r.value, RankOf(tickers), k) == OfRank(built, RankOf(tickers), k))
    ensures hasListedTokens ==>
      forall c :: c in cores ==> c.isLedgergotchiAccount == FlagAfter(c.operations, old(c.isLedgergotchiAccount))
  {
    if !hasListedTokens {
      return None;
    }
    var tickers, byTicker := IndexExisting(existing);
    var tokenAccounts := BuildAll(cores, accountId, byTicker, findToken, reconcile);
    var sorted := StableSort(tokenAccounts, RankOf(tickers));
    return Some(sorted);
  }

  /**
   * The flags after the first `k` core accounts went through the loop: each of
   * them holds the flag its operations decide from its flag in `flags`, every
   * other one still holds its flag in `flags`.
   */
  ghost predicate Marked(cores: seq<CoreTokenAccount>, k: nat, flags: map<CoreTokenAccount, Option<bool>>)
    requires k <= |cores|
    reads set c | c in cores
  {
    && (forall c :: c in cores ==> c in flags)
    && (forall c :: c in cores[..k] ==> c.isLedgergotchiAccount == FlagAfter(c.operations, flags[c]))
    && (forall c :: c in cores && c !in cores[..k] ==> c.isLedgergotchiAccount == flags[c])
  }

  /** One turn of the flag loop: mark `cores[k]`, which may also appear earlier in `cores`. */
  method MarkAt(cores: seq<CoreTokenAccount>, k: nat, ghost flags: map<CoreTokenAccount, Option<bool>>)
    requires k < |cores| && Marked(cores, k, flags)
    modifies cores[k]
    ensures Marked(cores, k + 1, flags)
  {
    var core := cores[k];
    TakeSnoc(cores, k);
    FlagAfterIdempotent(core.operations, flags[core]);
    core.MarkLedgergotchi();
  }

  /** The loop over the core token accounts: flag each one, then build its token account if its token is known. */
  method BuildAll(cores: seq<CoreTokenAccount>, accountId: string, byTicker: map<string, TokenAccount>,
                  findToken: string -> Option<TokenCurrency>, reconcile: Reconcile)
    returns (tokenAccounts: seq<TokenAccount>)
    modifies set c | c in cores
    ensures tokenAccounts == Built(cores, accountId, byTicker, findToken, reconcile)
    ensures forall c :: c in cores ==> c.isLedgergotchiAccount == FlagAfter(c.operations, old(c.isLedgergotchiAccount))
  {
    tokenAccounts := [];
    ghost var flags := map c | c in cores :: c.isLedgergotchiAccount;
    var k := 0;
    while k < |cores|
      invariant k <= |cores|
      invariant tokenAccounts == Built(cores[..k], accountId, byTicker, findToken, reconcile)
      invariant Marked(cores, k, flags)
    {
      var core := cores[k];
      MarkAt(cores, k, flags);
      var token := findToken(core.contractAddress);
      BuiltSnoc(cores, k, accountId, byTicker, findToken, reconcile);
      if token.Some? {
        var tokenAccount := BuildTokenAccount(accountId, token.value, core, ExistingFor(byTicker, token.value.ticker), reconcile);
        tokenAccounts := tokenAccounts + [tokenAccount];
      }
      k := k + 1;
    }
    assert cores[..k] == cores;
  }
}
