/**
 * The local logic of the device manager cache: icon URLs, firmware names,
 * hash formatting, install eligibility, firmware-update predicates, the
 * decision that ends `getLatestFirmwareForDevice`, and the filter-then-reorder
 * step that ends `getAppsList`. Network results arrive as parameters.
 */
module Manager {
  import opened Wrappers
  import StableOrder

  // ---------------------------------------------------------------------------
  // Strings (ASCII case mapping).

  function UpperChar(c: char): char {
    if 'a' <= c <= 'z' then (c as int - 32) as char else c
  }

  function LowerChar(c: char): char {
    if 'A' <= c <= 'Z' then (c as int + 32) as char else c
  }

  /** `toUpperCase()` on ASCII text. */
  function ToUpper(s: string): (r: string)
    ensures |r| == |s|
    ensures forall i :: 0 <= i < |s| ==> r[i] == UpperChar(s[i])
  {
    if s == [] then [] else [UpperChar(s[0])] + ToUpper(s[1..])
  }

  /** `toLowerCase()` on ASCII text. */
  function ToLower(s: string): string {
    if s == [] then [] else [LowerChar(s[0])] + ToLower(s[1..])
  }

  // ---------------------------------------------------------------------------
  // Icons.

  const IconsBaseUrl := "https://api.ledgerwallet.com/update/assets/icons/"

  /** `ICONS_FALLBACK[icon] || icon`. */
  function IconName(icon: string): string {
    if icon == "bitcoin_testnet" then "bitcoin" else icon
  }

  /** `getIconUrl`. */
  function IconUrl(icon: string): (url: string)
    ensures |url| >= |IconsBaseUrl|
    ensures url[..|IconsBaseUrl|] == IconsBaseUrl
    ensures url[|IconsBaseUrl|..] == if icon == "bitcoin_testnet" then "bitcoin" else icon
  {
    IconsBaseUrl + IconName(icon)
  }

  /**
   * Two icons share a URL exactly when they share an icon name after the
   * fallback: `bitcoin_testnet` and `bitcoin` share one, and no other two do.
   */
  lemma IconUrlSameExactly(a: string, b: string)
    ensures IconUrl(a) == IconUrl(b) <==> IconName(a) == IconName(b)
    ensures IconUrl(a) == IconUrl(b) <==> a == b || {a, b} == {"bitcoin_testnet", "bitcoin"}
  {
    if IconUrl(a) == IconUrl(b) {
      assert IconName(a) == IconUrl(a)[|IconsBaseUrl|..];
      assert IconName(b) == IconUrl(b)[|IconsBaseUrl|..];
    }
  }

  // ---------------------------------------------------------------------------
  // Firmware names.

  predicate OccursAt(s: string, pat: string, j: int) {
    0 <= j && j + |pat| <= |s| && s[j..j + |pat|] == pat
  }

  /** The first index, from `from` on, where `pat` occurs in `s`. */
  function IndexFrom(s: string, pat: string, from: nat): (r: Option<nat>)
    ensures r.Some? ==> from <= r.value && OccursAt(s, pat, r.value)
    ensures forall j :: from <= j && (r.None? || j < r.value) ==> !OccursAt(s, pat, j)
    decreases |s| - from
  {
    if from + |pat| > |s| then None
    else if OccursAt(s, pat, from) then Some(from)
    else IndexFrom(s, pat, from + 1)
  }

  const OsuSuffix := "-osu"

  /** `getFirmwareVersion`: `firmware.name.replace("-osu", "")`. */
  function FirmwareVersion(name: string): string {
    match IndexFrom(name, OsuSuffix, 0)
    case None => name
    case Some(i) => name[..i] + name[i + |OsuSuffix|..]
  }

  /**
   * Only the first `-osu` goes: a name without it is unchanged; otherwise
   * putting `-osu` back at its first position gives the name again.
   */
  lemma FirmwareVersionRemovesFirstOsu(name: string)
    ensures (forall j :: !OccursAt(name, OsuSuffix, j)) ==> FirmwareVersion(name) == name
    ensures forall i :: OccursAt(name, OsuSuffix, i) && (forall j :: 0 <= j < i ==> !OccursAt(name, OsuSuffix, j)) ==>
      var v := FirmwareVersion(name);
      |v| == |name| - 4 && v[..i] + OsuSuffix + v[i..] == name
  {
    var r := IndexFrom(name, OsuSuffix, 0);
    forall i | OccursAt(name, OsuSuffix, i) && (forall j :: 0 <= j < i ==> !OccursAt(name, OsuSuffix, j))
      ensures var v := FirmwareVersion(name); |v| == |name| - 4 && v[..i] + OsuSuffix + v[i..] == name
    {
      assert r.Some? && r.value == i;
      var v := name[..i] + name[i + 4..];
      assert v[..i] == name[..i];
      assert v[i..] == name[i + 4..];
      assert name == name[..i] + name[i..i + 4] + name[i + 4..];
    }
  }

  // ---------------------------------------------------------------------------
  // Devices and versions.

  datatype DeviceModelId = Blue | NanoS | NanoX

  /** A firmware version `major.minor.patch`, compared as `semver` does. */
  datatype Version = Version(major: nat, minor: nat, patch: nat)

  predicate VersionLt(a: Version, b: Version) {
    a.major < b.major
    || (a.major == b.major && (a.minor < b.minor || (a.minor == b.minor && a.patch < b.patch)))
  }

  predicate VersionLte(a: Version, b: Version) {
    VersionLt(a, b) || a == b
  }

  datatype DeviceInfo = DeviceInfo(version: Version, mcuVersion: string, isOSU: bool, isBootloader: bool)

  /** `firmwareUpdateNeedsLegacyBlueResetInstructions`. */
  predicate NeedsLegacyBlueResetInstructions(info: DeviceInfo, model: DeviceModelId) {
    model == Blue && VersionLt(info.version, Version(2, 1, 1))
  }

  /** `firmwareUpdateWillResetSeed`. */
  predicate WillResetSeed(info: DeviceInfo, model: DeviceModelId) {
    model == Blue && VersionLt(info.version, Version(2, 1, 1))
  }

  /** `firmwareUpdateWillUninstallApps`. */
  predicate WillUninstallApps(info: DeviceInfo, model: DeviceModelId) {
    true
  }

  /** `firmwareUpdateRequiresUserToUninstallApps`. */
  predicate RequiresUserToUninstallApps(model: DeviceModelId, info: DeviceInfo) {
    model == NanoS && VersionLte(info.version, Version(1, 4, 2))
  }

  /**
   * The firmware predicates: the Blue reset instructions and the seed reset go
   * together and concern Blue devices before 2.1.1; manual uninstall concerns
   * Nano S devices up to 1.4.2; every update uninstalls apps; and each
   * version predicate that holds for a device holds for any older version.
   */
  lemma FirmwarePredicates(info: DeviceInfo, older: DeviceInfo, model: DeviceModelId)
    ensures NeedsLegacyBlueResetInstructions(info, model) <==> WillResetSeed(info, model)
    ensures WillResetSeed(info, model) ==> model == Blue && !RequiresUserToUninstallApps(model, info)
    ensures WillResetSeed(info, model) ==> VersionLt(info.version, Version(2, 1, 1))
    ensures RequiresUserToUninstallApps(model, info) ==> model == NanoS && VersionLte(info.version, Version(1, 4, 2))
    ensures WillUninstallApps(info, model)
    ensures VersionLte(older.version, info.version) ==>
      (WillResetSeed(info, model) ==> WillResetSeed(older, model))
      && (RequiresUserToUninstallApps(model, info) ==> RequiresUserToUninstallApps(model, older))
  {
  }

  // ---------------------------------------------------------------------------
  // Hash names.

  /** Whether `formatHashName` shortens a long hash for this device. */
  predicate ShouldEllipsis(model: Option<DeviceModelId>, info: Option<DeviceInfo>) {
    if model.Some? && info.Some? then
      model.value == Blue || (model.value == NanoS && VersionLt(info.value.version, Version(1, 6, 0)))
    else true
  }

  /** `(input || "").toUpperCase()`. */
  function Hash(input: Option<string>): string {
    ToUpper(if input.Some? then input.value else "")
  }

  /** `formatHashName(input, deviceModel, deviceInfo)`; a missing input reads as `""`. */
  function FormatHashName(input: Option<string>, model: Option<DeviceModelId>, info: Option<DeviceInfo>): (r: string)
    ensures |Hash(input)| > 8 && ShouldEllipsis(model, info) ==>
      |r| == 11 && r[..4] == Hash(input)[..4] && r[4..7] == "..." && r[7..] == Hash(input)[|Hash(input)| - 4..]
    ensures !(|Hash(input)| > 8 && ShouldEllipsis(model, info)) ==> r == Hash(input)
  {
    var hash := Hash(input);
    if |hash| > 8 && ShouldEllipsis(model, info) then hash[..4] + "..." + hash[|hash| - 4..] else hash
  }

  /** A formatted hash name holds no lower-case letter. */
  lemma FormatHashNameUpperCase(input: Option<string>, model: Option<DeviceModelId>, info: Option<DeviceInfo>)
    ensures forall i :: 0 <= i < |FormatHashName(input, model, info)| ==> !('a' <= FormatHashName(input, model, info)[i] <= 'z')
  {
    var hash := Hash(input);
    var r := FormatHashName(input, model, info);
    HashHasNoLower(input);
    forall i | 0 <= i < |r| ensures !('a' <= r[i] <= 'z') {
      if |hash| > 8 && ShouldEllipsis(model, info) {
        if i < 4 {
          assert r[i] == r[..4][i] == hash[i];
        } else if i >= 7 {
          assert r[i] == r[7..][i - 7] == hash[|hash| - 4 + i - 7];
        } else {
          assert r[i] == r[4..7][i - 4];
        }
      } else {
        assert r[i] == hash[i];
      }
    }
  }

  lemma HashHasNoLower(input: Option<string>)
    ensures forall j :: 0 <= j < |Hash(input)| ==> !('a' <= Hash(input)[j] <= 'z')
  {
    var src := if input.Some? then input.value else "";
    forall j | 0 <= j < |Hash(input)| ensures !('a' <= Hash(input)[j] <= 'z') {
      assert Hash(input)[j] == UpperChar(src[j]);
    }
  }

  /**
   * When the ellipsis applies: always without a model or device info, always
   * for Blue, for Nano S only before 1.6.0, never for other models.
   */
  lemma EllipsisCases(model: Option<DeviceModelId>, info: Option<DeviceInfo>)
    ensures model.None? || info.None? ==> ShouldEllipsis(model, info)
    ensures model == Some(Blue) ==> ShouldEllipsis(model, info)
    ensures model == Some(NanoX) && info.Some? ==> !ShouldEllipsis(model, info)
    ensures model == Some(NanoS) && info.Some? ==>
      (ShouldEllipsis(model, info) <==> VersionLt(info.value.version, Version(1, 6, 0)))
  {
  }

  // ---------------------------------------------------------------------------
  // Install eligibility.

  /** The part of a listed crypto currency the manager reads. */
  datatype CryptoCurrency = CryptoCurrency(id: string, managerAppName: string, terminated: bool)

  const OldAppsInstallDisabled: seq<string> := ["ZenCash", "Ripple", "Ontology"]

  /** A terminated currency whose (non-empty) manager app name is `name`, ignoring case. */
  predicate TerminatedApp(coin: CryptoCurrency, name: string) {
    coin.managerAppName != "" && coin.terminated && ToLower(coin.managerAppName) == ToLower(name)
  }

  /** `listCryptoCurrencies(true, true).some(...)`. */
  function AnyTerminatedApp(coins: seq<CryptoCurrency>, name: string): (b: bool)
    ensures b <==> exists coin :: coin in coins && TerminatedApp(coin, name)
  {
    if coins == [] then false
    else TerminatedApp(coins[0], name) || AnyTerminatedApp(coins[1..], name)
  }

  /** `canHandleInstall(app)`, given the full currency list. */
  function CanHandleInstall(appName: string, coins: seq<CryptoCurrency>): (ok: bool)
    ensures ok <==> appName !in OldAppsInstallDisabled
                    && forall coin :: coin in coins ==> !TerminatedApp(coin, appName)
  {
    appName !in OldAppsInstallDisabled && !AnyTerminatedApp(coins, appName)
  }

  // ---------------------------------------------------------------------------
  // The decision that ends getLatestFirmwareForDevice.

  datatype OsuFirmware = OsuFirmware(id: nat, name: string, nextFinalId: nat)
  datatype FinalFirmware = FinalFirmware(id: nat, name: string, mcuVersions: seq<nat>)
  datatype Mcu = Mcu(id: nat, name: string)
  datatype FirmwareUpdateContext = FirmwareUpdateContext(final: FinalFirmware, osu: OsuFirmware, shouldFlashMcu: bool)
  datatype ManagerError = UnknownMCU

  /** `mcus.find(mcu => mcu.name === name)`. */
  function FindMcu(mcus: seq<Mcu>, name: string): (r: Option<Mcu>)
    ensures r.None? <==> forall m :: m in mcus ==> m.name != name
    ensures r.Some? ==> r.value.name == name
    ensures r.Some? ==> exists i :: 0 <= i < |mcus| && mcus[i] == r.value && (forall j :: 0 <= j < i ==> mcus[j].name != name)
  {
    StableOrder.Find(mcus, (m: Mcu) => m.name == name)
  }

  /**
   * `getLatestFirmwareForDevice` after its fetches: `currentOsu` is what
   * `getCurrentOSU` returns (used in OSU mode), `latest` what
   * `getLatestFirmware` returns (used otherwise), `finalById` stands for
   * `getFinalFirmwareById` and `mcus` for `getMcus`.
   */
  function LatestFirmwareDecision(info: DeviceInfo, currentOsu: Option<OsuFirmware>, latest: Option<OsuFirmware>,
                                  finalById: nat -> FinalFirmware, mcus: seq<Mcu>)
    : (r: Result<Option<FirmwareUpdateContext>, ManagerError>)
    ensures var osu := if info.isOSU then currentOsu else latest;
      && (r == Ok(None) <==> osu.None?)
      && (r == Err(UnknownMCU) <==> osu.Some? && forall m :: m in mcus ==> m.name != info.mcuVersion)
      && (r.Ok? && r.value.Some? ==>
            var ctx := r.value.value;
            && ctx.osu == osu.value
            && ctx.final == finalById(osu.value.nextFinalId)
            && (ctx.shouldFlashMcu <==> FindMcu(mcus, info.mcuVersion).value.id !in ctx.final.mcuVersions))
  {
    var osu := if info.isOSU then currentOsu else latest;
    if osu.None? then Ok(None)
    else
      var final := finalById(osu.value.nextFinalId);
      match FindMcu(mcus, info.mcuVersion)
      case None => Err(UnknownMCU)
      case Some(mcu) => Ok(Some(FirmwareUpdateContext(final, osu.value, mcu.id !in final.mcuVersions)))
  }

  // ---------------------------------------------------------------------------
  // The filter and reorder that end getAppsList.

  datatype Application = Application(id: nat, category: nat)
  datatype ApplicationVersion = ApplicationVersion(name: string, app: nat)

  /** An entry of the apps list: matched apps carry the currency they matched. */
  datatype ListedApp = ListedApp(version: ApplicationVersion, currency: Option<CryptoCurrency>)

  /** `applicationsList.find(e => e.id === id)`. */
  function FindApplication(apps: seq<Application>, id: nat): (r: Option<Application>)
    ensures r.None? <==> forall a :: a in apps ==> a.id != id
    ensures r.Some? ==> r.value.id == id
    ensures r.Some? ==> exists i :: 0 <= i < |apps| && apps[i] == r.value && (forall j :: 0 <= j < i ==> apps[j].id != id)
  {
    StableOrder.Find(apps, (a: Application) => a.id == id)
  }

  /** Outside dev mode a version is listed when its application is known and not of category 2. */
  predicate Listable(apps: seq<Application>, v: ApplicationVersion) {
    var a := FindApplication(apps, v.app);
    a.Some? && a.value.category != 2
  }

  /**
   * The filter outside dev mode: the listable versions, in their order and
   * with their repeats.
   */
  function ListableVersions(apps: seq<Application>, versions: seq<ApplicationVersion>): (r: seq<ApplicationVersion>)
    ensures forall v :: v in r <==> v in versions && Listable(apps, v)
    ensures forall v :: multiset(r)[v] == if Listable(apps, v) then multiset(versions)[v] else 0
    ensures Subsequence(r, versions)
  {
    if versions == [] then []
    else
      assert versions == [versions[0]] + versions[1..];
      var rest := ListableVersions(apps, versions[1..]);
      if Listable(apps, versions[0]) then
        assert ([versions[0]] + rest)[1..] == rest;
        [versions[0]] + rest
      else
        SubsequenceCons(rest, versions[1..], versions[0]);
        rest
  }

  /** The version `crypto` picks: the first whose name equals its manager app name, ignoring case. */
  predicate MatchesCurrency(v: ApplicationVersion, crypto: CryptoCurrency) {
    ToLower(v.name) == ToLower(crypto.managerAppName)
  }

  function MatchIndex(versions: seq<ApplicationVersion>, crypto: CryptoCurrency): (r: Option<nat>)
    ensures r.Some? ==> r.value < |versions|
  {
    if versions == [] then None
    else if MatchesCurrency(versions[0], crypto) then Some(0)
    else match MatchIndex(versions[1..], crypto)
      case None => None
      case Some(i) => Some(i + 1)
  }

  /** `filtered.find(...)` finds the first version matching the currency, if any. */
  lemma {:induction false} MatchIndexSpec(versions: seq<ApplicationVersion>, crypto: CryptoCurrency)
    ensures var r := MatchIndex(versions, crypto);
      && (r.Some? ==> MatchesCurrency(versions[r.value], crypto))
      && forall j :: 0 <= j < |versions| && (r.None? || j < r.value) ==> !MatchesCurrency(versions[j], crypto)
  {
    if versions != [] && !MatchesCurrency(versions[0], crypto) {
      MatchIndexSpec(versions[1..], crypto);
      assert forall j :: 1 <= j < |versions| ==> versions[j] == versions[1..][j - 1];
    }
  }

  /**
   * The currency-first reorder: for each currency in order, the first remaining
   * version matching it is moved out; returns the moved versions, each with its
   * currency, and what remains.
   */
  function CurrencyFirst(versions: seq<ApplicationVersion>, cryptos: seq<CryptoCurrency>)
    : (seq<ListedApp>, seq<ApplicationVersion>)
    decreases |cryptos|
  {
    if cryptos == [] then ([], versions)
    else match MatchIndex(versions, cryptos[0])
      case None => CurrencyFirst(versions, cryptos[1..])
      case Some(i) =>
        var next := CurrencyFirst(versions[..i] + versions[i + 1..], cryptos[1..]);
        ([ListedApp(versions[i], Some(cryptos[0]))] + next.0, next.1)
  }

  function Unmatched(versions: seq<ApplicationVersion>): (r: seq<ListedApp>)
    ensures |r| == |versions|
    ensures forall i :: 0 <= i < |r| ==> r[i] == ListedApp(versions[i], None)
  {
    if versions == [] then [] else [ListedApp(versions[0], None)] + Unmatched(versions[1..])
  }

  function VersionsOf(apps: seq<ListedApp>): (r: seq<ApplicationVersion>)
    ensures |r| == |apps|
    ensures forall i :: 0 <= i < |r| ==> r[i] == apps[i].version
  {
    if apps == [] then [] else [apps[0].version] + VersionsOf(apps[1..])
  }

  /** `a` is `b` with some elements left out, the rest in the same order. */
  predicate Subsequence<T(==)>(a: seq<T>, b: seq<T>)
    decreases |b|
  {
    if a == [] then true
    else if b == [] then false
    else if a[0] == b[0] then Subsequence(a[1..], b[1..])
    else Subsequence(a, b[1..])
  }

  lemma {:induction false} SubsequenceRefl<T>(a: seq<T>)
    ensures Subsequence(a, a)
  {
    if a != [] {
      SubsequenceRefl(a[1..]);
    }
  }

  lemma {:induction false} SubsequenceCons<T>(a: seq<T>, b: seq<T>, x: T)
    requires Subsequence(a, b)
    ensures Subsequence(a, [x] + b)
    decreases |b|, 2
  {
    assert ([x] + b)[1..] == b;
    if a != [] && a[0] == x {
      SubsequenceDropHead(a, b);
    }
  }

  lemma {:induction false} SubsequenceDropHead<T>(a: seq<T>, b: seq<T>)
    requires a != [] && Subsequence(a, b)
    ensures Subsequence(a[1..], b)
    decreases |b|, 1
  {
    assert [b[0]] + b[1..] == b;
    if a[0] != b[0] {
      SubsequenceDropHead(a, b[1..]);
      SubsequenceCons(a[1..], b[1..], b[0]);
    } else {
      SubsequenceCons(a[1..], b[1..], b[0]);
    }
  }

  lemma {:induction false} SubsequenceTrans<T>(a: seq<T>, b: seq<T>, c: seq<T>)
    requires Subsequence(a, b) && Subsequence(b, c)
    ensures Subsequence(a, c)
    decreases |c|
  {
    if a != [] {
      if c[0] == b[0] {
        if a[0] == b[0] {
          SubsequenceTrans(a[1..], b[1..], c[1..]);
        } else {
          SubsequenceTrans(a, b[1..], c[1..]);
        }
      } else {
        SubsequenceTrans(a, b, c[1..]);
        if a[0] == c[0] {
          SubsequenceDropHead(a, c[1..]);
        }
      }
    }
  }

  lemma {:induction false} RemoveAtSubsequence<T>(s: seq<T>, i: nat)
    requires i < |s|
    ensures Subsequence(s[..i] + s[i + 1..], s)
  {
    if i == 0 {
      assert s[..0] + s[1..] == s[1..];
      SubsequenceRefl(s[1..]);
      SubsequenceCons(s[1..], s[1..], s[0]);
      assert [s[0]] + s[1..] == s;
    } else {
      RemoveAtSubsequence(s[1..], i - 1);
      var r := s[..i] + s[i + 1..];
      assert r[0] == s[0];
      assert r[1..] == s[1..][..i - 1] + s[1..][i..];
    }
  }

  /** The currencies the listed apps carry, in order. */
  function CurrenciesOf(apps: seq<ListedApp>): seq<CryptoCurrency> {
    if apps == [] then []
    else (if apps[0].currency.Some? then [apps[0].currency.value] else []) + CurrenciesOf(apps[1..])
  }

  /** One step of the reorder, for the first currency. */
  lemma CurrencyFirstStep(versions: seq<ApplicationVersion>, cryptos: seq<CryptoCurrency>)
    requires cryptos != []
    ensures MatchIndex(versions, cryptos[0]).None? ==>
      CurrencyFirst(versions, cryptos) == CurrencyFirst(versions, cryptos[1..])
    ensures MatchIndex(versions, cryptos[0]).Some? ==>
      var i := MatchIndex(versions, cryptos[0]).value;
      var next := CurrencyFirst(versions[..i] + versions[i + 1..], cryptos[1..]);
      CurrencyFirst(versions, cryptos) == ([ListedApp(versions[i], Some(cryptos[0]))] + next.0, next.1)
  {
  }

  /** Putting back the element removed at `i` in front of one part of a split of the rest. */
  lemma RemoveAtPermutation<T>(s: seq<T>, i: nat, xs: seq<T>, rest: seq<T>)
    requires i < |s|
    requires multiset(xs) + multiset(rest) == multiset(s[..i] + s[i + 1..])
    ensures multiset([s[i]] + xs) + multiset(rest) == multiset(s)
  {
    assert s == s[..i] + [s[i]] + s[i + 1..];
    calc {
      multiset([s[i]] + xs) + multiset(rest);
      multiset{s[i]} + (multiset(xs) + multiset(rest));
      multiset{s[i]} + multiset(s[..i] + s[i + 1..]);
      multiset{s[i]} + multiset(s[..i]) + multiset(s[i + 1..]);
      multiset(s[..i]) + multiset([s[i]]) + multiset(s[i + 1..]);
      multiset(s[..i] + [s[i]] + s[i + 1..]);
    }
  }

  /** The moved and the remaining versions together are a permutation of the input. */
  lemma {:induction false} CurrencyFirstPermutation(versions: seq<ApplicationVersion>, cryptos: seq<CryptoCurrency>)
    ensures multiset(VersionsOf(CurrencyFirst(versions, cryptos).0)) + multiset(CurrencyFirst(versions, cryptos).1)
         == multiset(versions)
    decreases |cryptos|
  {
    if cryptos != [] {
      CurrencyFirstStep(versions, cryptos);
      var m := MatchIndex(versions, cryptos[0]);
      if m.None? {
        CurrencyFirstPermutation(versions, cryptos[1..]);
      } else {
        var i := m.value;
        var left := versions[..i] + versions[i + 1..];
        CurrencyFirstPermutation(left, cryptos[1..]);
        var next := CurrencyFirst(left, cryptos[1..]);
        var moved := [ListedApp(versions[i], Some(cryptos[0]))] + next.0;
        VersionsOfCons(ListedApp(versions[i], Some(cryptos[0])), next.0);
        RemoveAtPermutation(versions, i, VersionsOf(next.0), next.1);
        assert CurrencyFirst(versions, cryptos).0 == moved && CurrencyFirst(versions, cryptos).1 == next.1;
        assert VersionsOf(moved) == [versions[i]] + VersionsOf(next.0);
      }
    }
  }

  lemma VersionsOfCons(x: ListedApp, s: seq<ListedApp>)
    ensures VersionsOf([x] + s) == [x.version] + VersionsOf(s)
  {
    assert ([x] + s)[1..] == s;
  }

  /** Every moved version carries one of `cryptos`, and matches it. */
  predicate MovedMatch(moved: seq<ListedApp>, cryptos: seq<CryptoCurrency>) {
    forall i :: 0 <= i < |moved| ==>
      moved[i].currency.Some? && moved[i].currency.value in cryptos
      && MatchesCurrency(moved[i].version, moved[i].currency.value)
  }

  lemma MovedMatchCons(x: ListedApp, moved: seq<ListedApp>, cryptos: seq<CryptoCurrency>)
    requires cryptos != [] && MovedMatch(moved, cryptos[1..])
    requires x.currency == Some(cryptos[0]) && MatchesCurrency(x.version, cryptos[0])
    ensures MovedMatch([x] + moved, cryptos)
  {
    forall j | 0 <= j < |[x] + moved|
      ensures ([x] + moved)[j].currency.Some? && ([x] + moved)[j].currency.value in cryptos
    {
      if j > 0 {
        assert ([x] + moved)[j] == moved[j - 1];
        assert moved[j - 1].currency.value in cryptos[1..];
      }
    }
  }

  lemma MovedMatchWiden(moved: seq<ListedApp>, cryptos: seq<CryptoCurrency>)
    requires cryptos != [] && MovedMatch(moved, cryptos[1..])
    ensures MovedMatch(moved, cryptos)
  {
    forall j | 0 <= j < |moved| ensures moved[j].currency.value in cryptos {
      assert moved[j].currency.value in cryptos[1..];
    }
  }

  /** Every moved version carries a currency it matches. */
  lemma {:induction false} CurrencyFirstMatches(versions: seq<ApplicationVersion>, cryptos: seq<CryptoCurrency>)
    ensures MovedMatch(CurrencyFirst(versions, cryptos).0, cryptos)
    decreases |cryptos|
  {
    if cryptos != [] {
      var m := MatchIndex(versions, cryptos[0]);
      CurrencyFirstStep(versions, cryptos);
      if m.None? {
        CurrencyFirstMatches(versions, cryptos[1..]);
        MovedMatchWiden(CurrencyFirst(versions, cryptos[1..]).0, cryptos);
      } else {
        var i := m.value;
        MatchIndexSpec(versions, cryptos[0]);
        var left := versions[..i] + versions[i + 1..];
        CurrencyFirstMatches(left, cryptos[1..]);
        MovedMatchCons(ListedApp(versions[i], Some(cryptos[0])), CurrencyFirst(left, cryptos[1..]).0, cryptos);
      }
    }
  }

  /**
   * Moved versions come in the currencies' order, and the remaining versions
   * keep their original order.
   */
  lemma {:induction false} CurrencyFirstOrder(versions: seq<ApplicationVersion>, cryptos: seq<CryptoCurrency>)
    ensures Subsequence(CurrenciesOf(CurrencyFirst(versions, cryptos).0), cryptos)
    ensures Subsequence(CurrencyFirst(versions, cryptos).1, versions)
    decreases |cryptos|
  {
    if cryptos == [] {
      SubsequenceRefl(versions);
    } else {
      assert [cryptos[0]] + cryptos[1..] == cryptos;
      var m := MatchIndex(versions, cryptos[0]);
      if m.None? {
        CurrencyFirstOrder(versions, cryptos[1..]);
        SubsequenceCons(CurrenciesOf(CurrencyFirst(versions, cryptos).0), cryptos[1..], cryptos[0]);
      } else {
        var i := m.value;
        var left := versions[..i] + versions[i + 1..];
        CurrencyFirstOrder(left, cryptos[1..]);
        var next := CurrencyFirst(left, cryptos[1..]);
        var moved := CurrencyFirst(versions, cryptos).0;
        assert moved == [ListedApp(versions[i], Some(cryptos[0]))] + next.0;
        assert moved[1..] == next.0;
        assert CurrenciesOf(moved) == [cryptos[0]] + CurrenciesOf(next.0);
        assert ([cryptos[0]] + CurrenciesOf(next.0))[1..] == CurrenciesOf(next.0);
        RemoveAtSubsequence(versions, i);
        SubsequenceTrans(next.1, left, versions);
      }
    }
  }

  lemma {:induction false} MemberSubsequence<T>(x: T, s: seq<T>)
    requires x in s
    ensures Subsequence([x], s)
  {
    if s[0] != x {
      MemberSubsequence(x, s[1..]);
    }
  }

  /** `s[i]` followed by any element found after it is a subsequence of `s`. */
  lemma {:induction false} PairSubsequence<T>(s: seq<T>, i: nat, x: T)
    requires i < |s| && x in s[i + 1..]
    ensures Subsequence([s[i], x], s)
  {
    assert [s[i], x][1..] == [x];
    if s[0] == s[i] {
      assert x in s[1..] by { assert s[i + 1..] == s[1..][i..]; }
      MemberSubsequence(x, s[1..]);
    } else {
      assert s[1..][i - 1] == s[i] && s[1..][i..] == s[i + 1..];
      PairSubsequence(s[1..], i - 1, x);
    }
  }

  /**
   * Nothing is left behind: a remaining version that matches one of the
   * currencies means that currency did move an app.
   */
  lemma {:induction false} CurrencyFirstComplete(versions: seq<ApplicationVersion>, cryptos: seq<CryptoCurrency>)
    ensures forall v, c :: v in CurrencyFirst(versions, cryptos).1 && c in cryptos && MatchesCurrency(v, c) ==>
      c in CurrenciesOf(CurrencyFirst(versions, cryptos).0)
    decreases |cryptos|
  {
    if cryptos != [] {
      var rest := CurrencyFirst(versions, cryptos).1;
      var moved := CurrencyFirst(versions, cryptos).0;
      var m := MatchIndex(versions, cryptos[0]);
      CurrencyFirstStep(versions, cryptos);
      MatchIndexSpec(versions, cryptos[0]);
      assert forall c :: c in cryptos ==> c == cryptos[0] || c in cryptos[1..];
      if m.None? {
        CurrencyFirstComplete(versions, cryptos[1..]);
        forall v | v in rest ensures v in versions {
          RemainingIsInput(versions, cryptos, v);
        }
      } else {
        var i := m.value;
        var left := versions[..i] + versions[i + 1..];
        CurrencyFirstComplete(left, cryptos[1..]);
        var next := CurrencyFirst(left, cryptos[1..]);
        assert moved == [ListedApp(versions[i], Some(cryptos[0]))] + next.0 && moved[1..] == next.0;
        assert CurrenciesOf(moved) == [cryptos[0]] + CurrenciesOf(next.0);
      }
    }
  }

  lemma {:induction false} SubsequenceMember<T>(a: seq<T>, b: seq<T>, x: T)
    requires Subsequence(a, b) && x in a
    ensures x in b
    decreases |b|
  {
    if a[0] == b[0] {
      if x != a[0] {
        assert x in a[1..];
        SubsequenceMember(a[1..], b[1..], x);
      }
    } else {
      SubsequenceMember(a, b[1..], x);
    }
  }

  /** A version left behind was among the input versions. */
  lemma RemainingIsInput(versions: seq<ApplicationVersion>, cryptos: seq<CryptoCurrency>, v: ApplicationVersion)
    requires v in CurrencyFirst(versions, cryptos).1
    ensures v in versions
  {
    CurrencyFirstOrder(versions, cryptos);
    SubsequenceMember(CurrencyFirst(versions, cryptos).1, versions, v);
  }

  /** The first match of `c` comes before every other version matching `c`. */
  lemma FirstMatchBefore(versions: seq<ApplicationVersion>, c: CryptoCurrency, i: nat, v: ApplicationVersion)
    requires MatchIndex(versions, c) == Some(i)
    requires v in versions[..i] + versions[i + 1..] && MatchesCurrency(v, c)
    ensures Subsequence([versions[i], v], versions)
  {
    MatchIndexSpec(versions, c);
    assert v !in versions[..i];
    PairSubsequence(versions, i, v);
  }

  /**
   * Each currency moves its first remaining match: every version left behind
   * that matches a moved app's currency comes after that app in the input.
   */
  lemma {:induction false} CurrencyFirstEarliest(versions: seq<ApplicationVersion>, cryptos: seq<CryptoCurrency>)
    ensures var moved := CurrencyFirst(versions, cryptos).0;
      forall j, v, c ::
        (0 <= j < |moved| && moved[j].currency == Some(c) && v in CurrencyFirst(versions, cryptos).1 && MatchesCurrency(v, c))
        ==> Subsequence([moved[j].version, v], versions)
    decreases |cryptos|
  {
    if cryptos != [] {
      var m := MatchIndex(versions, cryptos[0]);
      CurrencyFirstStep(versions, cryptos);
      if m.None? {
        CurrencyFirstEarliest(versions, cryptos[1..]);
      } else {
        var i := m.value;
        var left := versions[..i] + versions[i + 1..];
        CurrencyFirstEarliest(left, cryptos[1..]);
        RemoveAtSubsequence(versions, i);
        var next := CurrencyFirst(left, cryptos[1..]);
        var moved := [ListedApp(versions[i], Some(cryptos[0]))] + next.0;
        forall j, v, c | 0 <= j < |moved| && moved[j].currency == Some(c) && v in next.1 && MatchesCurrency(v, c)
          ensures Subsequence([moved[j].version, v], versions)
        {
          if j == 0 {
            RemainingIsInput(left, cryptos[1..], v);
            FirstMatchBefore(versions, cryptos[0], i, v);
          } else {
            assert moved[j] == next.0[j - 1];
            SubsequenceTrans([moved[j].version, v], left, versions);
          }
        }
      }
    }
  }

  /**
   * `getAppsList` after its fetches: `applications` is `listApps()`,
   * `compatible` is `applicationsByDevice(...)` and `sortedCryptos` is what
   * `getFullListSortedCryptoCurrencies()` returns.
   */
  method AppsList(info: DeviceInfo, isDevMode: bool, applications: seq<Application>,
                  compatible: seq<ApplicationVersion>, sortedCryptos: seq<CryptoCurrency>)
    returns (result: seq<ListedApp>)
    ensures info.isOSU || info.isBootloader ==> result == []
    ensures !(info.isOSU || info.isBootloader) ==>
      var filtered := if isDevMode then compatible else ListableVersions(applications, compatible);
      result == CurrencyFirst(filtered, sortedCryptos).0 + Unmatched(CurrencyFirst(filtered, sortedCryptos).1)
  {
    if info.isOSU || info.isBootloader {
      return [];
    }
    var filtered := if isDevMode then compatible else ListableVersions(applications, compatible);
    var sortedCryptoApps, rest := MoveCurrencyApps(filtered, sortedCryptos);
    result := sortedCryptoApps + Unmatched(rest);
  }

  /** The loop of `getAppsList` that moves each currency's app to the front. */
  method MoveCurrencyApps(versions: seq<ApplicationVersion>, sortedCryptos: seq<CryptoCurrency>)
    returns (sortedCryptoApps: seq<ListedApp>, filtered: seq<ApplicationVersion>)
    ensures sortedCryptoApps == CurrencyFirst(versions, sortedCryptos).0
    ensures filtered == CurrencyFirst(versions, sortedCryptos).1
  {
    filtered := versions;
    sortedCryptoApps := [];
    var k := 0;
    assert sortedCryptos[0..] == sortedCryptos;
    assert sortedCryptoApps + CurrencyFirst(filtered, sortedCryptos).0 == CurrencyFirst(filtered, sortedCryptos).0;
    while k < |sortedCryptos|
      invariant k <= |sortedCryptos|
      invariant CurrencyFirst(versions, sortedCryptos).0 == sortedCryptoApps + CurrencyFirst(filtered, sortedCryptos[k..]).0
      invariant CurrencyFirst(versions, sortedCryptos).1 == CurrencyFirst(filtered, sortedCryptos[k..]).1
    {
      var crypto := sortedCryptos[k];
      assert sortedCryptos[k..][1..] == sortedCryptos[k + 1..];
      var found := MatchIndex(filtered, crypto);
      CurrencyFirstStep(filtered, sortedCryptos[k..]);
      if found.Some? {
        var i := found.value;
        var app := filtered[i];
        ghost var step := CurrencyFirst(filtered[..i] + filtered[i + 1..], sortedCryptos[k + 1..]);
        filtered := filtered[..i] + filtered[i + 1..];
        assert sortedCryptoApps + ([ListedApp(app, Some(crypto))] + step.0)
            == (sortedCryptoApps + [ListedApp(app, Some(crypto))]) + step.0;
        sortedCryptoApps := sortedCryptoApps + [ListedApp(app, Some(crypto))];
      }
      k := k + 1;
    }
    assert sortedCryptos[k..] == [];
    assert sortedCryptoApps + CurrencyFirst(filtered, []).0 == sortedCryptoApps;
  }
}
