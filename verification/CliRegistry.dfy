/** The registry of command-line tools and its configuration file (agent/src/cliRegistry.ts). */
module CliRegistryModel {
  import opened Options
  import opened Sequences
  import opened OrderedMaps
  import opened Texts

  datatype Cli = Cli(
    id: string,
    name: string,
    command: string,
    args: seq<string>,
    checkCommand: string,
    detected: bool,
    isDefault: bool,
    isCustom: bool)

  type Clis = OMap<string, Cli>

  /** The configuration file, parsed. */
  datatype Config = Config(defaultCliId: Option<string>, customClis: seq<Cli>)

  function BuiltinIds(): seq<string> {
    ["codex", "claude-code", "aider", "copilot"]
  }

  function Builtin(id: string): Cli {
    if id == "codex" then Cli(id, "Codex CLI", "codex", [], "codex --version", false, false, false)
    else if id == "claude-code" then Cli(id, "Claude Code", "claude", [], "claude --version", false, false, false)
    else if id == "aider" then Cli(id, "Aider", "aider", [], "aider --version", false, false, false)
    else Cli(id, "GitHub Copilot CLI", "gh copilot", [], "gh copilot --version", false, false, false)
  }

  function Fresh(): Clis {
    OMap(BuiltinIds(), map id | id in BuiltinIds() :: Builtin(id))
  }

  // ----- looking up -----

  /** The first key in insertion order that satisfies `p`. */
  function FirstKey(order: seq<string>, p: string -> bool): Option<string> {
    if order == [] then None else if p(order[0]) then Some(order[0]) else FirstKey(order[1..], p)
  }

  function IsDefaultIn(r: Clis): string -> bool {
    (id: string) => id in r.at && r.at[id].isDefault
  }

  function IsDetectedIn(r: Clis): string -> bool {
    (id: string) => id in r.at && r.at[id].detected
  }

  function IsChosenIn(r: Clis): string -> bool {
    (id: string) => id in r.at && r.at[id].isDefault && r.at[id].detected
  }

  function GetDefault(r: Clis): Option<string> {
    FirstKey(r.order, IsChosenIn(r)).Or(FirstKey(r.order, IsDetectedIn(r)))
  }

  function Alias(normalized: string): Option<string> {
    if normalized == "claude" || normalized == "claude-code" then Some("claude-code")
    else if normalized == "codex" || normalized == "aider" || normalized == "copilot" then Some(normalized)
    else None
  }

  function ResolveId(lower: string -> string, r: Clis, id: string): Option<string> {
    var normalized := Normal(lower, id);
    if normalized == "" then None
    else
      var alias := Alias(normalized);
      if alias.Some? && alias.value in r.at then alias
      else if normalized in r.at then Some(normalized)
      else None
  }

  // ----- changing -----

  function Report(r: Clis, detectedIds: set<string>): Clis {
    var marked := Mark(r, detectedIds);
    if FirstKey(r.order, IsDefaultIn(marked)).Some? then marked
    else
      match FirstKey(r.order, IsDetectedIn(marked))
      case None => marked
      case Some(first) => WithDefault(marked, first)
  }

  function Mark(r: Clis, detectedIds: set<string>): Clis {
    OMap(r.order, map id | id in r.at :: r.at[id].(detected := r.at[id].id in detectedIds))
  }

  /** `detectAll`: the flags only. */
  function Detect(r: Clis, found: set<string>): Clis {
    OMap(r.order, map id | id in r.at :: r.at[id].(detected := id in found))
  }

  function OnlyDefault(r: Clis, chosen: string): Clis {
    OMap(r.order, map id | id in r.at :: r.at[id].(isDefault := id == chosen))
  }

  function Customs(r: Clis, order: seq<string>): seq<Cli> {
    if order == [] then []
    else
      var id := Last(order);
      Customs(r, DropLast(order)) + if id in r.at && r.at[id].isCustom then [r.at[id]] else []
  }

  /** What `persist` writes. */
  function ConfigOf(r: Clis): Config {
    Config(FirstKey(r.order, IsDefaultIn(r)), Customs(r, r.order))
  }

  function AddMissing(r: Clis, customs: seq<Cli>): Clis {
    if customs == [] then r
    else
      var before := AddMissing(r, DropLast(customs));
      var custom := Last(customs);
      if custom.id in before.at then before else Put(before, custom.id, custom.(isCustom := true))
  }

  function WithDefault(r: Clis, id: string): Clis {
    if id in r.at then OMap(r.order, r.at[id := r.at[id].(isDefault := true)]) else r
  }

  /** `load`; None is a missing or corrupt file. */
  function Load(lower: string -> string, r: Clis, file: Option<Config>): Clis {
    if file.None? then r
    else
      var chosen := if file.value.defaultCliId.Some? && file.value.defaultCliId.value != ""
                    then ResolveId(lower, r, file.value.defaultCliId.value) else None;
      AddMissing(if chosen.Some? then WithDefault(r, chosen.value) else r, file.value.customClis)
  }

  // ----- what every registry satisfies -----

  const CUSTOM := "custom-"

  /** Ids that `addCustom` makes: lower case, over word characters and dashes, with this prefix. */
  predicate IsCustomId(lower: string -> string, id: string) {
    |CUSTOM| <= |id| && id[..|CUSTOM|] == CUSTOM && Normal(lower, id) == id
  }

  ghost predicate KeepsBuiltins(lower: string -> string) {
    forall id :: id in BuiltinIds() ==> Normal(lower, id) == id
  }

  predicate EntryOk(lower: string -> string, r: Clis, id: string) {
    && id in r.at
    && r.at[id].id == id
    && r.at[id].isCustom == (id !in BuiltinIds())
    && (id !in BuiltinIds() ==> IsCustomId(lower, id))
    && (id in BuiltinIds() ==> r.at[id] == Builtin(id).(detected := r.at[id].detected, isDefault := r.at[id].isDefault))
  }

  predicate BothDefault(r: Clis, a: string, b: string) {
    a in r.at && b in r.at && r.at[a].isDefault && r.at[b].isDefault
  }

  /** The builtins come first; entries know their ids; at most one is the default. */
  ghost predicate Inv(lower: string -> string, r: Clis) {
    && r.Valid()
    && |BuiltinIds()| <= |r.order| && r.order[..|BuiltinIds()|] == BuiltinIds()
    && (forall id :: id in r.at ==> EntryOk(lower, r, id))
    && (forall a, b :: BothDefault(r, a, b) ==> a == b)
  }

  lemma {:induction false} FirstKeyFacts(order: seq<string>, p: string -> bool)
    ensures var r := FirstKey(order, p);
            && (r.None? <==> forall k :: k in order ==> !p(k))
            && (r.Some? ==> r.value in order && p(r.value))
  {
    if order != [] {
      FirstKeyFacts(order[1..], p);
      assert order == [order[0]] + order[1..];
    }
  }

  lemma FreshInv(lower: string -> string)
    ensures Inv(lower, Fresh())
  {
    hide BuiltinIds, NoDup, IsCustomId;
    assert BuiltinIds()[..|BuiltinIds()|] == BuiltinIds();
    BuiltinsDiffer();
    forall id | id in Fresh().at ensures EntryOk(lower, Fresh(), id) {
      BuiltinId(id);
    }
  }

  lemma BuiltinId(id: string)
    requires id in BuiltinIds()
    ensures Builtin(id).id == id && !Builtin(id).isCustom && !Builtin(id).detected && !Builtin(id).isDefault
  {
  }

  lemma BuiltinsDiffer()
    ensures NoDup(BuiltinIds())
  {
    NoDupPush([], "codex");
    NoDupPush(["codex"], "claude-code");
    NoDupPush(["codex", "claude-code"], "aider");
    NoDupPush(["codex", "claude-code", "aider"], "copilot");
    assert [] + ["codex"] == ["codex"];
    assert ["codex"] + ["claude-code"] == ["codex", "claude-code"];
    assert ["codex", "claude-code"] + ["aider"] == ["codex", "claude-code", "aider"];
    assert BuiltinIds() == ["codex", "claude-code", "aider"] + ["copilot"];
  }

  /** Flags may change as long as no two entries become default. */
  ghost predicate OnlyFlags(r: Clis, r': Clis) {
    && r'.order == r.order
    && r'.at.Keys == r.at.Keys
    && (forall id :: id in r.at ==>
         r'.at[id] == r.at[id].(detected := r'.at[id].detected, isDefault := r'.at[id].isDefault))
    && (forall a, b :: BothDefault(r', a, b) ==> a == b)
  }

  lemma OnlyFlagsInv(lower: string -> string, r: Clis, r': Clis)
    requires Inv(lower, r) && OnlyFlags(r, r')
    ensures Inv(lower, r')
  {
    hide NoDup, Builtin, IsCustomId, BuiltinIds;
    forall id | id in r'.at ensures EntryOk(lower, r', id) {
      assert EntryOk(lower, r, id);
    }
  }

  lemma DetectInv(lower: string -> string, r: Clis, found: set<string>)
    requires Inv(lower, r)
    ensures Inv(lower, Detect(r, found))
  {
    hide EntryOk, NoDup, BuiltinIds;
    forall a, b | BothDefault(Detect(r, found), a, b) ensures a == b {
      assert BothDefault(r, a, b);
    }
    OnlyFlagsInv(lower, r, Detect(r, found));
  }

  lemma OnlyDefaultInv(lower: string -> string, r: Clis, chosen: string)
    requires Inv(lower, r)
    ensures Inv(lower, OnlyDefault(r, chosen))
  {
    hide EntryOk, NoDup, BuiltinIds;
    OnlyFlagsInv(lower, r, OnlyDefault(r, chosen));
  }

  lemma WithDefaultInv(lower: string -> string, r: Clis, id: string)
    requires Inv(lower, r) && (forall k :: k in r.order ==> !IsDefaultIn(r)(k))
    ensures Inv(lower, WithDefault(r, id))
  {
    hide EntryOk, NoDup, BuiltinIds;
    OnlyFlagsInv(lower, r, WithDefault(r, id));
  }

  lemma MarkInv(lower: string -> string, r: Clis, detectedIds: set<string>)
    requires Inv(lower, r)
    ensures Inv(lower, Mark(r, detectedIds))
  {
    hide EntryOk, NoDup, BuiltinIds;
    var marked := Mark(r, detectedIds);
    forall a, b | BothDefault(marked, a, b) ensures a == b {
      assert BothDefault(r, a, b);
    }
    OnlyFlagsInv(lower, r, marked);
  }

  lemma ReportInv(lower: string -> string, r: Clis, detectedIds: set<string>)
    requires Inv(lower, r)
    ensures Inv(lower, Report(r, detectedIds))
  {
    hide Inv, IsDefaultIn, IsDetectedIn;
    var marked := Mark(r, detectedIds);
    MarkInv(lower, r, detectedIds);
    FirstKeyFacts(r.order, IsDefaultIn(marked));
    if FirstKey(r.order, IsDefaultIn(marked)).None? && FirstKey(r.order, IsDetectedIn(marked)).Some? {
      WithDefaultInv(lower, marked, FirstKey(r.order, IsDetectedIn(marked)).value);
    }
  }

  lemma AddCustomInv(lower: string -> string, r: Clis, cli: Cli)
    requires Inv(lower, r) && IsCustomId(lower, cli.id) && cli.isCustom && !cli.isDefault
    ensures Inv(lower, Put(r, cli.id, cli))
  {
    hide Builtin, BuiltinIds, IsCustomId, NoDup;
    var r' := Put(r, cli.id, cli);
    CustomNotBuiltin(lower, cli.id);
    NoDupPush(r.order, cli.id);
    assert r'.order[..|BuiltinIds()|] == r.order[..|BuiltinIds()|];
    forall id | id in r'.at ensures EntryOk(lower, r', id) {
      if id != cli.id {
        assert EntryOk(lower, r, id);
      }
    }
    forall a, b | BothDefault(r', a, b) ensures a == b {
      assert BothDefault(r, a, b);
    }
  }

  lemma CustomNotBuiltin(lower: string -> string, id: string)
    requires IsCustomId(lower, id)
    ensures id !in BuiltinIds() && Alias(id) == None && id != ""
  {
    assert id[0] == CUSTOM[0] && id[1] == CUSTOM[1];
  }

  lemma RemoveInv(lower: string -> string, r: Clis, id: string)
    requires Inv(lower, r) && id in r.at && r.at[id].isCustom
    ensures Inv(lower, Delete(r, id))
  {
    hide Builtin, IsCustomId, NoDup, BuiltinIds, Filter;
    var r' := Delete(r, id);
    assert EntryOk(lower, r, id);
    DeleteValid(r, id);
    DeleteKeepsFront(r, id);
    forall k | k in r'.at ensures EntryOk(lower, r', k) {
      assert EntryOk(lower, r, k);
    }
    forall a, b | BothDefault(r', a, b) ensures a == b {
      assert BothDefault(r, a, b);
    }
  }

  lemma DeleteKeepsFront(r: Clis, id: string)
    requires |BuiltinIds()| <= |r.order| && r.order[..|BuiltinIds()|] == BuiltinIds() && id !in BuiltinIds()
    ensures |BuiltinIds()| <= |Delete(r, id).order| && Delete(r, id).order[..|BuiltinIds()|] == BuiltinIds()
  {
    hide Filter, BuiltinIds;
    var rest := r.order[|BuiltinIds()|..];
    assert r.order == BuiltinIds() + rest;
    FilterConcat(BuiltinIds(), rest, OtherThan(id));
    FilterAll(BuiltinIds(), OtherThan(id));
  }

  // ----- the round trip -----

  function ResetEntry(r: Clis, id: string): Cli
    requires id in r.at
  {
    if id in BuiltinIds() then r.at[id].(detected := false) else r.at[id]
  }

  /** The registry with the detected flags of the builtins taken back. */
  function Reset(r: Clis): Clis {
    OMap(r.order, map id | id in r.at :: ResetEntry(r, id))
  }

  /** The first `n` entries of the reset registry. */
  function FirstEntries(r: Clis, n: nat): Clis
    requires n <= |r.order|
  {
    OMap(r.order[..n], map id | id in r.order[..n] && id in r.at :: ResetEntry(r, id))
  }

  lemma BuiltinResolves(lower: string -> string, id: string)
    requires KeepsBuiltins(lower)
    ensures id in BuiltinIds() ==> ResolveId(lower, Fresh(), id) == Some(id)
    ensures IsCustomId(lower, id) ==> ResolveId(lower, Fresh(), id) == None
  {
    if IsCustomId(lower, id) {
      CustomNotBuiltin(lower, id);
    }
  }

  lemma BuiltinsInFront(r: Clis, n: nat)
    requires |BuiltinIds()| <= n <= |r.order| && r.order[..|BuiltinIds()|] == BuiltinIds()
    ensures forall id :: id in BuiltinIds() ==> id in r.order[..n]
  {
    hide BuiltinIds;
    assert r.order[..n] == BuiltinIds() + r.order[|BuiltinIds()|..n];
  }

  lemma NotBefore(s: seq<string>, n: nat)
    requires NoDup(s) && n < |s|
    ensures s[n] !in s[..n]
  {
    forall i | 0 <= i < n ensures s[..n][i] != s[n] {
      NoDupAt(s, i, n);
    }
  }

  function BuiltinsWith(chosen: Option<string>): Clis {
    OMap(BuiltinIds(), map id | id in BuiltinIds() :: Builtin(id).(isDefault := chosen == Some(id)))
  }

  lemma FirstBuiltins(lower: string -> string, r: Clis)
    requires Inv(lower, r)
    ensures FirstEntries(r, |BuiltinIds()|) == BuiltinsWith(FirstKey(r.order, IsDefaultIn(r)))
  {
    hide NoDup, IsCustomId, FirstKey, BuiltinIds;
    var chosen := FirstKey(r.order, IsDefaultIn(r));
    FirstKeyFacts(r.order, IsDefaultIn(r));
    BuiltinsInFront(r, |BuiltinIds()|);
    BuiltinsInFront(r, |r.order|);
    assert r.order[..|r.order|] == r.order;
    forall id | id in BuiltinIds()
      ensures id in r.at && ResetEntry(r, id) == Builtin(id).(isDefault := chosen == Some(id))
    {
      assert id in r.order;
      assert EntryOk(lower, r, id);
      BuiltinId(id);
      if chosen.Some? {
        assert BothDefault(r, id, chosen.value) ==> id == chosen.value;
      }
    }
  }

  /** Reading the default id sets the flag of a builtin; a custom id is not known yet. */
  lemma DefaultRead(lower: string -> string, chosen: Option<string>)
    requires KeepsBuiltins(lower)
    requires chosen.Some? ==> chosen.value in BuiltinIds() || IsCustomId(lower, chosen.value)
    ensures Load(lower, Fresh(), Some(Config(chosen, []))) == BuiltinsWith(chosen)
  {
    hide IsCustomId, ResolveId, BuiltinIds, KeepsBuiltins, Builtin;
    if chosen.Some? {
      BuiltinResolves(lower, chosen.value);
      IdNotEmpty(lower, chosen.value);
    }
    forall id | id in BuiltinIds() ensures !Builtin(id).isDefault {
      BuiltinId(id);
    }
  }

  lemma IdNotEmpty(lower: string -> string, id: string)
    requires id in BuiltinIds() || IsCustomId(lower, id)
    ensures id != "" && (IsCustomId(lower, id) ==> id !in BuiltinIds())
  {
    if IsCustomId(lower, id) {
      CustomNotBuiltin(lower, id);
    }
  }

  lemma DefaultKnown(lower: string -> string, r: Clis)
    requires Inv(lower, r)
    ensures var chosen := FirstKey(r.order, IsDefaultIn(r));
            chosen.Some? ==> chosen.value in BuiltinIds() || IsCustomId(lower, chosen.value)
  {
    hide BuiltinIds, IsCustomId, FirstKey, NoDup;
    var chosen := FirstKey(r.order, IsDefaultIn(r));
    FirstKeyFacts(r.order, IsDefaultIn(r));
    if chosen.Some? {
      assert EntryOk(lower, r, chosen.value);
    }
  }

  /** After the default id is read: the builtins are as they were, but for detection. */
  lemma LoadedBuiltins(lower: string -> string, r: Clis)
    requires KeepsBuiltins(lower) && Inv(lower, r)
    ensures Load(lower, Fresh(), Some(Config(ConfigOf(r).defaultCliId, []))) == FirstEntries(r, |BuiltinIds()|)
  {
    hide Inv, BuiltinIds, FirstEntries, BuiltinsWith, Load, FirstKey;
    FirstBuiltins(lower, r);
    DefaultKnown(lower, r);
    DefaultRead(lower, FirstKey(r.order, IsDefaultIn(r)));
  }

  lemma {:induction false} LoadedCustoms(lower: string -> string, r: Clis, n: nat)
    requires Inv(lower, r) && |BuiltinIds()| <= n <= |r.order|
    ensures AddMissing(FirstEntries(r, |BuiltinIds()|), Customs(r, r.order[..n])) == FirstEntries(r, n)
    decreases n
  {
    hide Inv, BuiltinIds, FirstEntries;
    if n == |BuiltinIds()| {
      NoBuiltinCustoms(lower, r, n);
    } else {
      LoadedCustoms(lower, r, n - 1);
      NextCustom(lower, r, n - 1);
    }
  }

  lemma {:induction false} NoBuiltinCustoms(lower: string -> string, r: Clis, n: nat)
    requires Inv(lower, r) && n <= |BuiltinIds()|
    ensures Customs(r, r.order[..n]) == []
  {
    if n > 0 {
      hide NoDup, IsCustomId, Builtin, BuiltinIds;
      NoBuiltinCustoms(lower, r, n - 1);
      assert DropLast(r.order[..n]) == r.order[..n - 1];
      assert r.order[n - 1] == r.order[..|BuiltinIds()|][n - 1];
      assert r.order[n - 1] in BuiltinIds() && r.order[n - 1] in r.order;
      assert EntryOk(lower, r, r.order[n - 1]);
    }
  }

  lemma NextKey(lower: string -> string, r: Clis, n: nat)
    requires Inv(lower, r) && |BuiltinIds()| <= n < |r.order|
    ensures r.order[n] !in r.order[..n] && r.order[n] !in BuiltinIds() && r.order[n] in r.at
    ensures r.at[r.order[n]].id == r.order[n] && r.at[r.order[n]].isCustom
  {
    hide NoDup, IsCustomId, Builtin, BuiltinIds;
    NotBefore(r.order, n);
    BuiltinsInFront(r, n);
    assert EntryOk(lower, r, r.order[n]);
  }

  lemma NextCustom(lower: string -> string, r: Clis, n: nat)
    requires Inv(lower, r) && |BuiltinIds()| <= n < |r.order|
    requires AddMissing(FirstEntries(r, |BuiltinIds()|), Customs(r, r.order[..n])) == FirstEntries(r, n)
    ensures AddMissing(FirstEntries(r, |BuiltinIds()|), Customs(r, r.order[..n + 1])) == FirstEntries(r, n + 1)
  {
    hide Inv, BuiltinIds, FirstEntries, AddMissing;
    NextKey(lower, r, n);
    var id := r.order[n];
    assert r.order[..n + 1] == r.order[..n] + [id];
    assert DropLast(r.order[..n + 1]) == r.order[..n];
    var customs := Customs(r, r.order[..n]);
    assert Customs(r, r.order[..n + 1]) == customs + [r.at[id]];
    AddOne(FirstEntries(r, |BuiltinIds()|), customs, r.at[id]);
    PutNext(r, n);
  }

  lemma AddOne(r: Clis, customs: seq<Cli>, custom: Cli)
    requires custom.isCustom
    ensures AddMissing(r, customs + [custom])
         == if custom.id in AddMissing(r, customs).at then AddMissing(r, customs)
            else Put(AddMissing(r, customs), custom.id, custom)
  {
    assert DropLast(customs + [custom]) == customs;
  }

  lemma PutNext(r: Clis, n: nat)
    requires n < |r.order| && r.order[n] !in r.order[..n] && r.order[n] in r.at && r.order[n] !in BuiltinIds()
    ensures r.order[n] !in FirstEntries(r, n).at
    ensures Put(FirstEntries(r, n), r.order[n], r.at[r.order[n]]) == FirstEntries(r, n + 1)
  {
    hide BuiltinIds;
    assert r.order[..n + 1] == r.order[..n] + [r.order[n]];
  }

  /** Loading into a fresh registry what `persist` wrote gives the same entries in the same order with the
      same default; only the builtins' detected flags start over. */
  lemma PersistLoadRoundTrip(lower: string -> string, r: Clis)
    requires KeepsBuiltins(lower) && Inv(lower, r)
    ensures Load(lower, Fresh(), Some(ConfigOf(r))) == Reset(r)
    ensures FirstKey(Reset(r).order, IsDefaultIn(Reset(r))) == FirstKey(r.order, IsDefaultIn(r))
    ensures Inv(lower, Reset(r))
  {
    hide BuiltinIds, EntryOk, NoDup, Customs, ResolveId, Fresh, FirstKey;
    LoadedBuiltins(lower, r);
    LoadedCustoms(lower, r, |r.order|);
    assert r.order[..|r.order|] == r.order;
    assert FirstEntries(r, |r.order|) == Reset(r);
    ResetInv(lower, r);
    SameDefault(r);
  }

  lemma ResetInv(lower: string -> string, r: Clis)
    requires Inv(lower, r)
    ensures Inv(lower, Reset(r))
  {
    hide EntryOk, NoDup, BuiltinIds;
    forall a, b | BothDefault(Reset(r), a, b) ensures a == b {
      assert BothDefault(r, a, b);
    }
    OnlyFlagsInv(lower, r, Reset(r));
  }

  lemma SameDefault(r: Clis)
    ensures FirstKey(r.order, IsDefaultIn(Reset(r))) == FirstKey(r.order, IsDefaultIn(r))
  {
    hide BuiltinIds;
    FirstKeySame(r.order, IsDefaultIn(Reset(r)), IsDefaultIn(r));
  }

  lemma {:induction false} FirstKeySame(order: seq<string>, p: string -> bool, q: string -> bool)
    requires forall k :: p(k) == q(k)
    ensures FirstKey(order, p) == FirstKey(order, q)
  {
    if order != [] {
      FirstKeySame(order[1..], p, q);
    }
  }

  /** There is a default exactly when some tool was detected; it was detected, and it is the chosen one
      when that was. */
  lemma DefaultIffDetected(lower: string -> string, r: Clis)
    requires Inv(lower, r)
    ensures GetDefault(r).Some? <==> exists id :: id in r.at && r.at[id].detected
    ensures GetDefault(r).Some? ==> GetDefault(r).value in r.at && r.at[GetDefault(r).value].detected
    ensures forall id :: id in r.at && r.at[id].isDefault && r.at[id].detected ==> GetDefault(r) == Some(id)
  {
    hide BuiltinIds, EntryOk, NoDup, FirstKey;
    FirstKeyFacts(r.order, IsChosenIn(r));
    FirstKeyFacts(r.order, IsDetectedIn(r));
    forall id | id in r.at && r.at[id].isDefault && r.at[id].detected ensures GetDefault(r) == Some(id) {
      assert IsChosenIn(r)(id);
      assert BothDefault(r, id, FirstKey(r.order, IsChosenIn(r)).value);
    }
    if exists id :: id in r.at && r.at[id].detected {
      var id :| id in r.at && r.at[id].detected;
      assert IsDetectedIn(r)(id);
    }
  }

  // ----- runs -----

  /** The registry in memory and its file. */
  datatype State = State(clis: Clis, file: Option<Config>)

  /** `saved` tells whether the file could be written. */
  datatype Op =
    | ApplyReport(detectedIds: set<string>)
    | DetectAll(found: set<string>)
    | SetDefault(id: string, saved: bool)
    | AddCustom(custom: Cli, saved: bool)
    | RemoveCustom(id: string, saved: bool)
    | Restart

  predicate Enabled(lower: string -> string, op: Op) {
    op.AddCustom? ==> IsCustomId(lower, op.custom.id) && op.custom.isCustom && !op.custom.isDefault
  }

  function Save(s: State, saved: bool): State {
    if saved then s.(file := Some(ConfigOf(s.clis))) else s
  }

  function Step(lower: string -> string, s: State, op: Op): State {
    match op
    case ApplyReport(detectedIds) => s.(clis := Report(s.clis, detectedIds))
    case DetectAll(found) => s.(clis := Detect(s.clis, found))
    case SetDefault(id, saved) =>
      var chosen := ResolveId(lower, s.clis, id);
      if chosen.None? then s else Save(s.(clis := OnlyDefault(s.clis, chosen.value)), saved)
    case AddCustom(custom, saved) => Save(s.(clis := Put(s.clis, custom.id, custom)), saved)
    case RemoveCustom(id, saved) =>
      if id in s.clis.at && s.clis.at[id].isCustom then Save(s.(clis := Delete(s.clis, id)), saved) else s
    case Restart => s.(clis := Load(lower, Fresh(), s.file))
  }

  function Run(lower: string -> string, ops: seq<Op>): State {
    if ops == [] then State(Fresh(), None) else Step(lower, Run(lower, DropLast(ops)), Last(ops))
  }

  /** The file holds what some well-formed registry wrote. */
  ghost predicate Saved(lower: string -> string, file: Option<Config>) {
    file.None? || exists r :: Inv(lower, r) && file.value == ConfigOf(r)
  }

  lemma StepInv(lower: string -> string, s: State, op: Op)
    requires KeepsBuiltins(lower) && Inv(lower, s.clis) && Saved(lower, s.file) && Enabled(lower, op)
    ensures Inv(lower, Step(lower, s, op).clis) && Saved(lower, Step(lower, s, op).file)
  {
    hide Inv, KeepsBuiltins, ConfigOf, Report, Detect, OnlyDefault, Load, ResolveId, IsCustomId, Fresh;
    match op
    case ApplyReport(detectedIds) => ReportInv(lower, s.clis, detectedIds);
    case DetectAll(found) => DetectInv(lower, s.clis, found);
    case SetDefault(id, _) =>
      var chosen := ResolveId(lower, s.clis, id);
      if chosen.Some? {
        OnlyDefaultInv(lower, s.clis, chosen.value);
      }
    case AddCustom(custom, _) => AddCustomInv(lower, s.clis, custom);
    case RemoveCustom(id, _) =>
      if id in s.clis.at && s.clis.at[id].isCustom {
        RemoveInv(lower, s.clis, id);
      }
    case Restart =>
      FreshInv(lower);
      LoadNothing(lower);
      if s.file.Some? {
        var r :| Inv(lower, r) && s.file.value == ConfigOf(r);
        PersistLoadRoundTrip(lower, r);
      }
  }

  lemma LoadNothing(lower: string -> string)
    ensures Load(lower, Fresh(), None) == Fresh()
  {
  }

  /** Over every run, restarts included, at most one tool is the default, the builtins stay, and the file
      holds a registry that loads. */
  lemma {:induction false} AtMostOneDefault(lower: string -> string, ops: seq<Op>)
    requires KeepsBuiltins(lower) && forall op :: op in ops ==> Enabled(lower, op)
    ensures Inv(lower, Run(lower, ops).clis) && Saved(lower, Run(lower, ops).file)
    ensures forall a, b :: BothDefault(Run(lower, ops).clis, a, b) ==> a == b
  {
    hide Inv, Saved;
    if ops == [] {
      FreshInv(lower);
      NothingSaved(lower);
    } else {
      assert Last(ops) in ops && forall op :: op in DropLast(ops) ==> op in ops;
      AtMostOneDefault(lower, DropLast(ops));
      StepInv(lower, Run(lower, DropLast(ops)), Last(ops));
    }
    OneDefault(lower, Run(lower, ops).clis);
  }

  lemma NothingSaved(lower: string -> string)
    ensures Saved(lower, None)
  {
  }

  lemma OneDefault(lower: string -> string, r: Clis)
    requires Inv(lower, r)
    ensures forall a, b :: BothDefault(r, a, b) ==> a == b
  {
  }

  /** A restart right after a change that was saved finds the registry as it was, builtin detection aside. */
  lemma RestartKeeps(lower: string -> string, ops: seq<Op>, op: Op)
    requires KeepsBuiltins(lower) && Enabled(lower, op) && forall o :: o in ops ==> Enabled(lower, o)
    requires Run(lower, ops + [op]).file == Some(ConfigOf(Run(lower, ops + [op]).clis))
    ensures Run(lower, ops + [op, Restart]).clis == Reset(Run(lower, ops + [op]).clis)
  {
    hide Step, Inv, ConfigOf, Load, Reset;
    AtMostOneDefault(lower, ops + [op]);
    assert DropLast(ops + [op, Restart]) == ops + [op];
    assert Last(ops + [op, Restart]) == Restart;
    RestartLoads(lower, Run(lower, ops + [op]));
    PersistLoadRoundTrip(lower, Run(lower, ops + [op]).clis);
  }

  lemma RestartLoads(lower: string -> string, s: State)
    ensures Step(lower, s, Restart).clis == Load(lower, Fresh(), s.file)
  {
  }

  // ----- what is looked up and what is reported -----

  /** An id is looked up trimmed and in lower case; "claude" is another name of "claude-code". */
  lemma ResolvesTo(lower: string -> string, r: Clis, id: string)
    requires Inv(lower, r) && KeepsBuiltins(lower)
    ensures var n := lower(Trim(id));
            ResolveId(lower, r, id)
            == if n == "claude" then Some("claude-code") else if n in r.at then Some(n) else None
  {
    hide Trim, Builtin, IsCustomId, NoDup;
    var n := lower(Trim(id));
    BuiltinsThere(lower, r);
    if n in r.at {
      assert EntryOk(lower, r, n);
      IdNotEmptyIn(lower, r, n);
      NoBareClaude(lower, r);
    }
  }

  lemma BuiltinsThere(lower: string -> string, r: Clis)
    requires Inv(lower, r)
    ensures forall id :: id in BuiltinIds() ==> id in r.at
    ensures "codex" in r.at && "claude-code" in r.at && "aider" in r.at && "copilot" in r.at
  {
    forall id | id in BuiltinIds() ensures id in r.at {
      assert id in r.order[..|BuiltinIds()|];
      assert id in r.order;
    }
    assert BuiltinIds()[0] == "codex" && BuiltinIds()[1] == "claude-code";
    assert BuiltinIds()[2] == "aider" && BuiltinIds()[3] == "copilot";
  }

  lemma IdNotEmptyIn(lower: string -> string, r: Clis, id: string)
    requires EntryOk(lower, r, id)
    ensures id != ""
  {
  }

  lemma NotClaude(lower: string -> string, r: Clis, id: string)
    requires EntryOk(lower, r, id)
    ensures id != "claude"
  {
    if id !in BuiltinIds() {
      CustomNotBuiltin(lower, id);
    }
  }

  lemma NoBareClaude(lower: string -> string, r: Clis)
    requires Inv(lower, r)
    ensures "claude" !in r.at
  {
    hide EntryOk, BuiltinIds, NoDup;
    forall id | id in r.at ensures id != "claude" {
      assert EntryOk(lower, r, id);
      NotClaude(lower, r, id);
    }
  }

  /** A report sets every flag, leaves a default there is, and else makes the first detected tool the default,
      in insertion order.  Detecting sets the flags and nothing else. */
  lemma ReportIs(lower: string -> string, r: Clis, detectedIds: set<string>)
    requires Inv(lower, r)
    ensures var r' := Report(r, detectedIds);
            && r'.order == r.order && r'.at.Keys == r.at.Keys
            && (forall id :: id in r.at ==>
                 r'.at[id] == r.at[id].(detected := id in detectedIds, isDefault := r'.at[id].isDefault))
            && ((exists d :: d in r.at && r.at[d].isDefault) ==>
                 forall id :: id in r.at ==> r'.at[id].isDefault == r.at[id].isDefault)
            && ((forall d :: d in r.at ==> !r.at[d].isDefault) ==>
                 forall i :: 0 <= i < |r.order| && r.order[i] in r.at ==>
                   (r'.at[r.order[i]].isDefault <==> FirstOf(r.order, detectedIds, i)))
    ensures var r' := Detect(r, detectedIds);
            && r'.order == r.order && r'.at.Keys == r.at.Keys
            && (forall id :: id in r.at ==> r'.at[id] == r.at[id].(detected := id in detectedIds))
  {
    hide EntryOk, BuiltinIds, NoDup, FirstKey, FirstOf;
    var marked := Mark(r, detectedIds);
    MarkedIs(lower, r, detectedIds);
    FirstKeyFacts(r.order, IsDefaultIn(marked));
    FirstKeyFacts(r.order, IsDetectedIn(marked));
    forall k | 0 <= k < |r.order|
      ensures FirstOf(r.order, detectedIds, k) <==> FirstKey(r.order, IsDetectedIn(marked)) == Some(r.order[k])
    {
      FirstDetected(r, detectedIds, k);
    }
  }

  lemma MarkedIs(lower: string -> string, r: Clis, detectedIds: set<string>)
    requires Inv(lower, r)
    ensures Mark(r, detectedIds) == OMap(r.order, map id | id in r.at :: r.at[id].(detected := id in detectedIds))
  {
    hide BuiltinIds, NoDup, Builtin, IsCustomId;
    forall id | id in r.at ensures r.at[id].id == id {
      assert EntryOk(lower, r, id);
    }
  }

  lemma FirstDetected(r: Clis, detectedIds: set<string>, k: nat)
    requires r.Valid() && k < |r.order|
    requires Mark(r, detectedIds) == OMap(r.order, map id | id in r.at :: r.at[id].(detected := id in detectedIds))
    ensures FirstOf(r.order, detectedIds, k)
       <==> FirstKey(r.order, IsDetectedIn(Mark(r, detectedIds))) == Some(r.order[k])
  {
    hide NoDup, FirstKey;
    var p := IsDetectedIn(Mark(r, detectedIds));
    FirstKeyFacts(r.order, p);
    assert forall j :: 0 <= j < |r.order| ==> r.order[j] in r.order && (p(r.order[j]) <==> r.order[j] in detectedIds);
    if FirstKey(r.order, p).Some? {
      var i := FirstKeyAt(r.order, p);
      SameIndex(r.order, i, k);
    }
  }

  lemma SameIndex(order: seq<string>, i: nat, k: nat)
    requires NoDup(order) && i < |order| && k < |order|
    ensures order[i] == order[k] <==> i == k
  {
    if i < k {
      NoDupAt(order, i, k);
    } else if k < i {
      NoDupAt(order, k, i);
    }
  }

  lemma {:induction false} FirstKeyAt(order: seq<string>, p: string -> bool) returns (i: nat)
    requires FirstKey(order, p).Some?
    ensures i < |order| && order[i] == FirstKey(order, p).value && p(order[i])
    ensures forall j :: 0 <= j < i ==> !p(order[j])
  {
    if p(order[0]) {
      i := 0;
    } else {
      var k := FirstKeyAt(order[1..], p);
      i := k + 1;
      forall j | 0 <= j < i ensures !p(order[j]) {
        assert j > 0 ==> order[j] == order[1..][j - 1];
      }
    }
  }

  /** `order[i]` is among the ids, and none before it is. */
  predicate FirstOf(order: seq<string>, ids: set<string>, i: int)
    requires 0 <= i < |order|
  {
    order[i] in ids && forall j :: 0 <= j < i ==> order[j] !in ids
  }

  // ----- the object -----

  class CliRegistry {
    const lower: string -> string
    var clis: Clis
    var file: Option<Config>

    ghost predicate Valid()
      reads this
    {
      KeepsBuiltins(lower) && Inv(lower, clis) && Saved(lower, file)
    }

    function Value(): State
      reads this
    {
      State(clis, file)
    }

    constructor (lower: string -> string, file: Option<Config>)
      requires KeepsBuiltins(lower) && Saved(lower, file)
      ensures Valid() && Value() == State(Fresh(), file) && this.lower == lower
    {
      this.lower := lower;
      this.file := file;
      clis := Fresh();
      new;
      hide Inv, Fresh, Saved, KeepsBuiltins;
      FreshInv(lower);
    }

    /** Called once on a fresh registry. */
    method LoadConfig()
      requires Valid() && clis == Fresh()
      modifies `clis
      ensures Value() == Step(lower, old(Value()), Restart) && Valid()
    {
      hide Inv, KeepsBuiltins, ResolveId, Saved;
      StepInv(lower, Value(), Restart);
      ghost var r0 := clis;
      if file.None? {
        return;
      }
      var config := file.value;
      if config.defaultCliId.Some? && config.defaultCliId.value != "" {
        var chosen := ResolveId(lower, clis, config.defaultCliId.value);
        if chosen.Some? && chosen.value in clis.at {
          clis := OMap(clis.order, clis.at[chosen.value := clis.at[chosen.value].(isDefault := true)]);
        }
      }
      ghost var r := clis;
      for i := 0 to |config.customClis|
        invariant clis == AddMissing(r, config.customClis[..i])
      {
        var custom := config.customClis[i];
        assert DropLast(config.customClis[..i + 1]) == config.customClis[..i];
        if custom.id !in clis.at {
          clis := Put(clis, custom.id, custom.(isCustom := true));
        }
      }
      assert config.customClis[..|config.customClis|] == config.customClis;
    }

    method Persist(saved: bool)
      modifies `file
      ensures Value() == Save(old(Value()), saved)
    {
      if saved {
        file := Some(Config(FirstKey(clis.order, IsDefaultIn(clis)), Customs(clis, clis.order)));
      }
    }

    method ApplyExtensionReport(detectedIds: set<string>)
      requires Valid()
      modifies `clis
      ensures Value() == Step(lower, old(Value()), ApplyReport(detectedIds)) && Valid()
    {
      hide Inv, KeepsBuiltins, Saved;
      StepInv(lower, Value(), ApplyReport(detectedIds));
      MarkDetected(detectedIds);
      if FirstKey(clis.order, IsDefaultIn(clis)).None? {
        var first := FirstKey(clis.order, IsDetectedIn(clis));
        if first.Some? && first.value in clis.at {
          clis := OMap(clis.order, clis.at[first.value := clis.at[first.value].(isDefault := true)]);
        }
      }
    }

    /** The loop that sets every `detected` flag. */
    method MarkDetected(detectedIds: set<string>)
      requires Inv(lower, clis)
      modifies `clis
      ensures clis == Mark(old(clis), detectedIds)
    {
      hide EntryOk, BuiltinIds, NoDup;
      ghost var r := clis;
      var keys := clis.order;
      for i := 0 to |keys|
        invariant clis.order == r.order && clis.at.Keys == r.at.Keys
        invariant forall id :: id in r.at ==>
          clis.at[id] == if id in r.order[..i] then r.at[id].(detected := r.at[id].id in detectedIds) else r.at[id]
      {
        var id := keys[i];
        assert id in r.order && r.order[..i + 1] == r.order[..i] + [id];
        clis := OMap(clis.order, clis.at[id := clis.at[id].(detected := clis.at[id].id in detectedIds)]);
      }
      assert r.order[..|r.order|] == r.order;
      assert clis.at == Mark(r, detectedIds).at;
    }

    /** The loop that takes every `isDefault` flag back. */
    method ClearDefaults()
      requires Inv(lower, clis)
      modifies `clis
      ensures clis.order == old(clis).order
      ensures clis.at == map id | id in old(clis).at :: old(clis).at[id].(isDefault := false)
    {
      hide EntryOk, BuiltinIds, NoDup;
      ghost var r := clis;
      var keys := clis.order;
      for i := 0 to |keys|
        invariant clis.order == r.order && clis.at.Keys == r.at.Keys
        invariant forall k :: k in r.at ==>
                    clis.at[k] == if k in r.order[..i] then r.at[k].(isDefault := false) else r.at[k]
      {
        var k := keys[i];
        assert k in r.order && r.order[..i + 1] == r.order[..i] + [k];
        clis := OMap(clis.order, clis.at[k := clis.at[k].(isDefault := false)]);
      }
      assert r.order[..|r.order|] == r.order;
    }

    method ChooseDefault(id: string, saved: bool) returns (ok: bool)
      requires Valid()
      modifies this
      ensures Value() == Step(lower, old(Value()), SetDefault(id, saved)) && Valid()
      ensures ok <==> ResolveId(lower, old(clis), id).Some?
      ensures ok ==> forall k :: k in clis.at ==>
                (clis.at[k].isDefault <==> Some(k) == ResolveId(lower, old(clis), id))
    {
      hide Inv, KeepsBuiltins, Saved, ResolveId, ConfigOf;
      StepInv(lower, Value(), SetDefault(id, saved));
      var chosen := ResolveId(lower, clis, id);
      if chosen.None? {
        return false;
      }
      ghost var r := clis;
      Resolved(lower, r, id);
      ClearDefaults();
      clis := OMap(clis.order, clis.at[chosen.value := clis.at[chosen.value].(isDefault := true)]);
      assert clis.at == OnlyDefault(r, chosen.value).at;
      Persist(saved);
      ok := true;
    }

    /** `custom.id` is made of the name and the clock. */
    method AddCustomCli(custom: Cli, saved: bool)
      requires Valid() && Enabled(lower, AddCustom(custom, saved))
      modifies this
      ensures Value() == Step(lower, old(Value()), AddCustom(custom, saved)) && Valid()
    {
      StepInv(lower, Value(), AddCustom(custom, saved));
      clis := Put(clis, custom.id, custom);
      Persist(saved);
    }

    method RemoveCustomCli(id: string, saved: bool) returns (ok: bool)
      requires Valid()
      modifies this
      ensures Value() == Step(lower, old(Value()), RemoveCustom(id, saved)) && Valid()
      ensures ok <==> id in old(clis).at && old(clis).at[id].isCustom
    {
      hide Inv;
      StepInv(lower, Value(), RemoveCustom(id, saved));
      if id !in clis.at || !clis.at[id].isCustom {
        return false;
      }
      clis := Delete(clis, id);
      Persist(saved);
      ok := true;
    }
  }

  lemma Resolved(lower: string -> string, r: Clis, id: string)
    ensures ResolveId(lower, r, id).Some? ==> ResolveId(lower, r, id).value in r.at
  {
  }
}
