/** Importing channels from a declarative file: preflight, writes, and the watcher
    that repeats the import when the file changes. */
module ConfigImport {
  import opened Strings
  import opened Wrappers
  import opened ChannelStatus

  const MULTI_KEY_RANDOM := "random"

  datatype Info = Info(isMultiKey: bool, size: nat, mode: string, statuses: map<int, int>, pollingIndex: nat)

  const SINGLE_KEY := Info(false, 0, "", map[], 0)

  /** The fields the file owns: every import replaces them. */
  datatype Owned = Owned(
    typ: int, name: string, key: string, baseUrl: Option<string>, models: string, group: string,
    paramOverride: Option<string>, headerOverride: Option<string>, info: Info)

  /** The fields of a stored channel that a file can declare. */
  datatype Declared = Declared(
    owned: Owned, priority: Option<int>, weight: Option<nat>, status: int, tag: Option<string>,
    remark: Option<string>, testModel: Option<string>, autoBan: Option<int>, other: string,
    modelMapping: Option<string>, setting: Option<string>, otherSettings: string)

  /** The fields it cannot. */
  datatype Runtime = Runtime(
    createdTime: int, organization: Option<string>, testTime: int, responseTime: int, balance: real,
    usedQuota: int, statusCodeMapping: Option<string>, otherInfo: string)

  datatype Channel = Channel(id: int, declared: Declared, runtime: Runtime)

  /** A JSON document of the file: absent or empty, or its encoded text. */
  datatype Document = Omitted | Encoded(text: string) | Unencodable

  /** One channel of the file; typ is the type its name or number resolves to. */
  datatype Source = Source(
    name: string, typ: Option<int>, baseUrl: string, keys: seq<string>, multiKeyMode: string, group: string,
    priority: Option<int>, weight: Option<nat>, status: Option<int>, tag: Option<string>, remark: Option<string>,
    testModel: Option<string>, autoBan: Option<int>, other: string,
    modelMapping: Option<map<string, string>>,
    paramOverride: Document, headerOverride: Document, setting: Document, otherSettings: Document)

  /** What the import asks of the rest of the program and of the upstreams. */
  datatype Environment = Environment(
    defaultBaseUrl: int -> string,
    encodeMapping: map<string, string> -> Document,
    validate: Declared -> bool,
    resolveModels: (Source, Declared) -> Option<seq<string>>,
    findFails: string -> bool)

  datatype Refusal = UnknownType | NoKey | BadDocument | Invalid | NoModels | LookupFailed

  // ----- preflight -----

  function EncodedMapping(env: Environment, s: Source): Document {
    if s.modelMapping.Some? && s.modelMapping.value != map[] then env.encodeMapping(s.modelMapping.value) else Omitted
  }

  /** marshalOverrideJSON: an absent or empty document is written as an empty object. */
  function OverrideText(d: Document): string {
    if d.Encoded? then d.text else "{}"
  }

  function OptionalText(d: Document): Option<string> {
    if d.Encoded? then Some(d.text) else None
  }

  predicate Encodable(env: Environment, s: Source) {
    !EncodedMapping(env, s).Unencodable? && !s.paramOverride.Unencodable? && !s.headerOverride.Unencodable?
    && !s.setting.Unencodable? && !s.otherSettings.Unencodable?
  }

  /** buildChannelFromConfig. */
  function Build(env: Environment, s: Source): Result<Declared, Refusal> {
    if s.typ.None? then Err(UnknownType)
    else if s.keys == [] then Err(NoKey)
    else if !Encodable(env, s) then Err(BadDocument)
    else
      var baseUrl := TrimSpace(s.baseUrl);
      var mode := if s.multiKeyMode == "" then MULTI_KEY_RANDOM else s.multiKeyMode;
      var owned := Owned(
        s.typ.value, s.name, Join(s.keys, '\n'),
        Some(if baseUrl == "" then env.defaultBaseUrl(s.typ.value) else baseUrl),
        "", if s.group == "" then "default" else s.group,
        Some(OverrideText(s.paramOverride)), Some(OverrideText(s.headerOverride)),
        if |s.keys| > 1 then Info(true, |s.keys|, mode, map[], 0) else SINGLE_KEY);
      Ok(Declared(
           owned, s.priority, s.weight, if s.status.Some? then s.status.value else ENABLED, s.tag, s.remark,
           s.testModel, s.autoBan, s.other, OptionalText(EncodedMapping(env, s)), OptionalText(s.setting),
           if s.otherSettings.Encoded? then s.otherSettings.text else ""))
  }

  datatype Prepared = Prepared(source: Source, built: Declared)

  function WithModels(d: Declared, models: seq<string>): Declared {
    d.(owned := d.owned.(models := Join(models, ',')))
  }

  /** The rest of the round, for a channel that could be built. */
  function Complete(env: Environment, s: Source, built: Declared): (r: Result<Prepared, Refusal>)
    ensures r.Err? ==> r.error in {Invalid, NoModels, LookupFailed}
  {
    if !env.validate(built) then Err(Invalid)
    else
      var models := env.resolveModels(s, built);
      if models.None? || models.value == [] then Err(NoModels)
      else
        var complete := WithModels(built, models.value);
        if !env.validate(complete) then Err(Invalid)
        else if env.findFails(s.name) then Err(LookupFailed)
        else Ok(Prepared(s, complete))
  }

  /** One round of the preflight loop, without the lookup. */
  function Prepare(env: Environment, s: Source): Result<Prepared, Refusal> {
    var built := Build(env, s);
    if built.Err? then Err(built.error) else Complete(env, s, built.value)
  }

  /** A prepared item says what the file says, and the defaults where it says nothing. */
  ghost predicate SaysFile(env: Environment, p: Prepared) {
    OwnedSaysFile(env, p.source, p.built.owned) && OptionalSaysFile(env, p.source, p.built)
  }

  ghost predicate OptionalSaysFile(env: Environment, s: Source, b: Declared) {
    && b.priority == s.priority && b.weight == s.weight && b.tag == s.tag && b.remark == s.remark
    && b.testModel == s.testModel && b.autoBan == s.autoBan && b.other == s.other
    && (s.status.Some? ==> b.status == s.status.value) && (s.status.None? ==> b.status == ENABLED)
    && b.modelMapping == OptionalText(EncodedMapping(env, s)) && b.setting == OptionalText(s.setting)
    && (s.otherSettings.Omitted? ==> b.otherSettings == "")
    && (s.otherSettings.Encoded? ==> b.otherSettings == s.otherSettings.text)
  }

  ghost predicate OwnedSaysFile(env: Environment, s: Source, o: Owned) {
    && Some(o.typ) == s.typ && o.name == s.name && o.key == Join(s.keys, '\n')
    && (TrimSpace(s.baseUrl) != "" ==> o.baseUrl == Some(TrimSpace(s.baseUrl)))
    && (TrimSpace(s.baseUrl) == "" ==> o.baseUrl == Some(env.defaultBaseUrl(o.typ)))
    && (s.group != "" ==> o.group == s.group) && (s.group == "" ==> o.group == "default")
    && (s.paramOverride.Encoded? ==> o.paramOverride == Some(s.paramOverride.text))
    && (s.paramOverride.Omitted? ==> o.paramOverride == Some("{}"))
    && (s.headerOverride.Encoded? ==> o.headerOverride == Some(s.headerOverride.text))
    && (s.headerOverride.Omitted? ==> o.headerOverride == Some("{}"))
    && o.info.isMultiKey == (|s.keys| > 1) && o.info.statuses == map[] && o.info.pollingIndex == 0
    && (|s.keys| > 1 ==> o.info.size == |s.keys|)
    && (|s.keys| > 1 && s.multiKeyMode != "" ==> o.info.mode == s.multiKeyMode)
    && (|s.keys| > 1 && s.multiKeyMode == "" ==> o.info.mode == MULTI_KEY_RANDOM)
    && (|s.keys| <= 1 ==> o.info == SINGLE_KEY)
  }

  lemma OwnedIsBuilt(env: Environment, s: Source)
    requires Build(env, s).Ok?
    ensures OwnedSaysFile(env, s, Build(env, s).value.owned)
  {
  }

  lemma BuildSaysFile(env: Environment, s: Source, p: Prepared, models: seq<string>)
    requires Build(env, s).Ok? && p == Prepared(s, WithModels(Build(env, s).value, models))
    ensures SaysFile(env, p)
  {
    OwnedIsBuilt(env, s);
    ModelsDoNotMatter(env, s, Build(env, s).value.owned, p.built.owned);
    OptionalIsBuilt(env, s);
  }

  lemma ModelsDoNotMatter(env: Environment, s: Source, o: Owned, o': Owned)
    requires OwnedSaysFile(env, s, o) && o' == o.(models := o'.models)
    ensures OwnedSaysFile(env, s, o')
  {
  }

  lemma OptionalIsBuilt(env: Environment, s: Source)
    requires Build(env, s).Ok?
    ensures OptionalSaysFile(env, s, Build(env, s).value)
  {
  }

  /** What the preflight lets through ... */
  lemma PrepareIs(env: Environment, s: Source)
    requires Prepare(env, s).Ok?
    ensures Build(env, s).Ok? && Encodable(env, s)
    ensures var p, b := Prepare(env, s).value, Build(env, s).value;
            && p.source == s && SaysFile(env, p)
            && env.validate(b) && env.validate(p.built) && !env.findFails(s.name)
            && env.resolveModels(s, b).Some? && env.resolveModels(s, b).value != []
            && p.built == WithModels(b, env.resolveModels(s, b).value)
  {
    BuildSaysFile(env, s, Prepare(env, s).value, env.resolveModels(s, Build(env, s).value).value);
  }

  /** It lets an entry through exactly when everybody who is asked agrees. */
  lemma PassesIff(env: Environment, s: Source)
    ensures Prepare(env, s).Ok? <==>
            && s.typ.Some? && s.keys != [] && Encodable(env, s)
            && var b := Build(env, s).value;
               && env.validate(b) && env.resolveModels(s, b).Some? && env.resolveModels(s, b).value != []
               && env.validate(WithModels(b, env.resolveModels(s, b).value)) && !env.findFails(s.name)
  {
    BuildRefusedIff(env, s);
  }

  /** ... and what it refuses, before it asks anybody else. */
  lemma RefusedIff(env: Environment, s: Source)
    ensures Prepare(env, s) == Err(UnknownType) <==> s.typ.None?
    ensures Prepare(env, s) == Err(NoKey) <==> s.typ.Some? && s.keys == []
    ensures Prepare(env, s) == Err(BadDocument) <==> s.typ.Some? && s.keys != [] && !Encodable(env, s)
  {
    BuildRefusedIff(env, s);
  }

  lemma BuildRefusedIff(env: Environment, s: Source)
    ensures Build(env, s).Ok? <==> s.typ.Some? && s.keys != [] && Encodable(env, s)
    ensures Build(env, s).Err? ==>
      Build(env, s).error == if s.typ.None? then UnknownType else if s.keys == [] then NoKey else BadDocument
  {
  }

  function Name(p: Prepared): string {
    p.built.owned.name
  }

  /** The preflight passes. */
  predicate Passes(env: Environment, config: seq<Source>) {
    forall i :: 0 <= i < |config| ==> Prepare(env, config[i]).Ok?
  }

  function Items(env: Environment, config: seq<Source>): (items: seq<Prepared>)
    requires Passes(env, config)
    ensures |items| == |config|
    ensures forall i :: 0 <= i < |items| ==> items[i] == Prepare(env, config[i]).value
  {
    seq(|config|, i requires 0 <= i < |config| => Prepare(env, config[i]).value)
  }

  // ----- the table -----

  /** Channels in the order of their ids, and the next id. */
  datatype Table = Table(rows: seq<Channel>, nextId: int)

  ghost predicate Valid(t: Table) {
    && (forall i, j :: 0 <= i < j < |t.rows| ==> t.rows[i].id < t.rows[j].id)
    && (forall i :: 0 <= i < |t.rows| ==> t.rows[i].id < t.nextId)
  }

  /** The position of the channel with the lowest id among those with the name. */
  function Find(rows: seq<Channel>, name: string): (k: nat)
    ensures k <= |rows|
    ensures k < |rows| ==> rows[k].declared.owned.name == name
    ensures forall i :: 0 <= i < k ==> rows[i].declared.owned.name != name
  {
    if rows == [] then 0
    else
      var n := |rows| - 1;
      var k := Find(rows[..n], name);
      if k < n || rows[n].declared.owned.name == name then k else |rows|
  }

  lemma FindUnique(rows: seq<Channel>, name: string, k: nat)
    requires k <= |rows| && (k < |rows| ==> rows[k].declared.owned.name == name)
    requires forall i :: 0 <= i < k ==> rows[i].declared.owned.name != name
    ensures Find(rows, name) == k
  {
  }

  /** findChannelForConfig. */
  function Lookup(rows: seq<Channel>, name: string): Option<Channel> {
    var k := Find(rows, name);
    if k < |rows| then Some(rows[k]) else None
  }

  function SaveRow(rows: seq<Channel>, row: Channel): seq<Channel> {
    seq(|rows|, i requires 0 <= i < |rows| => if rows[i].id == row.id then row else rows[i])
  }

  lemma SaveRowAt(t: Table, k: nat, row: Channel)
    requires Valid(t) && k < |t.rows| && t.rows[k].id == row.id
    ensures SaveRow(t.rows, row) == t.rows[k := row]
  {
    forall i | 0 <= i < |t.rows| && i != k
      ensures t.rows[i].id != row.id
    {
      assert i < k ==> t.rows[i].id < t.rows[k].id;
      assert k < i ==> t.rows[k].id < t.rows[i].id;
    }
  }

  // ----- writing one channel -----

  /** applyChannelConfigToExisting. */
  function Overlay(old_: Declared, p: Prepared): Declared {
    var s, b := p.source, p.built;
    Declared(
      b.owned,
      if b.priority.Some? then b.priority else old_.priority,
      if b.weight.Some? then b.weight else old_.weight,
      if s.status.Some? then b.status else old_.status,
      if s.tag.Some? then b.tag else old_.tag,
      if s.remark.Some? then b.remark else old_.remark,
      if s.testModel.Some? then b.testModel else old_.testModel,
      if s.autoBan.Some? then b.autoBan else old_.autoBan,
      if s.other != "" then b.other else old_.other,
      if s.modelMapping.Some? then b.modelMapping else old_.modelMapping,
      if b.setting.Some? then b.setting else old_.setting,
      if b.otherSettings != "" then b.otherSettings else old_.otherSettings)
  }

  /** What creating a channel stores: priority and weight get values, and the
      database fills every zero value that has a column default, so status 0
      becomes 1 and a missing auto_ban becomes 1. */
  function Created(b: Declared): Declared {
    b.(priority := if b.priority.Some? then b.priority else Some(0),
       weight := if b.weight.Some? then b.weight else Some(1),
       status := if b.status == 0 then ENABLED else b.status,
       autoBan := if b.autoBan.Some? then b.autoBan else Some(1))
  }

  function Write(existing: Option<Channel>, p: Prepared, id: int, now: int): Channel {
    match existing
    case Some(row) => row.(declared := Overlay(row.declared, p))
    case None => Channel(id, Created(p.built), Runtime(now, None, 0, 0, 0.0, 0, Some(""), ""))
  }

  function Step(t: Table, p: Prepared, now: int): Table {
    var k := Find(t.rows, p.source.name);
    if k < |t.rows| then t.(rows := t.rows[k := Write(Some(t.rows[k]), p, t.nextId, now)])
    else Table(t.rows + [Write(None, p, t.nextId, now)], t.nextId + 1)
  }

  /** A write may go through, fail, or go through with its abilities not rebuilt. */
  datatype Outcome = Written | WrittenOnly | NotWritten

  function StepUnless(t: Table, p: Prepared, now: int, outcome: Outcome): Table {
    if outcome.NotWritten? then t else Step(t, p, now)
  }

  /** The channels one after the other, each looked up when its turn comes. */
  function ApplyAll(t: Table, items: seq<Prepared>, now: int, outcomes: nat -> Outcome): Table {
    if items == [] then t
    else
      var n := |items| - 1;
      StepUnless(ApplyAll(t, items[..n], now, outcomes), items[n], now, outcomes(n))
  }

  ghost predicate Named(items: seq<Prepared>) {
    && (forall i :: 0 <= i < |items| ==> Name(items[i]) == items[i].source.name)
    && (forall i, j :: 0 <= i < j < |items| ==> items[i].source.name != items[j].source.name)
  }

  lemma StepKeepsValid(t: Table, p: Prepared, now: int)
    requires Valid(t)
    ensures Valid(Step(t, p, now))
  {
  }

  /** A write is found under its name ... */
  lemma StepFinds(t: Table, p: Prepared, now: int)
    requires Name(p) == p.source.name
    ensures Lookup(Step(t, p, now).rows, p.source.name) ==
            Some(Write(Lookup(t.rows, p.source.name), p, t.nextId, now))
  {
    FindUnique(Step(t, p, now).rows, p.source.name, Find(t.rows, p.source.name));
  }

  /** ... and changes nothing that is found under another. */
  lemma StepSpares(t: Table, p: Prepared, now: int, name: string)
    requires Name(p) == p.source.name && name != p.source.name
    ensures Lookup(Step(t, p, now).rows, name) == Lookup(t.rows, name)
  {
    var k := Find(t.rows, name);
    var after := Step(t, p, now).rows;
    if k < |t.rows| {
      FindUnique(after, name, k);
    } else {
      FindUnique(after, name, |after|);
    }
  }

  lemma {:induction false} AllSpare(t: Table, items: seq<Prepared>, now: int, outcomes: nat -> Outcome, name: string)
    requires Named(items) && forall i :: 0 <= i < |items| ==> items[i].source.name != name
    ensures Lookup(ApplyAll(t, items, now, outcomes).rows, name) == Lookup(t.rows, name)
  {
    if items != [] {
      var n := |items| - 1;
      AllSpare(t, items[..n], now, outcomes, name);
      StepSpares(ApplyAll(t, items[..n], now, outcomes), items[n], now, name);
    }
  }

  // ----- what an import does to each channel -----

  /** After an import, the row of every item is its row before, or a new one,
      overwritten once; whatever the other items are. */
  lemma {:induction false} AppliedRow(t: Table, items: seq<Prepared>, now: int, outcomes: nat -> Outcome, i: nat)
    returns (id: int)
    requires Named(items) && i < |items| && !outcomes(i).NotWritten?
    ensures Lookup(ApplyAll(t, items, now, outcomes).rows, items[i].source.name) ==
            Some(Write(Lookup(t.rows, items[i].source.name), items[i], id, now))
  {
    var n := |items| - 1;
    var before := ApplyAll(t, items[..n], now, outcomes);
    if i == n {
      AllSpare(t, items[..n], now, outcomes, items[n].source.name);
      StepFinds(before, items[n], now);
      id := before.nextId;
    } else {
      id := AppliedRow(t, items[..n], now, outcomes, i);
      StepSpares(before, items[n], now, items[i].source.name);
    }
  }

  /** Items come from the file, in its order. */
  lemma ItemsAreNamed(env: Environment, config: seq<Source>)
    requires Passes(env, config) && DistinctNames(config)
    ensures Named(Items(env, config)) && AllSayFile(env, Items(env, config))
    ensures forall i :: 0 <= i < |config| ==> Items(env, config)[i].source == config[i]
  {
    forall i | 0 <= i < |config|
      ensures SaysFile(env, Items(env, config)[i]) && Items(env, config)[i].source == config[i]
      ensures Name(Items(env, config)[i]) == config[i].name
    {
      PrepareIs(env, config[i]);
    }
  }

  ghost predicate AllSayFile(env: Environment, items: seq<Prepared>) {
    forall i :: 0 <= i < |items| ==> SaysFile(env, items[i])
  }

  ghost predicate DistinctNames(config: seq<Source>) {
    forall i, j :: 0 <= i < j < |config| ==> config[i].name != config[j].name
  }

  // ----- what becomes of each field -----

  /** Optional fields: taken where the file gives them, kept where it does not. */
  ghost predicate OptionalImported(env: Environment, s: Source, before: Declared, after: Declared) {
    && (if s.priority.Some? then after.priority == s.priority else after.priority == before.priority)
    && (if s.weight.Some? then after.weight == s.weight else after.weight == before.weight)
    && (if s.status.Some? then after.status == s.status.value else after.status == before.status)
    && (if s.tag.Some? then after.tag == s.tag else after.tag == before.tag)
    && (if s.remark.Some? then after.remark == s.remark else after.remark == before.remark)
    && (if s.testModel.Some? then after.testModel == s.testModel else after.testModel == before.testModel)
    && (if s.autoBan.Some? then after.autoBan == s.autoBan else after.autoBan == before.autoBan)
    && (if s.other != "" then after.other == s.other else after.other == before.other)
    && (if s.modelMapping.None? then after.modelMapping == before.modelMapping
        else after.modelMapping == OptionalText(EncodedMapping(env, s)))
    && (if s.setting.Encoded? then after.setting == Some(s.setting.text) else after.setting == before.setting)
    && (if s.otherSettings.Encoded? && s.otherSettings.text != "" then after.otherSettings == s.otherSettings.text
        else after.otherSettings == before.otherSettings)
  }

  lemma OverlayImports(env: Environment, before: Declared, p: Prepared)
    requires SaysFile(env, p) && Encodable(env, p.source)
    ensures OptionalImported(env, p.source, before, Overlay(before, p))
  {
  }

  /** The row an import leaves behind for a channel that was stored, field by field:
      the id and the runtime fields stay, an optional field the file omits stays, and
      the fields the file owns become what it gives or, where it omits them, their
      defaults. */
  lemma ImportedFields(env: Environment, t: Table, config: seq<Source>, now: int, outcomes: nat -> Outcome, i: nat)
    requires Passes(env, config) && DistinctNames(config) && i < |config| && !outcomes(i).NotWritten?
    requires Lookup(t.rows, config[i].name).Some?
    ensures var s, before := config[i], Lookup(t.rows, config[i].name).value;
            var found := Lookup(ApplyAll(t, Items(env, config), now, outcomes).rows, s.name);
            && found.Some? && found.value.id == before.id && found.value.runtime == before.runtime
            && OptionalImported(env, s, before.declared, found.value.declared)
            && OwnedSaysFile(env, s, found.value.declared.owned)
            && found.value.declared.owned == Items(env, config)[i].built.owned
  {
    var items := Items(env, config);
    ItemsAreNamed(env, config);
    var id := AppliedRow(t, items, now, outcomes, i);
    PrepareIs(env, config[i]);
    OverlayImports(env, Lookup(t.rows, config[i].name).value.declared, items[i]);
  }

  /** The stored models read back as the list that was resolved for the entry, exactly
      when no name holds a comma and neither outer one is empty. */
  lemma ImportedModelsReadBackIff(env: Environment, s: Source)
    requires Prepare(env, s).Ok?
    ensures var models := env.resolveModels(s, Build(env, s).value);
            && Build(env, s).Ok? && models.Some? && models.value != []
            && (Pieces(Prepare(env, s).value.built.owned.models, ',') == models.value <==>
                AllFree(models.value, ',') && models.value[0] != "" && models.value[|models.value| - 1] != "")
  {
    PrepareIs(env, s);
    var b := Build(env, s).value;
    ModelsReadBackIff(b, env.resolveModels(s, b).value);
  }

  lemma ModelsReadBackIff(b: Declared, models: seq<string>)
    requires models != []
    ensures Pieces(WithModels(b, models).owned.models, ',') == models <==>
            AllFree(models, ',') && models[0] != "" && models[|models| - 1] != ""
  {
    PiecesJoinIff(models, ',');
  }

  /** What a created channel holds: what the file gives, and otherwise priority 0,
      weight 1, status 1 (also for status 0) and auto_ban 1; nothing is counted yet. */
  lemma CreatedFields(env: Environment, t: Table, config: seq<Source>, now: int, outcomes: nat -> Outcome, i: nat)
    requires Passes(env, config) && DistinctNames(config) && i < |config| && !outcomes(i).NotWritten?
    requires Lookup(t.rows, config[i].name).None?
    ensures var s, found := config[i], Lookup(ApplyAll(t, Items(env, config), now, outcomes).rows, config[i].name);
            && found.Some?
            && var d, run := found.value.declared, found.value.runtime;
               && OwnedSaysFile(env, s, d.owned) && d.owned == Items(env, config)[i].built.owned
               && d.priority == (if s.priority.Some? then s.priority else Some(0))
               && d.weight == (if s.weight.Some? then s.weight else Some(1))
               && d.status == (if s.status.Some? && s.status.value != 0 then s.status.value else 1)
               && d.autoBan == (if s.autoBan.Some? then s.autoBan else Some(1))
               && d.tag == s.tag && d.remark == s.remark && d.testModel == s.testModel && d.other == s.other
               && d.modelMapping == OptionalText(EncodedMapping(env, s)) && d.setting == OptionalText(s.setting)
               && d.otherSettings == (if s.otherSettings.Encoded? then s.otherSettings.text else "")
               && run.createdTime == now && run.usedQuota == 0 && run.balance == 0.0 && run.testTime == 0
  {
    ItemsAreNamed(env, config);
    PrepareIs(env, config[i]);
    var id := AppliedRow(t, Items(env, config), now, outcomes, i);
  }

  /** Exactly when an owned field keeps its stored value. An omitted group, base URL
      or override is reset, and the recorded states of the keys are always dropped. */
  ghost predicate OwnedKeptIff(env: Environment, s: Source, before: Owned, after: Owned) {
    && (after.group == before.group <==> before.group == if s.group != "" then s.group else "default")
    && (after.baseUrl == before.baseUrl <==>
        before.baseUrl ==
        Some(if TrimSpace(s.baseUrl) != "" then TrimSpace(s.baseUrl) else env.defaultBaseUrl(after.typ)))
    && (after.paramOverride == before.paramOverride <==>
        before.paramOverride == Some(if s.paramOverride.Encoded? then s.paramOverride.text else "{}"))
    && (after.headerOverride == before.headerOverride <==>
        before.headerOverride == Some(if s.headerOverride.Encoded? then s.headerOverride.text else "{}"))
    && (after.info.statuses == before.info.statuses <==> before.info.statuses == map[])
    && (after.info.pollingIndex == before.info.pollingIndex <==> before.info.pollingIndex == 0)
    && (after.key == before.key <==> before.key == Join(s.keys, '\n'))
    && (after.typ == before.typ <==> s.typ == Some(before.typ))
  }

  lemma OmittedIsKeptIff(env: Environment, t: Table, config: seq<Source>, now: int, outcomes: nat -> Outcome, i: nat)
    requires Passes(env, config) && DistinctNames(config) && i < |config| && !outcomes(i).NotWritten?
    requires Lookup(t.rows, config[i].name).Some?
    ensures var s, before := config[i], Lookup(t.rows, config[i].name).value;
            var found := Lookup(ApplyAll(t, Items(env, config), now, outcomes).rows, s.name);
            found.Some? && OwnedKeptIff(env, s, before.declared.owned, found.value.declared.owned)
  {
    ImportedFields(env, t, config, now, outcomes, i);
    PrepareIs(env, config[i]);
    var before := Lookup(t.rows, config[i].name).value.declared.owned;
    var after := Lookup(ApplyAll(t, Items(env, config), now, outcomes).rows, config[i].name).value.declared.owned;
    OwnedIsKept(env, config[i], before, after);
  }

  lemma OwnedIsKept(env: Environment, s: Source, before: Owned, after: Owned)
    requires OwnedSaysFile(env, s, after) && Encodable(env, s)
    ensures OwnedKeptIff(env, s, before, after)
  {
  }

  // ----- importing again -----

  lemma OverlayTwice(d: Declared, p: Prepared)
    ensures Overlay(Overlay(d, p), p) == Overlay(d, p)
  {
  }

  /** A created channel is what importing it again would make of it, unless the file
      asks for status 0, which creating turns into 1. */
  lemma OverlayCreatedIff(env: Environment, p: Prepared)
    requires SaysFile(env, p)
    ensures Overlay(Created(p.built), p) == Created(p.built) <==> p.source.status != Some(0)
  {
  }

  lemma StepSettled(t: Table, p: Prepared, now: int)
    requires Lookup(t.rows, p.source.name).Some?
    requires var row := Lookup(t.rows, p.source.name).value; Overlay(row.declared, p) == row.declared
    ensures Step(t, p, now) == t
  {
    var k := Find(t.rows, p.source.name);
    assert t.rows[k := t.rows[k]] == t.rows;
  }

  /** Every row is what its item makes of it. */
  ghost predicate Settled(t: Table, items: seq<Prepared>) {
    forall i :: 0 <= i < |items| ==> RowSettled(t, items[i])
  }

  ghost predicate RowSettled(t: Table, p: Prepared) {
    var found := Lookup(t.rows, p.source.name);
    found.Some? && Overlay(found.value.declared, p) == found.value.declared
  }

  lemma {:induction false} SettledStays(t: Table, items: seq<Prepared>, now: int, outcomes: nat -> Outcome, n: nat)
    requires Settled(t, items) && n <= |items|
    ensures ApplyAll(t, items[..n], now, outcomes) == t
  {
    if n > 0 {
      SettledStays(t, items, now, outcomes, n - 1);
      assert items[..n][..n - 1] == items[..n - 1];
      StepSettled(t, items[n - 1], now);
    }
  }

  /** All writes succeed. */
  function AllWritten(): nat -> Outcome {
    (i: nat) => Written
  }

  function Import(t: Table, items: seq<Prepared>, now: int): Table {
    ApplyAll(t, items, now, AllWritten())
  }

  /** A channel the file sets to status 0 and that is not there yet. */
  predicate BornWithZero(t: Table, p: Prepared) {
    Lookup(t.rows, p.source.name).None? && p.source.status == Some(0)
  }

  lemma SettledIff(env: Environment, t: Table, items: seq<Prepared>, now: int)
    requires Named(items) && AllSayFile(env, items)
    ensures Settled(Import(t, items, now), items) <==>
            forall i :: 0 <= i < |items| ==> !BornWithZero(t, items[i])
  {
    forall i | 0 <= i < |items|
      ensures var found := Lookup(Import(t, items, now).rows, items[i].source.name);
              && found.Some?
              && (Overlay(found.value.declared, items[i]) == found.value.declared
                  <==> !BornWithZero(t, items[i]))
    {
      var id := AppliedRow(t, items, now, AllWritten(), i);
      var before := Lookup(t.rows, items[i].source.name);
      if before.Some? {
        OverlayTwice(before.value.declared, items[i]);
      } else {
        OverlayCreatedIff(env, items[i]);
      }
    }
  }

  /** Importing the same file again changes nothing exactly when every channel it
      sets to status 0 was there before the first import. */
  lemma ImportTwiceIff(env: Environment, t: Table, items: seq<Prepared>, now: int, later: int)
    requires Named(items) && AllSayFile(env, items)
    ensures Import(Import(t, items, now), items, later) == Import(t, items, now) <==>
            forall i :: 0 <= i < |items| ==> !BornWithZero(t, items[i])
  {
    var once := Import(t, items, now);
    SettledIff(env, t, items, now);
    assert items[..|items|] == items;
    if Settled(once, items) {
      SettledStays(once, items, later, AllWritten(), |items|);
    } else {
      var i :| 0 <= i < |items| && BornWithZero(t, items[i]);
      var _ := AppliedRow(t, items, now, AllWritten(), i);
      var _ := AppliedRow(once, items, later, AllWritten(), i);
      OverlayCreatedIff(env, items[i]);
    }
  }

  /** A second import always settles it: from then on nothing changes. */
  lemma ImportConverges(env: Environment, t: Table, items: seq<Prepared>, now: int, later: int, evenLater: int)
    requires Named(items) && AllSayFile(env, items)
    ensures var twice := Import(Import(t, items, now), items, later);
            Import(twice, items, evenLater) == twice
  {
    var once := Import(t, items, now);
    forall i | 0 <= i < |items|
      ensures Lookup(once.rows, items[i].source.name).Some?
    {
      var _ := AppliedRow(t, items, now, AllWritten(), i);
    }
    ImportTwiceIff(env, once, items, later, evenLater);
  }

  // ----- rows that no item names -----

  lemma StepKeepsFind(t: Table, p: Prepared, now: int, name: string)
    requires Name(p) == p.source.name && name != p.source.name
    ensures var k, after := Find(t.rows, name), Step(t, p, now).rows;
            |t.rows| <= |after| && Find(after, name) == if k < |t.rows| then k else |after|
  {
    var k, after := Find(t.rows, name), Step(t, p, now).rows;
    FindUnique(after, name, if k < |t.rows| then k else |after|);
  }

  lemma {:induction false} AllKeepFind(t: Table, items: seq<Prepared>, now: int, outcomes: nat -> Outcome, name: string)
    requires Named(items) && forall i :: 0 <= i < |items| ==> items[i].source.name != name
    ensures var k, after := Find(t.rows, name), ApplyAll(t, items, now, outcomes).rows;
            |t.rows| <= |after| && Find(after, name) == if k < |t.rows| then k else |after|
  {
    if items != [] {
      var n := |items| - 1;
      AllKeepFind(t, items[..n], now, outcomes, name);
      StepKeepsFind(ApplyAll(t, items[..n], now, outcomes), items[n], now, name);
    }
  }

  lemma OtherRowStays(t: Table, p: Prepared, now: int, k: nat)
    requires k < |t.rows| && Find(t.rows, p.source.name) != k
    ensures k < |Step(t, p, now).rows| && |t.rows| <= |Step(t, p, now).rows| && Step(t, p, now).rows[k] == t.rows[k]
  {
  }

  /** An import changes no row but those its items name: a namesake with a higher id
      stays as it is, and no row goes away or moves. */
  lemma {:induction false} OtherRowsStay(t: Table, items: seq<Prepared>, now: int, outcomes: nat -> Outcome, k: nat)
    requires Named(items) && k < |t.rows|
    requires forall i :: 0 <= i < |items| ==> Find(t.rows, items[i].source.name) != k
    ensures var after := ApplyAll(t, items, now, outcomes).rows;
            |t.rows| <= |after| && after[k] == t.rows[k]
  {
    if items != [] {
      var n := |items| - 1;
      OtherRowsStay(t, items[..n], now, outcomes, k);
      AllKeepFind(t, items[..n], now, outcomes, items[n].source.name);
      OtherRowStays(ApplyAll(t, items[..n], now, outcomes), items[n], now, k);
    }
  }

  // ----- the import itself -----

  datatype Action = WasUpdated | WasCreated | Failed

  datatype Report = Report(name: string, action: Action)

  datatype Loaded = Loaded(item: Prepared, existing: Option<Channel>)

  /** What was loaded in the preflight is still what is stored. */
  ghost predicate Fresh(t: Table, loaded: seq<Loaded>, i: nat) {
    forall j :: i <= j < |loaded| ==> loaded[j].existing == Lookup(t.rows, loaded[j].item.source.name)
  }

  ghost predicate Holds(loaded: seq<Loaded>, items: seq<Prepared>) {
    |loaded| == |items| && forall j :: 0 <= j < |items| ==> loaded[j].item == items[j]
  }

  ghost predicate PreparedUpTo(env: Environment, config: seq<Source>, loaded: seq<Loaded>) {
    |loaded| <= |config| && forall j :: 0 <= j < |loaded| ==> Prepare(env, config[j]) == Ok(loaded[j].item)
  }

  lemma PreparedNext(env: Environment, config: seq<Source>, loaded: seq<Loaded>, one: Loaded)
    requires PreparedUpTo(env, config, loaded) && |loaded| < |config|
    requires Prepare(env, config[|loaded|]) == Ok(one.item)
    ensures PreparedUpTo(env, config, loaded + [one])
  {
  }

  lemma PreparedAll(env: Environment, config: seq<Source>, loaded: seq<Loaded>)
    requires PreparedUpTo(env, config, loaded) && |loaded| == |config|
    ensures Passes(env, config) && Holds(loaded, Items(env, config))
  {
  }

  lemma FreshAppend(t: Table, loaded: seq<Loaded>, one: Loaded)
    requires Fresh(t, loaded, 0) && one.existing == Lookup(t.rows, one.item.source.name)
    ensures Fresh(t, loaded + [one], 0)
  {
  }

  lemma FreshNext(t: Table, loaded: seq<Loaded>, items: seq<Prepared>, i: nat, now: int)
    requires Holds(loaded, items) && Named(items) && i < |items| && Fresh(t, loaded, i)
    ensures Fresh(Step(t, items[i], now), loaded, i + 1)
  {
    forall j | i < j < |loaded|
      ensures loaded[j].existing == Lookup(Step(t, items[i], now).rows, loaded[j].item.source.name)
    {
      StepSpares(t, items[i], now, items[j].source.name);
    }
  }

  lemma ApplyNext(t: Table, items: seq<Prepared>, now: int, outcomes: nat -> Outcome, i: nat)
    requires i < |items|
    ensures ApplyAll(t, items[..i + 1], now, outcomes) ==
            StepUnless(ApplyAll(t, items[..i], now, outcomes), items[i], now, outcomes(i))
  {
    assert items[..i + 1][..i] == items[..i];
  }

  /** Writing what was loaded, whatever is stored by now. */
  function StepLoaded(t: Table, l: Loaded, now: int, outcome: Outcome): Table {
    if outcome.NotWritten? then t
    else match l.existing
      case Some(_) => t.(rows := SaveRow(t.rows, Write(l.existing, l.item, t.nextId, now)))
      case None => Table(t.rows + [Write(None, l.item, t.nextId, now)], t.nextId + 1)
  }

  function WriteLoaded(t: Table, loaded: seq<Loaded>, now: int, outcomes: nat -> Outcome): Table {
    if loaded == [] then t
    else
      var n := |loaded| - 1;
      StepLoaded(WriteLoaded(t, loaded[..n], now, outcomes), loaded[n], now, outcomes(n))
  }

  /** What the lookups of the preflight return. */
  function LoadAll(t: Table, items: seq<Prepared>): (loaded: seq<Loaded>)
    ensures Holds(loaded, items) && Fresh(t, loaded, 0)
  {
    seq(|items|, i requires 0 <= i < |items| => Loaded(items[i], Lookup(t.rows, items[i].source.name)))
  }

  lemma LoadAllIs(t: Table, loaded: seq<Loaded>, items: seq<Prepared>)
    requires Holds(loaded, items) && Fresh(t, loaded, 0)
    ensures loaded == LoadAll(t, items)
  {
    forall i | 0 <= i < |items|
      ensures loaded[i] == LoadAll(t, items)[i]
    {
      assert loaded[i].item == LoadAll(t, items)[i].item;
    }
  }

  lemma WriteNext(t: Table, loaded: seq<Loaded>, now: int, outcomes: nat -> Outcome, i: nat)
    requires i < |loaded|
    ensures WriteLoaded(t, loaded[..i + 1], now, outcomes) ==
            StepLoaded(WriteLoaded(t, loaded[..i], now, outcomes), loaded[i], now, outcomes(i))
  {
    assert loaded[..i + 1][..i] == loaded[..i];
  }

  lemma StepLoadedKeepsValid(t: Table, l: Loaded, now: int, outcome: Outcome)
    requires Valid(t)
    ensures Valid(StepLoaded(t, l, now, outcome))
  {
    var u := StepLoaded(t, l, now, outcome);
    assert forall i :: 0 <= i < |t.rows| ==> u.rows[i].id == t.rows[i].id;
  }

  /** A loaded copy that is current is written like a fresh lookup. */
  lemma StepLoadedIsStep(t: Table, l: Loaded, now: int, outcome: Outcome)
    requires Valid(t) && l.existing == Lookup(t.rows, l.item.source.name)
    ensures StepLoaded(t, l, now, outcome) == StepUnless(t, l.item, now, outcome)
  {
    if !outcome.NotWritten? && l.existing.Some? {
      SaveRowAt(t, Find(t.rows, l.item.source.name), Write(l.existing, l.item, t.nextId, now));
    }
  }

  /** Writing a current copy is the step, and the copies behind it stay current. */
  lemma FreshStep(t: Table, loaded: seq<Loaded>, items: seq<Prepared>, i: nat, now: int, outcome: Outcome)
    requires Valid(t) && Named(items) && Holds(loaded, items) && i < |items| && Fresh(t, loaded, i)
    ensures var after := StepUnless(t, items[i], now, outcome);
            StepLoaded(t, loaded[i], now, outcome) == after && Valid(after) && Fresh(after, loaded, i + 1)
  {
    StepLoadedIsStep(t, loaded[i], now, outcome);
    StepLoadedKeepsValid(t, loaded[i], now, outcome);
    FreshNext(t, loaded, items, i, now);
  }

  lemma {:induction false} WriteLoadedIsApplyAll(t: Table, items: seq<Prepared>, now: int, outcomes: nat -> Outcome,
                                                 n: nat)
    requires Valid(t) && Named(items) && n <= |items|
    ensures var after := ApplyAll(t, items[..n], now, outcomes);
            && WriteLoaded(t, LoadAll(t, items)[..n], now, outcomes) == after
            && Valid(after) && Fresh(after, LoadAll(t, items), n)
  {
    if n > 0 {
      var loaded := LoadAll(t, items);
      WriteLoadedIsApplyAll(t, items, now, outcomes, n - 1);
      WriteNext(t, loaded, now, outcomes, n - 1);
      ApplyNext(t, items, now, outcomes, n - 1);
      FreshStep(ApplyAll(t, items[..n - 1], now, outcomes), loaded, items, n - 1, now, outcomes(n - 1));
    }
  }

  // ----- other writers between lookup and write -----

  /** Others change the contents of the stored channels and may add some. */
  ghost predicate Changed(t: Table, u: Table) {
    |t.rows| <= |u.rows| && forall k :: 0 <= k < |t.rows| ==> u.rows[k].id == t.rows[k].id
  }

  /** Item i updates the row at position k. */
  predicate Updates(t: Table, items: seq<Prepared>, outcomes: nat -> Outcome, i: nat, k: nat) {
    i < |items| && Find(t.rows, items[i].source.name) == k && !outcomes(i).NotWritten?
  }

  lemma OtherIdSpared(t: Table, items: seq<Prepared>, i: nat, k: nat)
    requires Valid(t) && i < |items| && k < |t.rows| && Find(t.rows, items[i].source.name) != k
    ensures var l := LoadAll(t, items)[i]; l.existing.Some? ==> l.existing.value.id != t.rows[k].id
  {
    var j := Find(t.rows, items[i].source.name);
    assert j < k ==> t.rows[j].id < t.rows[k].id;
    assert k < j < |t.rows| ==> t.rows[k].id < t.rows[j].id;
  }

  lemma RowAfterWrite(t: Table, v: Table, items: seq<Prepared>, i: nat, now: int, outcomes: nat -> Outcome, k: nat)
    requires Valid(t) && i < |items| && k < |t.rows| && k < |v.rows| && v.rows[k].id == t.rows[k].id
    ensures var w := StepLoaded(v, LoadAll(t, items)[i], now, outcomes(i));
            && k < |w.rows|
            && w.rows[k] == if Updates(t, items, outcomes, i, k) then Updated(t, items, i, k) else v.rows[k]
  {
    if Find(t.rows, items[i].source.name) != k {
      OtherIdSpared(t, items, i, k);
    }
  }

  /** The loaded copy of a row, overwritten by an item. */
  function Updated(t: Table, items: seq<Prepared>, i: nat, k: nat): Channel
    requires i < |items| && k < |t.rows|
  {
    t.rows[k].(declared := Overlay(t.rows[k].declared, items[i]))
  }

  /** The row is there after n writes, under its id. */
  lemma {:induction false} RowStaysThere(t: Table, u: Table, items: seq<Prepared>, now: int,
                                         outcomes: nat -> Outcome, k: nat, n: nat)
    requires Valid(t) && Changed(t, u) && k < |t.rows| && n <= |items|
    ensures var v := WriteLoaded(u, LoadAll(t, items)[..n], now, outcomes);
            k < |v.rows| && v.rows[k].id == t.rows[k].id
  {
    if n > 0 {
      RowStaysThere(t, u, items, now, outcomes, k, n - 1);
      WriteNext(u, LoadAll(t, items), now, outcomes, n - 1);
      RowAfterWrite(t, WriteLoaded(u, LoadAll(t, items)[..n - 1], now, outcomes), items, n - 1, now, outcomes, k);
    }
  }

  /** The row at position k after n writes. */
  function RowAfter(t: Table, u: Table, items: seq<Prepared>, now: int, outcomes: nat -> Outcome, k: nat, n: nat)
    : Option<Channel>
    requires n <= |items|
  {
    var v := WriteLoaded(u, LoadAll(t, items)[..n], now, outcomes);
    if k < |v.rows| then Some(v.rows[k]) else None
  }

  lemma RowAfterNext(t: Table, u: Table, items: seq<Prepared>, now: int, outcomes: nat -> Outcome, k: nat, n: nat)
    requires Valid(t) && Changed(t, u) && k < |t.rows| && n < |items|
    ensures RowAfter(t, u, items, now, outcomes, k, n).Some?
    ensures RowAfter(t, u, items, now, outcomes, k, n + 1) ==
            if Updates(t, items, outcomes, n, k) then Some(Updated(t, items, n, k))
            else RowAfter(t, u, items, now, outcomes, k, n)
  {
    RowStaysThere(t, u, items, now, outcomes, k, n);
    WriteNext(u, LoadAll(t, items), now, outcomes, n);
    RowAfterWrite(t, WriteLoaded(u, LoadAll(t, items)[..n], now, outcomes), items, n, now, outcomes, k);
  }

  /** After the writes a row is what the others left, if no item updates it ... */
  lemma {:induction false} RowSpared(t: Table, u: Table, items: seq<Prepared>, now: int,
                                     outcomes: nat -> Outcome, k: nat, m: nat, n: nat)
    requires Valid(t) && Changed(t, u) && k < |t.rows| && m <= n <= |items|
    requires forall i :: m <= i < n ==> !Updates(t, items, outcomes, i, k)
    ensures RowAfter(t, u, items, now, outcomes, k, n) == RowAfter(t, u, items, now, outcomes, k, m)
    decreases n
  {
    if n > m {
      RowSpared(t, u, items, now, outcomes, k, m, n - 1);
      RowAfterNext(t, u, items, now, outcomes, k, n - 1);
    }
  }

  /** ... and its loaded copy overwritten, if one does. */
  lemma RowUpdated(t: Table, u: Table, items: seq<Prepared>, now: int, outcomes: nat -> Outcome, k: nat, i: nat)
    requires Valid(t) && Changed(t, u) && Named(items) && k < |t.rows| && Updates(t, items, outcomes, i, k)
    ensures RowAfter(t, u, items, now, outcomes, k, |items|) == Some(Updated(t, items, i, k))
  {
    RowAfterNext(t, u, items, now, outcomes, k, i);
    forall j | i + 1 <= j < |items|
      ensures !Updates(t, items, outcomes, j, k)
    {
      assert items[i].source.name != items[j].source.name;
    }
    RowSpared(t, u, items, now, outcomes, k, i + 1, |items|);
  }

  /** A change that another writer makes to a runtime field between the lookup and the
      write, a balance or a used quota, survives exactly when no item of the file
      updates the channel. */
  lemma ConcurrentChangeSurvivesIff(t: Table, u: Table, items: seq<Prepared>, now: int, outcomes: nat -> Outcome,
                                    k: nat)
    requires Valid(t) && Changed(t, u) && Named(items) && k < |t.rows| && u.rows[k].runtime != t.rows[k].runtime
    ensures var v := WriteLoaded(u, LoadAll(t, items), now, outcomes);
            k < |v.rows| &&
            (v.rows[k].runtime == u.rows[k].runtime <==>
             forall i :: 0 <= i < |items| ==> !Updates(t, items, outcomes, i, k))
  {
    assert LoadAll(t, items)[..|items|] == LoadAll(t, items);
    if i: nat :| i < |items| && Updates(t, items, outcomes, i, k) {
      RowUpdated(t, u, items, now, outcomes, k, i);
    } else {
      RowSpared(t, u, items, now, outcomes, k, 0, |items|);
      assert LoadAll(t, items)[..0] == [];
    }
  }

  class Importer {
    var table: Table

    /** The preflight loop: it only reads. */
    method Preflight(env: Environment, config: seq<Source>) returns (loaded: Result<seq<Loaded>, Refusal>)
      ensures loaded.Ok? <==> Passes(env, config)
      ensures loaded.Ok? ==> Holds(loaded.value, Items(env, config)) && Fresh(table, loaded.value, 0)
    {
      var prepared: seq<Loaded> := [];
      while |prepared| < |config|
        invariant PreparedUpTo(env, config, prepared) && Fresh(table, prepared, 0)
      {
        var one := LoadOne(env, config[|prepared|]);
        if one.Err? {
          return Err(one.error);
        }
        PreparedNext(env, config, prepared, one.value);
        FreshAppend(table, prepared, one.value);
        prepared := prepared + [one.value];
      }
      PreparedAll(env, config, prepared);
      return Ok(prepared);
    }

    /** One round of the loop: build, validate, resolve, look up. */
    method LoadOne(env: Environment, source: Source) returns (one: Result<Loaded, Refusal>)
      ensures one.Ok? ==> Prepare(env, source) == Ok(one.value.item)
      ensures one.Ok? ==> one.value.existing == Lookup(table.rows, one.value.item.source.name)
      ensures one.Err? ==> Prepare(env, source) == Err(one.error)
    {
      var item := Prepare(env, source);
      if item.Err? {
        return Err(item.error);
      }
      return Ok(Loaded(item.value, Lookup(table.rows, source.name)));
    }

    /** The write of one channel: its loaded copy, current or not, is overwritten and
        saved by id, or a new channel is created. */
    method WriteOne(loaded: Loaded, now: int, outcome: Outcome) returns (report: Report)
      requires Valid(table)
      modifies this
      ensures Valid(table) && table == StepLoaded(old(table), loaded, now, outcome)
      ensures report.name == loaded.item.source.name
      ensures report.action ==
        if !outcome.Written? then Failed else if loaded.existing.Some? then WasUpdated else WasCreated
    {
      var item := loaded.item;
      report := Report(item.source.name, if loaded.existing.Some? then WasUpdated else WasCreated);
      StepLoadedKeepsValid(table, loaded, now, outcome);
      if !outcome.NotWritten? {
        if loaded.existing.Some? {
          table := table.(rows := SaveRow(table.rows, Write(loaded.existing, item, table.nextId, now)));
        } else {
          table := Table(table.rows + [Write(None, item, table.nextId, now)], table.nextId + 1);
        }
      }
      if !outcome.Written? {
        report := report.(action := Failed);
      }
    }

    /** applyChannelConfig, with what other writers do to the stored channels between
        the lookups and the writes. A failed preflight writes nothing. After a good one
        the loaded copies are written; if nobody else wrote, the outcome is as if each
        channel had been looked up right before its write. */
    method Apply(env: Environment, config: seq<Source>, now: int, outcomes: nat -> Outcome, others: Table -> Table)
      returns (reports: Result<seq<Report>, Refusal>, failed: bool)
      requires Valid(table) && DistinctNames(config) && Valid(others(table))
      modifies this
      ensures reports.Ok? <==> Passes(env, config)
      ensures reports.Err? ==> table == old(table) && failed
      ensures reports.Ok? ==>
        && Valid(table)
        && table == WriteLoaded(others(old(table)), LoadAll(old(table), Items(env, config)), now, outcomes)
        && |reports.value| == |config| && Tells(reports.value, outcomes)
        && failed == SomeFailed(reports.value)
      ensures reports.Ok? && others(old(table)) == old(table) ==>
        table == ApplyAll(old(table), Items(env, config), now, outcomes)
    {
      var loaded := Preflight(env, config);
      if loaded.Err? {
        return Err(loaded.error), true;
      }
      ItemsAreNamed(env, config);
      ghost var items := Items(env, config);
      LoadAllIs(table, loaded.value, items);
      WriteLoadedIsApplyAll(table, items, now, outcomes, |items|);
      assert items[..|items|] == items && loaded.value[..|items|] == loaded.value;
      table := others(table);
      var channels;
      channels, failed := WriteAll(loaded.value, now, outcomes);
      reports := Ok(channels);
    }

    /** The second loop. */
    method WriteAll(loaded: seq<Loaded>, now: int, outcomes: nat -> Outcome)
      returns (channels: seq<Report>, failed: bool)
      requires Valid(table)
      modifies this
      ensures Valid(table) && table == WriteLoaded(old(table), loaded, now, outcomes)
      ensures |channels| == |loaded| && Tells(channels, outcomes) && failed == SomeFailed(channels)
    {
      channels, failed := [], false;
      ghost var t := table;
      var i := 0;
      while i < |loaded|
        invariant 0 <= i <= |loaded| && |channels| == i
        invariant Valid(table) && table == WriteLoaded(t, loaded[..i], now, outcomes)
        invariant Tells(channels, outcomes) && failed == SomeFailed(channels)
      {
        WriteNext(t, loaded, now, outcomes, i);
        var report := WriteOne(loaded[i], now, outcomes(i));
        TellsNext(channels, outcomes, report);
        failed := failed || report.action == Failed;
        channels := channels + [report];
        i := i + 1;
      }
      assert loaded[..i] == loaded;
    }
  }

  /** The reports name the writes that failed. */
  ghost predicate Tells(channels: seq<Report>, outcomes: nat -> Outcome) {
    forall i :: 0 <= i < |channels| ==> (channels[i].action == Failed <==> !outcomes(i).Written?)
  }

  predicate SomeFailed(channels: seq<Report>) {
    exists i :: 0 <= i < |channels| && channels[i].action == Failed
  }

  lemma TellsNext(channels: seq<Report>, outcomes: nat -> Outcome, report: Report)
    requires Tells(channels, outcomes) && (report.action == Failed <==> !outcomes(|channels|).Written?)
    ensures Tells(channels + [report], outcomes)
    ensures SomeFailed(channels + [report]) == (SomeFailed(channels) || report.action == Failed)
  {
    var more := channels + [report];
    assert more[|channels|] == report;
    assert forall i :: 0 <= i < |channels| ==> more[i] == channels[i];
  }

  // ----- patches -----

  /** What a write sets: Some where it sets a field, None where it leaves it. */
  datatype Patch = Patch(
    owned: Option<Owned>, priority: Option<int>, weight: Option<nat>, status: Option<int>, tag: Option<string>,
    remark: Option<string>, testModel: Option<string>, autoBan: Option<int>, other: Option<string>,
    modelMapping: Option<Option<string>>, setting: Option<string>, otherSettings: Option<string>)

  const NOTHING := Patch(None, None, None, None, None, None, None, None, None, None, None, None)

  /** What the column default does to a channel created with status 0. */
  const STATUS_ONE := NOTHING.(status := Some(ENABLED))

  function Or<T>(x: Option<T>, y: Option<T>): Option<T> {
    if x.Some? then x else y
  }

  function Else<T>(x: Option<T>, y: T): T {
    if x.Some? then x.value else y
  }

  function Patched(d: Declared, q: Patch): Declared {
    Declared(
      Else(q.owned, d.owned), Or(q.priority, d.priority), Or(q.weight, d.weight), Else(q.status, d.status),
      Or(q.tag, d.tag), Or(q.remark, d.remark), Or(q.testModel, d.testModel), Or(q.autoBan, d.autoBan),
      Else(q.other, d.other), Else(q.modelMapping, d.modelMapping), Or(q.setting, d.setting),
      Else(q.otherSettings, d.otherSettings))
  }

  /** First p, then q. */
  function Then(p: Patch, q: Patch): Patch {
    Patch(
      Or(q.owned, p.owned), Or(q.priority, p.priority), Or(q.weight, p.weight), Or(q.status, p.status),
      Or(q.tag, p.tag), Or(q.remark, p.remark), Or(q.testModel, p.testModel), Or(q.autoBan, p.autoBan),
      Or(q.other, p.other), Or(q.modelMapping, p.modelMapping), Or(q.setting, p.setting),
      Or(q.otherSettings, p.otherSettings))
  }

  function Given(s: string): Option<string> {
    if s != "" then Some(s) else None
  }

  function PatchOf(p: Prepared): Patch {
    var s, b := p.source, p.built;
    Patch(
      Some(b.owned), b.priority, b.weight, if s.status.Some? then Some(b.status) else None, b.tag, b.remark,
      b.testModel, b.autoBan, Given(b.other), if s.modelMapping.Some? then Some(b.modelMapping) else None,
      b.setting, Given(b.otherSettings))
  }

  lemma OverlayIsPatch(env: Environment, d: Declared, p: Prepared)
    requires SaysFile(env, p)
    ensures Overlay(d, p) == Patched(d, PatchOf(p))
  {
  }

  lemma PatchThenPatch(d: Declared, p: Patch, q: Patch)
    ensures Patched(Patched(d, p), q) == Patched(d, Then(p, q))
  {
  }

  ghost predicate Agree<T>(x: Option<T>, y: Option<T>) {
    x.Some? && y.Some? ==> x == y
  }

  /** Two patches that set no field differently. */
  ghost predicate Compatible(p: Patch, q: Patch) {
    && Agree(p.owned, q.owned) && Agree(p.priority, q.priority) && Agree(p.weight, q.weight)
    && Agree(p.status, q.status) && Agree(p.tag, q.tag) && Agree(p.remark, q.remark)
    && Agree(p.testModel, q.testModel) && Agree(p.autoBan, q.autoBan) && Agree(p.other, q.other)
    && Agree(p.modelMapping, q.modelMapping) && Agree(p.setting, q.setting)
    && Agree(p.otherSettings, q.otherSettings)
  }

  /** A row that has what p sets still has it after q exactly when the two agree. */
  lemma KeepsIff(d: Declared, p: Patch, q: Patch)
    requires Patched(d, p) == d
    ensures Patched(Patched(d, q), p) == Patched(d, q) <==> Compatible(p, q)
  {
    var e := Patched(d, q);
    assert Patched(e, p).owned == e.owned <==> Agree(p.owned, q.owned);
    assert Patched(e, p).priority == e.priority <==> Agree(p.priority, q.priority);
    assert Patched(e, p).weight == e.weight <==> Agree(p.weight, q.weight);
    assert Patched(e, p).status == e.status <==> Agree(p.status, q.status);
    assert Patched(e, p).tag == e.tag <==> Agree(p.tag, q.tag);
    assert Patched(e, p).remark == e.remark <==> Agree(p.remark, q.remark);
    assert Patched(e, p).testModel == e.testModel <==> Agree(p.testModel, q.testModel);
    assert Patched(e, p).autoBan == e.autoBan <==> Agree(p.autoBan, q.autoBan);
    assert Patched(e, p).other == e.other <==> Agree(p.other, q.other);
    assert Patched(e, p).modelMapping == e.modelMapping <==> Agree(p.modelMapping, q.modelMapping);
    assert Patched(e, p).setting == e.setting <==> Agree(p.setting, q.setting);
    assert Patched(e, p).otherSettings == e.otherSettings <==> Agree(p.otherSettings, q.otherSettings);
  }

  // ----- what was written since a content was applied -----

  /** Per name, the net effect of a series of writes. */
  type Net = map<string, Patch>

  function Effect(net: Net, name: string): Patch {
    if name in net then net[name] else NOTHING
  }

  function NetAfter(net: Net, items: seq<Prepared>, outcomes: nat -> Outcome): Net {
    if items == [] then net
    else
      var n := |items| - 1;
      var before, name := NetAfter(net, items[..n], outcomes), items[n].source.name;
      if outcomes(n).NotWritten? then before else before[name := Then(Effect(before, name), PatchOf(items[n]))]
  }

  /** The row of a name is the row d with the net effect on it. */
  ghost predicate Follows(t: Table, net: Net, name: string, d: Declared) {
    var found := Lookup(t.rows, name);
    found.Some? && found.value.declared == Patched(d, Effect(net, name))
  }

  lemma StepFollows(env: Environment, t: Table, p: Prepared, now: int, net: Net, name: string, d: Declared)
    requires SaysFile(env, p) && Follows(t, net, name, d)
    ensures Follows(Step(t, p, now), net[p.source.name := Then(Effect(net, p.source.name), PatchOf(p))], name, d)
  {
    if name == p.source.name {
      StepFinds(t, p, now);
      OverlayIsPatch(env, Lookup(t.rows, name).value.declared, p);
      PatchThenPatch(d, Effect(net, name), PatchOf(p));
    } else {
      StepSpares(t, p, now, name);
    }
  }

  lemma {:induction false} AllFollow(env: Environment, t: Table, items: seq<Prepared>, now: int,
                                     outcomes: nat -> Outcome, net: Net, name: string, d: Declared)
    requires AllSayFile(env, items) && Follows(t, net, name, d)
    ensures Follows(ApplyAll(t, items, now, outcomes), NetAfter(net, items, outcomes), name, d)
  {
    if items != [] {
      var n := |items| - 1;
      AllFollow(env, t, items[..n], now, outcomes, net, name, d);
      if !outcomes(n).NotWritten? {
        StepFollows(env, ApplyAll(t, items[..n], now, outcomes), items[n], now,
                    NetAfter(net, items[..n], outcomes), name, d);
      }
    }
  }

  // ----- the watcher -----

  /** The file as one tick reads it. */
  datatype File = Missing | Unreadable | Content(bytes: string)

  /** Parsing gives the channels, and refuses two of the same name. */
  type Parser = string -> Option<seq<Source>>

  ghost predicate Distinguishes(parse: Parser) {
    forall bytes :: parse(bytes).Some? ==> DistinctNames(parse(bytes).value)
  }

  datatype Sync = Sync(table: Table, applied: Option<string>)

  predicate Importable(env: Environment, parse: Parser, bytes: string) {
    parse(bytes).Some? && Passes(env, parse(bytes).value)
  }

  predicate Applies(env: Environment, parse: Parser, s: Sync, f: File) {
    f.Content? && s.applied != Some(f.bytes) && Importable(env, parse, f.bytes)
  }

  function ItemsOf(env: Environment, parse: Parser, bytes: string): seq<Prepared>
    requires Importable(env, parse, bytes)
  {
    Items(env, parse(bytes).value)
  }

  predicate AllGood(n: nat, outcomes: nat -> Outcome) {
    forall i :: 0 <= i < n ==> outcomes(i).Written?
  }

  /** syncChannelConfigFile on the table and the remembered content. */
  function Tick(env: Environment, parse: Parser, s: Sync, f: File, now: int, outcomes: nat -> Outcome): Sync {
    if Applies(env, parse, s, f) then
      var items := ItemsOf(env, parse, f.bytes);
      Sync(ApplyAll(s.table, items, now, outcomes), if AllGood(|items|, outcomes) then Some(f.bytes) else s.applied)
    else s
  }

  class Watcher {
    const importer: Importer
    var applied: Option<string>
    var logged: Option<string>

    constructor (importer: Importer)
      ensures this.importer == importer && applied == None && logged == None
    {
      this.importer := importer;
      applied, logged := None, None;
    }

    function State(): Sync
      reads this, importer
    {
      Sync(importer.table, applied)
    }

    /** A tick takes the state to the one Tick gives, and reports the failure of a
        content once, until a content is applied or another one fails. */
    method SyncFile(env: Environment, parse: Parser, f: File, now: int, outcomes: nat -> Outcome)
      returns (logs: bool)
      requires Valid(importer.table) && Distinguishes(parse)
      modifies this, importer
      ensures Valid(importer.table)
      ensures State() == Tick(env, parse, old(State()), f, now, outcomes)
      ensures logs ==> f.Content? && old(logged) != Some(f.bytes) && logged == Some(f.bytes)
      ensures f.Content? && applied == Some(f.bytes) && old(applied) != applied ==> logged == None && !logs
      ensures f.Content? && applied != Some(f.bytes) ==> logged == Some(f.bytes)
      ensures !f.Content? || old(applied) == Some(f.bytes) ==> logged == old(logged) && !logs
    {
      logs := false;
      if !f.Content? || applied == Some(f.bytes) {
        return;
      }
      var failed := true;
      var config := parse(f.bytes);
      if config.Some? {
        var reports;
        reports, failed := importer.Apply(env, config.value, now, outcomes, t => t);
        if reports.Ok? {
          FailedIffSome(reports.value, outcomes, |config.value|);
        }
      }
      if failed {
        if logged != Some(f.bytes) {
          logs := true;
          logged := Some(f.bytes);
        }
      } else {
        applied := Some(f.bytes);
        logged := None;
      }
    }
  }

  lemma FailedIffSome(channels: seq<Report>, outcomes: nat -> Outcome, n: nat)
    requires Tells(channels, outcomes) && |channels| == n
    ensures SomeFailed(channels) <==> !AllGood(n, outcomes)
  {
    if !AllGood(n, outcomes) {
      var i :| 0 <= i < n && !outcomes(i).Written?;
      assert channels[i].action == Failed;
    }
  }

  // ----- runs of ticks -----

  datatype TickInput = TickInput(file: File, now: int, outcomes: nat -> Outcome)

  /** The state, and per name the net effect of what was written since the remembered
      content was applied. */
  datatype Tracked = Tracked(sync: Sync, net: Net)

  /** The names of the channels a content creates with status 0. */
  function BornNames(t: Table, items: seq<Prepared>): set<string> {
    set i | 0 <= i < |items| && BornWithZero(t, items[i]) :: items[i].source.name
  }

  /** An applied content starts the record anew; a content that fails after some
      writes adds those writes to it. */
  function Record(env: Environment, parse: Parser, k: Tracked, i: TickInput): Net {
    if !Applies(env, parse, k.sync, i.file) then k.net
    else
      var items := ItemsOf(env, parse, i.file.bytes);
      if AllGood(|items|, i.outcomes) then map x | x in BornNames(k.sync.table, items) :: STATUS_ONE
      else NetAfter(k.net, items, i.outcomes)
  }

  function Track(env: Environment, parse: Parser, k: Tracked, i: TickInput): Tracked {
    Tracked(Tick(env, parse, k.sync, i.file, i.now, i.outcomes), Record(env, parse, k, i))
  }

  /** A run from a process start on any table. */
  function Run(env: Environment, parse: Parser, t: Table, ticks: seq<TickInput>): Tracked {
    if ticks == [] then Tracked(Sync(t, None), map[])
    else Track(env, parse, Run(env, parse, t, ticks[..|ticks| - 1]), ticks[|ticks| - 1])
  }

  /** A row as the content left it, with what came after. */
  ghost predicate ComesFrom(k: Tracked, p: Prepared) {
    exists d :: Overlay(d, p) == d && Follows(k.sync.table, k.net, p.source.name, d)
  }

  ghost predicate Remembers(env: Environment, parse: Parser, k: Tracked) {
    k.sync.applied.Some? ==>
      && Importable(env, parse, k.sync.applied.value)
      && forall p :: p in ItemsOf(env, parse, k.sync.applied.value) ==> ComesFrom(k, p)
  }

  lemma CreatedIsPatched(env: Environment, p: Prepared)
    requires SaysFile(env, p) && p.source.status == Some(0)
    ensures var d := Created(p.built).(status := 0);
            Overlay(d, p) == d && Patched(d, STATUS_ONE) == Created(p.built)
  {
  }

  lemma PatchNothing(d: Declared)
    ensures Patched(d, NOTHING) == d
  {
  }

  lemma GoodTickRecords(env: Environment, t: Table, items: seq<Prepared>, now: int, outcomes: nat -> Outcome, i: nat,
                        k: Tracked)
    requires Named(items) && AllSayFile(env, items) && AllGood(|items|, outcomes) && i < |items|
    requires k.sync.table == ApplyAll(t, items, now, outcomes)
    requires k.net == map x | x in BornNames(t, items) :: STATUS_ONE
    ensures ComesFrom(k, items[i])
  {
    var p, before := items[i], Lookup(t.rows, items[i].source.name);
    var _ := AppliedRow(t, items, now, outcomes, i);
    BornIff(t, items, i);
    if before.Some? {
      var d := Overlay(before.value.declared, p);
      OverlayTwice(before.value.declared, p);
      PatchNothing(d);
      assert Follows(k.sync.table, k.net, p.source.name, d);
    } else if p.source.status == Some(0) {
      CreatedIsPatched(env, p);
      assert Follows(k.sync.table, k.net, p.source.name, Created(p.built).(status := 0));
    } else {
      OverlayCreatedIff(env, p);
      PatchNothing(Created(p.built));
      assert Follows(k.sync.table, k.net, p.source.name, Created(p.built));
    }
  }

  lemma BornIff(t: Table, items: seq<Prepared>, i: nat)
    requires Named(items) && i < |items|
    ensures items[i].source.name in BornNames(t, items) <==> BornWithZero(t, items[i])
  {
  }

  lemma TickRemembers(env: Environment, parse: Parser, k: Tracked, i: TickInput)
    requires Distinguishes(parse) && Remembers(env, parse, k)
    ensures Remembers(env, parse, Track(env, parse, k, i))
  {
    if Applies(env, parse, k.sync, i.file) {
      var items := ItemsOf(env, parse, i.file.bytes);
      ItemsAreNamed(env, parse(i.file.bytes).value);
      var after := Track(env, parse, k, i);
      if AllGood(|items|, i.outcomes) {
        forall p | p in items
          ensures ComesFrom(after, p)
        {
          var j: nat :| j < |items| && items[j] == p;
          GoodTickRecords(env, k.sync.table, items, i.now, i.outcomes, j, after);
        }
      } else if k.sync.applied.Some? {
        forall p | p in ItemsOf(env, parse, k.sync.applied.value)
          ensures ComesFrom(after, p)
        {
          var d :| Overlay(d, p) == d && Follows(k.sync.table, k.net, p.source.name, d);
          AllFollow(env, k.sync.table, items, i.now, i.outcomes, k.net, p.source.name, d);
        }
      }
    }
  }

  lemma {:induction false} RunRemembers(env: Environment, parse: Parser, t: Table, ticks: seq<TickInput>)
    requires Distinguishes(parse)
    ensures Remembers(env, parse, Run(env, parse, t, ticks))
  {
    if ticks != [] {
      RunRemembers(env, parse, t, ticks[..|ticks| - 1]);
      TickRemembers(env, parse, Run(env, parse, t, ticks[..|ticks| - 1]), ticks[|ticks| - 1]);
    }
  }

  /** Over every run of ticks from every table: importing the remembered content again
      would change nothing, exactly when what was written since agrees with it. The
      net effect of those writes is known from the files, the outcomes and which
      channels were created with status 0. */
  lemma RememberedIsSettledIff(env: Environment, parse: Parser, t: Table, ticks: seq<TickInput>)
    requires Distinguishes(parse)
    ensures var k := Run(env, parse, t, ticks);
            k.sync.applied.Some? ==>
              && Importable(env, parse, k.sync.applied.value)
              && var items := ItemsOf(env, parse, k.sync.applied.value);
                 (Settled(k.sync.table, items) <==>
                  forall i :: 0 <= i < |items| ==> Compatible(PatchOf(items[i]), Effect(k.net, items[i].source.name)))
  {
    var k := Run(env, parse, t, ticks);
    RunRemembers(env, parse, t, ticks);
    if k.sync.applied.Some? {
      var items := ItemsOf(env, parse, k.sync.applied.value);
      ItemsAreNamed(env, parse(k.sync.applied.value).value);
      forall i | 0 <= i < |items|
        ensures RowSettled(k.sync.table, items[i]) <==>
                Compatible(PatchOf(items[i]), Effect(k.net, items[i].source.name))
      {
        RowSettledIff(env, k, items[i]);
      }
    }
  }

  lemma RowSettledIff(env: Environment, k: Tracked, p: Prepared)
    requires SaysFile(env, p) && ComesFrom(k, p)
    ensures RowSettled(k.sync.table, p) <==> Compatible(PatchOf(p), Effect(k.net, p.source.name))
  {
    var d :| Overlay(d, p) == d && Follows(k.sync.table, k.net, p.source.name, d);
    var q := Effect(k.net, p.source.name);
    OverlayIsPatch(env, d, p);
    OverlayIsPatch(env, Patched(d, q), p);
    KeepsIff(d, PatchOf(p), q);
  }

  /** A tick that writes a content whole or not at all, and asks for no status 0. */
  ghost predicate AllOrNothing(env: Environment, parse: Parser, i: TickInput) {
    i.file.Content? && Importable(env, parse, i.file.bytes) ==>
      var items := ItemsOf(env, parse, i.file.bytes);
      && (AllGood(|items|, i.outcomes) || forall j :: 0 <= j < |items| ==> i.outcomes(j).NotWritten?)
      && forall j :: 0 <= j < |items| ==> items[j].source.status != Some(0)
  }

  lemma {:induction false} NothingWritten(net: Net, items: seq<Prepared>, outcomes: nat -> Outcome)
    requires forall j :: 0 <= j < |items| ==> outcomes(j).NotWritten?
    ensures NetAfter(net, items, outcomes) == net
  {
    if items != [] {
      NothingWritten(net, items[..|items| - 1], outcomes);
    }
  }

  lemma {:induction false} NothingRecorded(env: Environment, parse: Parser, t: Table, ticks: seq<TickInput>)
    requires forall i :: 0 <= i < |ticks| ==> AllOrNothing(env, parse, ticks[i])
    ensures Run(env, parse, t, ticks).net == map[]
  {
    if ticks != [] {
      var before, i := Run(env, parse, t, ticks[..|ticks| - 1]), ticks[|ticks| - 1];
      NothingRecorded(env, parse, t, ticks[..|ticks| - 1]);
      assert AllOrNothing(env, parse, i);
      if Applies(env, parse, before.sync, i.file) {
        var items := ItemsOf(env, parse, i.file.bytes);
        if AllGood(|items|, i.outcomes) {
          assert BornNames(before.sync.table, items) == {};
        } else {
          NothingWritten(before.net, items, i.outcomes);
        }
      }
    }
  }

  /** In particular the table always is what the remembered content says as long as
      every content is written whole or not at all and none asks for status 0. */
  lemma AllOrNothingStaysSettled(env: Environment, parse: Parser, t: Table, ticks: seq<TickInput>)
    requires Distinguishes(parse)
    requires forall i :: 0 <= i < |ticks| ==> AllOrNothing(env, parse, ticks[i])
    ensures var k := Run(env, parse, t, ticks);
            k.sync.applied.Some? ==>
              && Importable(env, parse, k.sync.applied.value)
              && Settled(k.sync.table, ItemsOf(env, parse, k.sync.applied.value))
  {
    NothingRecorded(env, parse, t, ticks);
    RememberedIsSettledIff(env, parse, t, ticks);
  }

  // ----- drift -----

  lemma {:induction false} EffectOfOne(items: seq<Prepared>, outcomes: nat -> Outcome, net: Net, i: nat)
    requires Named(items) && i < |items| && !outcomes(i).NotWritten?
    requires items[i].source.name !in net
    ensures Effect(NetAfter(net, items, outcomes), items[i].source.name).owned == Some(items[i].built.owned)
  {
    if i < |items| - 1 {
      EffectOfOne(items[..|items| - 1], outcomes, net, i);
    }
  }

  /** A content A is applied and settled. Another content B fails after writing an
      entry that A declares too, with a different owned field, say another key. Then A
      comes back: it counts as unchanged, and the table is not what A says. */
  lemma PartialFailureDrifts(env: Environment, parse: Parser, s: Sync, a: string, b: string, now: int,
                             outcomes: nat -> Outcome, later: int, more: nat -> Outcome, i: nat, j: nat)
    requires Distinguishes(parse) && s.applied == Some(a) && a != b
    requires Importable(env, parse, a) && Settled(s.table, ItemsOf(env, parse, a))
    requires Importable(env, parse, b) && !AllGood(|ItemsOf(env, parse, b)|, outcomes)
    requires i < |ItemsOf(env, parse, a)| && j < |ItemsOf(env, parse, b)| && !outcomes(j).NotWritten?
    requires var p, q := ItemsOf(env, parse, a)[i], ItemsOf(env, parse, b)[j];
             p.source.name == q.source.name && p.built.owned != q.built.owned
    ensures var end := Tick(env, parse, Tick(env, parse, s, Content(b), now, outcomes), Content(a), later, more);
            end.applied == Some(a) && !Settled(end.table, ItemsOf(env, parse, a))
  {
    var mine, theirs := ItemsOf(env, parse, a), ItemsOf(env, parse, b);
    ItemsAreNamed(env, parse(a).value);
    ItemsAreNamed(env, parse(b).value);
    var p := mine[i];
    assert RowSettled(s.table, p);
    var d := Lookup(s.table.rows, p.source.name).value.declared;
    var none: Net := map[];
    PatchNothing(d);
    AllFollow(env, s.table, theirs, now, outcomes, none, p.source.name, d);
    EffectOfOne(theirs, outcomes, none, j);
    var end := Tracked(Tick(env, parse, s, Content(b), now, outcomes), NetAfter(none, theirs, outcomes));
    assert ComesFrom(end, p);
    RowSettledIff(env, end, p);
  }

  /** An omitted group does not stay: whatever it was, it becomes the default. */
  lemma OmittedGroupIsReset(env: Environment, t: Table, config: seq<Source>, now: int, outcomes: nat -> Outcome, i: nat)
    requires Passes(env, config) && DistinctNames(config) && i < |config| && !outcomes(i).NotWritten?
    requires Lookup(t.rows, config[i].name).Some? && config[i].group == ""
    requires Lookup(t.rows, config[i].name).value.declared.owned.group != "default"
    ensures var found := Lookup(ApplyAll(t, Items(env, config), now, outcomes).rows, config[i].name);
            found.Some? && found.value.declared.owned.group == "default"
  {
    ImportedFields(env, t, config, now, outcomes, i);
  }

  // ----- such drift exists -----

  /** An environment in which everything passes, and an entry with a name and a key. */
  function Permissive(): Environment {
    Environment(_ => "https://upstream", _ => Omitted, _ => true, (_, _) => Some(["m"]), _ => false)
  }

  function Entry(name: string, key: string): Source {
    Source(name, Some(1), "", [key], "", "", None, None, None, None, None, None, None, "", None,
           Omitted, Omitted, Omitted, Omitted)
  }

  lemma EntryPasses(name: string, key: string)
    ensures Passes(Permissive(), [Entry(name, key)])
    ensures Items(Permissive(), [Entry(name, key)])[0].built.owned.key == key
    ensures Items(Permissive(), [Entry(name, key)])[0].source == Entry(name, key)
  {
    assert Prepare(Permissive(), Entry(name, key)).Ok?;
  }

  /** For every name and every two keys: content A gives the channel one key and is
      imported into an empty table; content B gives it the other, and its write goes
      through without its abilities; then A comes back. */
  lemma DriftInstance(name: string, key: string, other: string, parse: Parser, a: string, b: string)
    requires key != other && a != b && Distinguishes(parse)
    requires parse(a) == Some([Entry(name, key)]) && parse(b) == Some([Entry(name, other)])
    ensures Importable(Permissive(), parse, a)
    ensures var env, items := Permissive(), ItemsOf(Permissive(), parse, a);
            var s := Sync(Import(Table([], 1), items, 0), Some(a));
            var failed := Tick(env, parse, s, Content(b), 0, _ => WrittenOnly);
            var end := Tick(env, parse, failed, Content(a), 0, _ => Written);
            Settled(s.table, items) && end.applied == Some(a) && !Settled(end.table, items)
  {
    var env := Permissive();
    EntryPasses(name, key);
    EntryPasses(name, other);
    var items := ItemsOf(env, parse, a);
    ItemsAreNamed(env, parse(a).value);
    SettledIff(env, Table([], 1), items, 0);
    var s := Sync(Import(Table([], 1), items, 0), Some(a));
    assert !AllGood(|ItemsOf(env, parse, b)|, _ => WrittenOnly) by {
      var outcomes: nat -> Outcome := _ => WrittenOnly;
      assert !outcomes(0).Written?;
    }
    PartialFailureDrifts(env, parse, s, a, b, 0, _ => WrittenOnly, 0, _ => Written, 0, 0);
  }
}
