/** Context-window overrides: one global table, validated against what every cached account that
    serves the model offers, and checked again for each account when it is used. Model names are
    taken as already trimmed. */
module ContextOverride {
  import opened Collections

  const MAX_WINDOW := 100_000_000

  datatype Tier = Tier(tokens: int, isDefault: bool)
  datatype Facts = Facts(tiers: seq<Tier>, length: Option<int>)
  datatype Model = Model(id: string, window: int)
  datatype Account = Account(models: seq<Model>, region: map<string, Facts>)

  datatype Status = MetadataFallback | Default | Unknown | Override | OverrideRejected
  datatype Effective = Effective(window: Option<int>, status: Status)

  type Accounts = map<string, Account>
  type Overrides = map<string, int>

  predicate InRange(tokens: int) {
    0 < tokens <= MAX_WINDOW
  }

  predicate Serves(a: Account, id: string) {
    exists m :: m in a.models && m.id == id
  }

  function TiersOf(a: Account, id: string): seq<Tier> {
    if id in a.region then a.region[id].tiers else []
  }

  predicate OffersTokens(tiers: seq<Tier>, v: int) {
    exists t :: t in tiers && t.tokens == v
  }

  predicate Offers(a: Account, id: string, v: int) {
    InRange(v) && OffersTokens(TiersOf(a, id), v)
  }

  predicate SomeoneServes(accounts: Accounts, id: string) {
    exists k :: k in accounts && Serves(accounts[k], id)
  }

  /** What every known account serving the model offers, when any serves it. */
  ghost predicate Common(accounts: Accounts, id: string, v: int) {
    SomeoneServes(accounts, id) && forall k | k in accounts && Serves(accounts[k], id) :: Offers(accounts[k], id, v)
  }

  // ----- the resolver

  function DefaultFrom(tiers: seq<Tier>, value: int): Option<int> {
    if tiers == [] then (if value > 0 then Some(value) else None)
    else
      var t := tiers[0];
      if !t.isDefault || !InRange(t.tokens) then DefaultFrom(tiers[1..], value)
      else if value != 0 && value != t.tokens then None
      else DefaultFrom(tiers[1..], t.tokens)
  }

  function OverrideFor(overrides: Overrides, id: string): Option<int> {
    if id != "" && id in overrides && overrides[id] > 0 then Some(overrides[id]) else None
  }

  function Resolve(raw: Facts, override: Option<int>): Effective {
    var own := ResolveOwn(raw);
    if override.None? then own
    else if OffersTokens(raw.tiers, override.value) then Effective(override, Override)
    else own.(status := OverrideRejected)
  }

  function ResolveOwn(raw: Facts): Effective {
    var tokens := DefaultFrom(raw.tiers, 0);
    if tokens.Some? then Effective(tokens, Default)
    else if |raw.tiers| > 0 || raw.length.None? || !InRange(raw.length.value) then Effective(None, Unknown)
    else Effective(raw.length, MetadataFallback)
  }

  /** How an account resolves a model: not at all when its catalogue has no facts for it. */
  function Resolved(a: Account, id: string, overrides: Overrides): Option<Effective> {
    if id in a.region then Some(Resolve(a.region[id], OverrideFor(overrides, id))) else None
  }

  /** The advertised window, 0 when unknown. */
  function Window(a: Account, id: string, overrides: Overrides): int {
    var e := Resolved(a, id, overrides);
    if e.Some? && e.value.window.Some? then e.value.window.value else 0
  }

  /** The max_input_tokens of a request body; None leaves the template's own value. */
  function RequestWindow(a: Account, id: string, overrides: Overrides): Option<int> {
    if a.models == [] || id == "" then None
    else
      var e := Resolved(a, id, overrides);
      if e.None? then None
      else if e.value.window.Some? && e.value.window.value > 0 then e.value.window
      else DefaultFrom(a.region[id].tiers, 0)
  }

  datatype Response =
    | Invalid(error: string)
    | NotCommon(options: seq<nat>)
    | Proposal(next: Overrides, options: seq<nat>)

  predicate Accepted(r: Response) {
    r.Proposal?
  }

  class Catalog {
    var accounts: Accounts
    var overrides: Overrides

    constructor (accounts: Accounts)
      ensures this.accounts == accounts && overrides == map[]
    {
      this.accounts, overrides := accounts, map[];
    }

    /** The intersection over the accounts that serve the model, in ascending order. */
    method SupportedTiers(id: string) returns (options: seq<nat>)
      ensures StrictlyAscending(options)
      ensures forall v: nat :: v in options <==> Common(accounts, id, v)
    {
      var common: Option<set<nat>> := None;
      var rest := accounts.Keys;
      while rest != {}
        invariant rest <= accounts.Keys
        invariant common.None? <==> forall k | k in accounts && k !in rest :: !Serves(accounts[k], id)
        invariant common.Some? ==>
          forall v: nat :: v in common.value <==> CommonOn(accounts, accounts.Keys - rest, id, v)
        decreases rest
      {
        var k :| k in rest;
        var entry := accounts[k];
        rest := rest - {k};
        var serves := false;
        for i := 0 to |entry.models|
          invariant serves <==> exists j :: 0 <= j < i && entry.models[j].id == id
        {
          if entry.models[i].id == id { serves := true; }
        }
        if serves {
          var offered: set<nat> := OfferedTokens(TiersOf(entry, id));
          common := Some(if common.None? then offered else common.value * offered);
        }
      }
      var found: set<nat> := if common.Some? then common.value else {};
      options := Ascending(found);
    }

    /** Validates a write without changing anything: the response only proposes a table. */
    method HandleWrite(id: string, value: Option<int>) returns (r: Response)
      ensures Accepted(r) <==> id != "" && (value.Some? ==> InRange(value.value) && Common(accounts, id, value.value))
      ensures Accepted(r) ==> r.next == Proposed(overrides, id, value)
      ensures r.NotCommon? ==> forall v: nat :: v in r.options <==> Common(accounts, id, v)
    {
      if id == "" { return Invalid("id is required"); }
      if value.Some? {
        if !InRange(value.value) { return Invalid("context_length is out of range"); }
        var tiers := SupportedTiers(id);
        if |tiers| == 0 { return Invalid("no context tiers reported"); }
        if value.value !in tiers { return NotCommon(tiers); }
      }
      var next := overrides;
      if value.None? {
        next := next - {id};
      } else {
        next := next[id := value.value];
      }
      var options := SupportedTiers(id);
      return Proposal(next, options);
    }

    /** The only commit path: a configuration snapshot replaces the table. */
    method Replace(next: Overrides)
      modifies this`overrides
      ensures overrides == Clean(next)
    {
      var clean: Overrides := map[];
      var rest := next.Keys;
      while rest != {}
        invariant rest <= next.Keys
        invariant clean == map k | k in next && k !in rest && k != "" && InRange(next[k]) :: next[k]
        decreases rest
      {
        var k :| k in rest;
        rest := rest - {k};
        if k != "" && InRange(next[k]) { clean := clean[k := next[k]]; }
      }
      overrides := clean;
    }

    method EffectiveModels(a: Account) returns (out: seq<Model>)
      ensures out == Advertised(a, overrides)
    {
      out := [];
      for i := 0 to |a.models|
        invariant out == Advertised(a, overrides)[..i]
      {
        out := out + [Model(a.models[i].id, Window(a, a.models[i].id, overrides))];
      }
    }

    /** The provider-wide catalogue: each model once, with the smallest window any account
        advertises for it. */
    method AllModels() returns (out: seq<Model>)
      ensures IsMinimum(out, Contributions(accounts, accounts.Keys, overrides))
    {
      out := [];
      var index: map<string, nat> := map[];
      var rest := accounts.Keys;
      while rest != {}
        invariant rest <= accounts.Keys && Indexes(index, out)
        invariant IsMinimum(out, Contributions(accounts, accounts.Keys - rest, overrides))
        decreases rest
      {
        var k :| k in rest;
        var models := EffectiveModels(accounts[k]);
        ghost var seen := Contributions(accounts, accounts.Keys - rest, overrides);
        out, index := MergeModels(out, index, models, seen);
        rest := rest - {k};
        ContributionsGrow(accounts, accounts.Keys - rest, k, overrides);
        assert accounts.Keys - rest - {k} == accounts.Keys - (rest + {k});
      }
    }
  }

  ghost predicate Indexes(index: map<string, nat>, out: seq<Model>) {
    && (forall i | 0 <= i < |out| :: out[i].id in index && index[out[i].id] == i)
    && (forall id | id in index :: index[id] < |out| && out[index[id]].id == id)
  }

  /** One entry for each model of a set, with its smallest window. */
  ghost predicate IsMinimum(out: seq<Model>, all: set<Model>) {
    && (forall i, j | 0 <= i < j < |out| :: out[i].id != out[j].id)
    && (forall m | m in out :: m in all)
    && (forall m | m in all :: Covered(out, m))
  }

  ghost predicate Covered(out: seq<Model>, m: Model) {
    exists i :: 0 <= i < |out| && out[i].id == m.id && out[i].window <= m.window
  }

  ghost function SetOf(models: seq<Model>): set<Model> {
    set m | m in models
  }

  ghost function Contributions(accounts: Accounts, keys: set<string>, overrides: Overrides): set<Model> {
    set k, m | k in keys && k in accounts && m in Advertised(accounts[k], overrides) :: m
  }

  lemma ContributionsGrow(accounts: Accounts, keys: set<string>, k: string, overrides: Overrides)
    requires k in keys && k in accounts
    ensures Contributions(accounts, keys, overrides)
      == Contributions(accounts, keys - {k}, overrides) + SetOf(Advertised(accounts[k], overrides))
  {
    hide Advertised;
  }

  method MergeModels(start: seq<Model>, startIndex: map<string, nat>, models: seq<Model>, ghost all: set<Model>)
    returns (out: seq<Model>, index: map<string, nat>)
    requires Indexes(startIndex, start) && IsMinimum(start, all)
    ensures Indexes(index, out) && IsMinimum(out, all + SetOf(models))
  {
    out, index := start, startIndex;
    assert all + SetOf(models[..0]) == all;
    for i := 0 to |models|
      invariant Indexes(index, out) && IsMinimum(out, all + SetOf(models[..i]))
    {
      var model := models[i];
      ghost var before, had := out, all + SetOf(models[..i]);
      if model.id in index {
        var at := index[model.id];
        if model.window < out[at].window { out := out[at := model]; }
      } else {
        index := index[model.id := |out|];
        out := out + [model];
      }
      StillMinimum(before, out, had, model);
      assert models[..i + 1] == models[..i] + [model];
      assert all + SetOf(models[..i + 1]) == had + {model};
    }
    assert models[..|models|] == models;
  }

  lemma StillMinimum(before: seq<Model>, out: seq<Model>, had: set<Model>, model: Model)
    requires IsMinimum(before, had)
    requires || (out == before && Covered(before, model))
             || (exists at :: 0 <= at < |before| && before[at].id == model.id && model.window < before[at].window
                               && out == before[at := model])
             || (out == before + [model] && forall i | 0 <= i < |before| :: before[i].id != model.id)
    ensures IsMinimum(out, had + {model})
  {
    forall m | m in had + {model} ensures Covered(out, m) {
      if m in had && !(out == before) {
        var i :| 0 <= i < |before| && before[i].id == m.id && before[i].window <= m.window;
        assert out[i].id == m.id && out[i].window <= m.window;
      } else if m == model && out != before {
        if |out| == |before| {
          var at :| 0 <= at < |before| && before[at].id == model.id && out == before[at := model];
          assert out[at] == model;
        } else {
          assert out[|before|] == model;
        }
      }
    }
  }

  ghost predicate CommonOn(accounts: Accounts, keys: set<string>, id: string, v: int) {
    forall k | k in keys && k in accounts && Serves(accounts[k], id) :: Offers(accounts[k], id, v)
  }

  method OfferedTokens(tiers: seq<Tier>) returns (offered: set<nat>)
    ensures forall v: nat :: v in offered <==> InRange(v) && OffersTokens(tiers, v)
  {
    offered := {};
    for i := 0 to |tiers|
      invariant forall v: nat :: v in offered <==> InRange(v) && exists j :: 0 <= j < i && tiers[j].tokens == v
    {
      if InRange(tiers[i].tokens) { offered := offered + {tiers[i].tokens}; }
    }
  }

  function Proposed(overrides: Overrides, id: string, value: Option<int>): Overrides {
    if value.None? then overrides - {id} else overrides[id := value.value]
  }

  function Clean(next: Overrides): Overrides {
    map k | k in next && k != "" && InRange(next[k]) :: next[k]
  }

  function Advertised(a: Account, overrides: Overrides): seq<Model> {
    seq(|a.models|, i requires 0 <= i < |a.models| => Model(a.models[i].id, Window(a, a.models[i].id, overrides)))
  }

  // ----- what the resolver promises

  predicate IsDefaultTier(t: Tier) {
    t.isDefault && InRange(t.tokens)
  }

  /** The default window is the one token count that every valid default tier agrees on. */
  lemma DefaultExactly(tiers: seq<Tier>, v: int)
    ensures DefaultFrom(tiers, 0) == Some(v) <==>
      && (exists t :: t in tiers && IsDefaultTier(t) && t.tokens == v)
      && forall t | t in tiers && IsDefaultTier(t) :: t.tokens == v
  {
    DefaultFromExactly(tiers, 0, v);
  }

  lemma {:induction false} DefaultFromExactly(tiers: seq<Tier>, value: int, v: int)
    requires value == 0 || InRange(value)
    ensures DefaultFrom(tiers, value) == Some(v) <==>
      ((value == v && v != 0) || exists t :: t in tiers && IsDefaultTier(t) && t.tokens == v)
      && (value != 0 ==> value == v) && forall t | t in tiers && IsDefaultTier(t) :: t.tokens == v
  {
    if tiers != [] {
      var t, rest := tiers[0], tiers[1..];
      assert tiers == [t] + rest;
      if !IsDefaultTier(t) {
        DefaultFromExactly(rest, value, v);
      } else if value == 0 || value == t.tokens {
        DefaultFromExactly(rest, t.tokens, v);
      }
    }
  }

  /** An override decides an account's window exactly when the account offers it; otherwise the
      window is what it would be without any override. */
  lemma OverrideOnlyWhereOffered(a: Account, id: string, overrides: Overrides)
    requires id in a.region
    ensures var e := Resolved(a, id, overrides).value;
      var wanted := OverrideFor(overrides, id);
      && (e.status == Override <==> wanted.Some? && OffersTokens(TiersOf(a, id), wanted.value))
      && (e.status == Override ==>
            Window(a, id, overrides) == wanted.value && RequestOk(a, id, overrides, wanted.value))
      && (e.status != Override ==>
            && Window(a, id, overrides) == Window(a, id, map[])
            && RequestWindow(a, id, overrides) == RequestWindow(a, id, map[]))
  {
  }

  /** The window an account advertises for a model, case by case: the override if the account has a
      tier of that size, else the one size of its valid default tiers, else its reported length when
      there are no tiers and it is in range, else unknown. */
  lemma WindowExactly(a: Account, id: string, overrides: Overrides, w: int)
    requires w > 0
    ensures Window(a, id, overrides) == w <==>
      && id in a.region
      && var tiers, length := a.region[id].tiers, a.region[id].length;
         if id != "" && id in overrides && overrides[id] > 0 && exists t :: t in tiers && t.tokens == overrides[id]
         then w == overrides[id]
         else if exists t :: t in tiers && t.isDefault && 0 < t.tokens <= 100_000_000
         then forall t | t in tiers && t.isDefault && 0 < t.tokens <= 100_000_000 :: t.tokens == w
         else tiers == [] && length == Some(w) && w <= 100_000_000
  {
    if id in a.region {
      DefaultWindow(a.region[id].tiers, w);
      hide DefaultFrom;
    }
  }

  /** The default window against the valid default tiers, in plain numbers. */
  lemma DefaultWindow(tiers: seq<Tier>, w: int)
    requires w > 0
    ensures var given := exists t :: t in tiers && t.isDefault && 0 < t.tokens <= 100_000_000;
      && (DefaultFrom(tiers, 0) == Some(w) <==>
            given && forall t | t in tiers && t.isDefault && 0 < t.tokens <= 100_000_000 :: t.tokens == w)
      && (DefaultFrom(tiers, 0).Some? ==> given && DefaultFrom(tiers, 0).value > 0)
  {
    DefaultExactly(tiers, w);
    if DefaultFrom(tiers, 0).Some? { DefaultExactly(tiers, DefaultFrom(tiers, 0).value); }
    hide DefaultFrom;
  }

  /** A request carries exactly the advertised window, and leaves the template's own value where that
      is unknown, where no catalogue is known, and where no model is named. */
  lemma RequestExactly(a: Account, id: string, overrides: Overrides)
    ensures RequestWindow(a, id, overrides)
      == if a.models != [] && id != "" && Window(a, id, overrides) > 0 then Some(Window(a, id, overrides)) else None
  {
    if id in a.region {
      var tiers := a.region[id].tiers;
      if DefaultFrom(tiers, 0).Some? { DefaultExactly(tiers, DefaultFrom(tiers, 0).value); }
      hide DefaultFrom;
    }
  }

  predicate RequestOk(a: Account, id: string, overrides: Overrides, v: int) {
    a.models != [] ==> RequestWindow(a, id, overrides) == Some(v)
  }

  /** No account ever uses another account's entitlement: its window is unknown, one of its own
      tiers, or its own reported length. */
  lemma WindowIsOwn(a: Account, id: string, overrides: Overrides)
    ensures var w := Window(a, id, overrides);
      w == 0 || OffersTokens(TiersOf(a, id), w) || (id in a.region && a.region[id].length == Some(w))
  {
    if id in a.region {
      var v := DefaultFrom(a.region[id].tiers, 0);
      if v.Some? { DefaultExactly(a.region[id].tiers, v.value); }
    }
  }

  /** The table after an accepted write was committed. */
  function Committed(overrides: Overrides, id: string, v: int): Overrides {
    Clean(Proposed(overrides, id, Some(v)))
  }

  ghost predicate EveryoneUses(accounts: Accounts, id: string, overrides: Overrides, v: int) {
    forall k | k in accounts && Serves(accounts[k], id) ::
      Resolved(accounts[k], id, overrides) == Some(Effective(Some(v), Override))
  }

  /** A window is accepted exactly when, once committed, every account serving the model resolves
      to it as an override, and some account serves it. */
  lemma AcceptedExactly(accounts: Accounts, id: string, v: int, overrides: Overrides)
    requires id != "" && InRange(v)
    ensures Common(accounts, id, v) <==>
      SomeoneServes(accounts, id) && EveryoneUses(accounts, id, Committed(overrides, id, v), v)
  {
    var table := Committed(overrides, id, v);
    assert OverrideFor(table, id) == Some(v);
    forall k | k in accounts
      ensures Offers(accounts[k], id, v) <==> Resolved(accounts[k], id, table) == Some(Effective(Some(v), Override))
    {
    }
  }

  /** Then its requests carry the window, and the provider-wide catalogue shows it. */
  lemma AcceptedIsUsed(accounts: Accounts, id: string, v: int, overrides: Overrides, out: seq<Model>)
    requires id != "" && Common(accounts, id, v)
    requires IsMinimum(out, Contributions(accounts, accounts.Keys, Committed(overrides, id, v)))
    ensures forall k | k in accounts && Serves(accounts[k], id) ::
      RequestWindow(accounts[k], id, Committed(overrides, id, v)) == Some(v)
    ensures Model(id, v) in out && forall m | m in out && m.id == id :: m.window == v
  {
    var k0 :| k0 in accounts && Serves(accounts[k0], id);
    AcceptedExactly(accounts, id, v, overrides);
    var table := Committed(overrides, id, v);
    assert InRange(v) by { assert Offers(accounts[k0], id, v); }
    forall k | k in accounts && Serves(accounts[k], id)
      ensures Window(accounts[k], id, table) == v && RequestWindow(accounts[k], id, table) == Some(v)
    {
      assert Resolved(accounts[k], id, table) == Some(Effective(Some(v), Override));
    }
    var all := Contributions(accounts, accounts.Keys, table);
    forall m | m in all && m.id == id ensures m.window == v {
      ContributedBy(accounts, table, m);
    }
    ServedContributes(accounts, table, k0, id);
    assert Covered(out, Model(id, Window(accounts[k0], id, table)));
    var i :| 0 <= i < |out| && out[i].id == id && out[i].window <= Window(accounts[k0], id, table);
    assert out[i] in out;
  }

  lemma ContributedBy(accounts: Accounts, overrides: Overrides, m: Model)
    requires m in Contributions(accounts, accounts.Keys, overrides)
    ensures exists k :: k in accounts && Serves(accounts[k], m.id) && m.window == Window(accounts[k], m.id, overrides)
  {
    var k :| k in accounts && m in Advertised(accounts[k], overrides);
    var i :| 0 <= i < |accounts[k].models| && Advertised(accounts[k], overrides)[i] == m;
    assert accounts[k].models[i] in accounts[k].models;
  }

  lemma ServedContributes(accounts: Accounts, overrides: Overrides, k: string, id: string)
    requires k in accounts && Serves(accounts[k], id)
    ensures Model(id, Window(accounts[k], id, overrides)) in Contributions(accounts, accounts.Keys, overrides)
  {
    var m :| m in accounts[k].models && m.id == id;
    var i :| 0 <= i < |accounts[k].models| && accounts[k].models[i] == m;
    var shown := Model(id, Window(accounts[k], id, overrides));
    assert Advertised(accounts[k], overrides)[i] == shown;
    assert shown in Advertised(accounts[k], overrides);
  }
}
