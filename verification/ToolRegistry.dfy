/** The tool registry: names and aliases under registration, and the pool assembled within a token budget. */
module ToolRegistry {
  import opened Prelude
  import opened StableSort

  datatype Tool = Tool(
    name: string, aliases: seq<string>, tags: seq<string>, alwaysLoad: bool, shouldDefer: bool, isReadOnly: bool,
    permissionLevel: string, description: string)

  /** The catalog in order of insertion, and the owners of the aliases. */
  datatype State = State(catalog: map<string, Tool>, order: seq<string>, aliases: map<string, string>)

  datatype Registration = Registered | NameTaken | AliasConflict(alias: string)

  // ----- Registration -----

  /** Adds aliases one by one up to the first that is taken; what was added before it stays. */
  function AddAliases(s: State, name: string, aliases: seq<string>): (r: (State, Registration))
    ensures !r.1.NameTaken?
    decreases |aliases|
  {
    if aliases == [] then (s, Registered)
    else if aliases[0] in s.aliases || aliases[0] in s.catalog then (s, AliasConflict(aliases[0]))
    else AddAliases(s.(aliases := s.aliases[aliases[0] := name]), name, aliases[1..])
  }

  function Register(s: State, tool: Tool): (State, Registration) {
    if tool.name in s.catalog then (s, NameTaken)
    else AddAliases(s.(catalog := s.catalog[tool.name := tool], order := s.order + [tool.name]), tool.name,
      tool.aliases)
  }

  function Without(order: seq<string>, name: string): seq<string> {
    Filtered(order, n => n != name)
  }

  function Names(aliases: seq<string>): set<string> {
    set i | 0 <= i < |aliases| :: aliases[i]
  }

  function Unregister(s: State, name: string): (State, bool) {
    if name !in s.catalog then (s, false)
    else
      (State(s.catalog - {name}, Without(s.order, name), s.aliases - Names(s.catalog[name].aliases)), true)
  }

  function Get(s: State, nameOrAlias: string): Option<Tool> {
    var canonical := if nameOrAlias in s.aliases then s.aliases[nameOrAlias] else nameOrAlias;
    if canonical in s.catalog then Some(s.catalog[canonical]) else None
  }

  function Empty(): State {
    State(map[], [], map[])
  }

  datatype Event = Add(tool: Tool) | Remove(name: string)

  function Next(s: State, e: Event): State {
    match e
    case Add(tool) => Register(s, tool).0
    case Remove(name) => Unregister(s, name).0
  }

  function Run(events: seq<Event>): State {
    if events == [] then Empty() else Next(Run(events[..|events| - 1]), events[|events| - 1])
  }

  // ----- Filtering and assembling -----

  datatype Filter = Filter(trustBalance: int, requiredTags: Option<seq<string>>, includeDeferred: bool)

  predicate PermissionAllowed(t: Tool, trustBalance: int) {
    t.isReadOnly || (t.permissionLevel == "read_metrics" ==> trustBalance >= -50)
  }

  predicate Passes(t: Tool, f: Filter) {
    && PermissionAllowed(t, f.trustBalance)
    && (f.requiredTags.Some? && f.requiredTags.value != [] ==>
          exists i :: 0 <= i < |f.requiredTags.value| && f.requiredTags.value[i] in t.tags)
    && (t.shouldDefer ==> f.includeDeferred)
  }

  function EstimateTokens(t: Tool): (r: nat)
    ensures 4 * (r - 50) - 4 < |t.name| + |t.description| <= 4 * (r - 50)
  {
    (|t.name| + |t.description| + 3) / 4 + 50
  }

  function Tokens(tools: seq<Tool>): nat {
    if tools == [] then 0 else Tokens(tools[..|tools| - 1]) + EstimateTokens(tools[|tools| - 1])
  }

  /** How many of the required tags the tool has. */
  function Score(required: seq<string>, t: Tool): nat {
    if required == [] then 0
    else Score(required[..|required| - 1], t) + if required[|required| - 1] in t.tags then 1 else 0
  }

  function Rank(f: Filter): Tool -> int {
    (t: Tool) => if f.requiredTags.Some? then -(Score(f.requiredTags.value, t) as int) else 0
  }

  /** Taking the optional tools in order, each that still fits beside what is used: the taken and the deferred ones. */
  function Greedy(used: nat, optional: seq<Tool>, budget: int): (seq<Tool>, seq<Tool>) {
    if optional == [] then ([], [])
    else
      var (taken, deferred) := Greedy(used, optional[..|optional| - 1], budget);
      var t := optional[|optional| - 1];
      if used + Tokens(taken) + EstimateTokens(t) <= budget then (taken + [t], deferred) else (taken, deferred + [t])
  }

  lemma NamesSnoc(aliases: seq<string>, i: nat)
    requires i < |aliases|
    ensures Names(aliases[..i + 1]) == Names(aliases[..i]) + {aliases[i]}
  {
    assert aliases[..i + 1][i] == aliases[i];
    forall n | n in Names(aliases[..i]) ensures n in Names(aliases[..i + 1]) {
      var k :| 0 <= k < i && aliases[..i][k] == n;
      assert aliases[..i + 1][k] == n;
    }
    forall n | n in Names(aliases[..i + 1]) ensures n in Names(aliases[..i]) + {aliases[i]} {
      var k :| 0 <= k < i + 1 && aliases[..i + 1][k] == n;
      assert k < i ==> aliases[..i][k] == n;
    }
  }

  /** The first n aliases of the tool were all free, and have been added for it. */
  ghost predicate Aliased(before: map<string, string>, catalog: map<string, Tool>, tool: Tool, n: nat,
      after: map<string, string>)
    requires n <= |tool.aliases|
  {
    && (forall a :: a in after <==> a in before || a in tool.aliases[..n])
    && (forall a :: a in after ==> after[a] == if a in before then before[a] else tool.name)
    && (forall i :: 0 <= i < n ==> tool.aliases[i] !in before && tool.aliases[i] !in catalog)
    && (forall i, j :: 0 <= i < j < n ==> tool.aliases[i] != tool.aliases[j])
  }

  lemma AliasedNext(before: map<string, string>, catalog: map<string, Tool>, tool: Tool, n: nat,
      after: map<string, string>)
    requires n < |tool.aliases| && Aliased(before, catalog, tool, n, after)
    requires tool.aliases[n] !in after && tool.aliases[n] !in catalog
    ensures Aliased(before, catalog, tool, n + 1, after[tool.aliases[n] := tool.name])
  {
    assert tool.aliases[..n + 1] == tool.aliases[..n] + [tool.aliases[n]];
    forall i | 0 <= i < n ensures tool.aliases[i] != tool.aliases[n] {
      assert tool.aliases[i] in tool.aliases[..n];
    }
  }

  class ToolRegistry {
    var baseCatalog: map<string, Tool>
    var order: seq<string>
    var aliasMap: map<string, string>

    constructor ()
      ensures S() == Empty()
    {
      baseCatalog, order, aliasMap := map[], [], map[];
    }

    ghost function S(): State
      reads this
    {
      State(baseCatalog, order, aliasMap)
    }

    /** A conflict throws half-way: the tool and its earlier aliases stay. */
    method RegisterTool(tool: Tool) returns (r: Registration)
      modifies this
      ensures (S(), r) == Register(old(S()), tool) && S() == Next(old(S()), Add(tool))
      ensures r == NameTaken <==> tool.name in old(baseCatalog)
      ensures r == NameTaken ==> S() == old(S())
      ensures r != NameTaken ==>
        && baseCatalog == old(baseCatalog)[tool.name := tool] && order == old(order) + [tool.name]
        && exists n :: 0 <= n <= |tool.aliases| && Aliased(old(aliasMap), baseCatalog, tool, n, aliasMap) &&
             if n == |tool.aliases| then r == Registered
             else r == AliasConflict(tool.aliases[n]) && (tool.aliases[n] in aliasMap || tool.aliases[n] in baseCatalog)
    {
      if tool.name in baseCatalog {
        return NameTaken;
      }
      baseCatalog := baseCatalog[tool.name := tool];
      order := order + [tool.name];
      ghost var s0 := S();
      assert tool.aliases[0..] == tool.aliases;
      for i := 0 to |tool.aliases|
        invariant AddAliases(S(), tool.name, tool.aliases[i..]) == AddAliases(s0, tool.name, tool.aliases)
        invariant baseCatalog == s0.catalog && order == s0.order
        invariant Aliased(old(aliasMap), baseCatalog, tool, i, aliasMap)
      {
        assert tool.aliases[i..][1..] == tool.aliases[i + 1..];
        var alias := tool.aliases[i];
        if alias in aliasMap || alias in baseCatalog {
          return AliasConflict(alias);
        }
        AliasedNext(old(aliasMap), baseCatalog, tool, i, aliasMap);
        aliasMap := aliasMap[alias := tool.name];
      }
      r := Registered;
    }

    method UnregisterTool(name: string) returns (removed: bool)
      modifies this
      ensures (S(), removed) == Unregister(old(S()), name) && S() == Next(old(S()), Remove(name))
      ensures removed <==> name in old(baseCatalog)
      ensures baseCatalog == old(baseCatalog) - {name}
      ensures order == if removed then Filtered(old(order), n => n != name) else old(order)
      ensures forall a :: a in aliasMap <==>
        a in old(aliasMap) && !(removed && a in old(baseCatalog)[name].aliases)
      ensures forall a :: a in aliasMap ==> aliasMap[a] == old(aliasMap)[a]
    {
      if name !in baseCatalog {
        return false;
      }
      var tool := baseCatalog[name];
      baseCatalog := baseCatalog - {name};
      order := Without(order, name);
      ghost var before := aliasMap;
      for i := 0 to |tool.aliases|
        invariant aliasMap == before - Names(tool.aliases[..i])
        invariant baseCatalog == old(baseCatalog) - {name} && order == Without(old(order), name)
      {
        NamesSnoc(tool.aliases, i);
        aliasMap := aliasMap - {tool.aliases[i]};
      }
      assert tool.aliases[..|tool.aliases|] == tool.aliases;
      removed := true;
    }
  }

  /** How many of the required tags the tool has; without required tags all tools are alike. */
  ghost function Relevance(f: Filter, t: Tool): nat {
    if f.requiredTags.None? then 0 else |Filtered(f.requiredTags.value, tag => tag in t.tags)|
  }

  lemma {:induction false} ScoreCounts(required: seq<string>, t: Tool)
    ensures Score(required, t) == |Filtered(required, tag => tag in t.tags)|
  {
    if required != [] {
      ScoreCounts(required[..|required| - 1], t);
    }
  }

  ghost predicate MostRelevantFirst(f: Filter, tools: seq<Tool>) {
    forall i, j :: 0 <= i < j < |tools| ==> Relevance(f, tools[i]) >= Relevance(f, tools[j])
  }

  lemma RankIsRelevance(f: Filter, tools: seq<Tool>)
    ensures SortedBy(tools, Rank(f)) ==> MostRelevantFirst(f, tools)
  {
    if SortedBy(tools, Rank(f)) {
      forall i, j | 0 <= i < j < |tools| ensures Relevance(f, tools[i]) >= Relevance(f, tools[j]) {
        if f.requiredTags.Some? {
          ScoreCounts(f.requiredTags.value, tools[i]);
          ScoreCounts(f.requiredTags.value, tools[j]);
        }
        assert Rank(f)(tools[i]) <= Rank(f)(tools[j]);
      }
    }
  }

  /**
   * The tool is offered unless it only may read metrics, not being read-only, and trust is below -50, or none of the
   * required tags is its own, or it is to be deferred and deferred tools are not asked for.
   */
  ghost predicate Offered(t: Tool, f: Filter) {
    && !(!t.isReadOnly && t.permissionLevel == "read_metrics" && f.trustBalance < -50)
    && !(f.requiredTags.Some? && f.requiredTags.value != [] &&
           forall tag :: tag in f.requiredTags.value ==> tag !in t.tags)
    && !(t.shouldDefer && !f.includeDeferred)
  }

  lemma PassesIffOffered(t: Tool, f: Filter)
    ensures Passes(t, f) <==> Offered(t, f)
  {
    if f.requiredTags.Some? {
      var tags := f.requiredTags.value;
      if tag :| tag in tags && tag in t.tags {
        var i :| 0 <= i < |tags| && tags[i] == tag;
      }
    }
  }

  /** Of every offered tool the pool and the deferred list hold as many as there are, and nothing else. */
  ghost predicate OfferedOnce(tools: seq<Tool>, f: Filter, included: seq<Tool>, deferred: seq<Tool>) {
    forall t :: (multiset(included) + multiset(deferred))[t] == if Offered(t, f) then multiset(tools)[t] else 0
  }

  lemma FilteredAreOffered(tools: seq<Tool>, f: Filter, included: seq<Tool>, deferred: seq<Tool>)
    requires multiset(included) + multiset(deferred) == multiset(Filtered(tools, t => Passes(t, f)))
    ensures OfferedOnce(tools, f, included, deferred)
  {
    forall t ensures (multiset(included) + multiset(deferred))[t] == if Offered(t, f) then multiset(tools)[t] else 0 {
      FilteredCounts(tools, (t: Tool) => Passes(t, f), t);
      PassesIffOffered(t, f);
    }
  }

  /**
   * Every filtered tool is in the pool or deferred, the always-loaded ones first; no deferred tool would fit in the
   * end; and of the others the more relevant come first.
   */
  ghost predicate IsPool(filtered: seq<Tool>, f: Filter, budget: int, included: seq<Tool>, deferred: seq<Tool>,
      used: nat) {
    var always := Filtered(filtered, (t: Tool) => t.alwaysLoad);
    && multiset(included) + multiset(deferred) == multiset(filtered)
    && used == Tokens(included)
    && used <= (if budget >= Tokens(always) then budget else Tokens(always))
    && always <= included
    && (forall t :: t in deferred ==> !t.alwaysLoad && used + EstimateTokens(t) > budget)
    && MostRelevantFirst(f, included[|always|..]) && MostRelevantFirst(f, deferred)
  }

  method Assemble(tools: seq<Tool>, f: Filter, tokenBudget: int)
    returns (included: seq<Tool>, deferred: seq<Tool>, usedTokens: nat)
    ensures var filtered := Filtered(tools, t => Passes(t, f));
      var always := Filtered(filtered, (t: Tool) => t.alwaysLoad);
      var sorted := Sort(Filtered(filtered, (t: Tool) => !t.alwaysLoad), Rank(f));
      && IsPool(filtered, f, tokenBudget, included, deferred, usedTokens)
      && OfferedOnce(tools, f, included, deferred)
      && (included[|always|..], deferred) == Greedy(Tokens(always), sorted, tokenBudget)
      && FirstThatFit(Tokens(always), sorted, tokenBudget, included[|always|..], deferred)
  {
    var filtered := Filtered(tools, t => Passes(t, f));
    var alwaysLoad := Filtered(filtered, (t: Tool) => t.alwaysLoad);
    var optional := Filtered(filtered, (t: Tool) => !t.alwaysLoad);
    included, usedTokens := [], 0;
    for i := 0 to |alwaysLoad|
      invariant included == alwaysLoad[..i] && usedTokens == Tokens(included)
    {
      TokensSnoc(included, alwaysLoad[i]);
      included := included + [alwaysLoad[i]];
      usedTokens := usedTokens + EstimateTokens(alwaysLoad[i]);
    }
    assert alwaysLoad[..|alwaysLoad|] == alwaysLoad;
    var taken;
    taken, deferred, usedTokens := TakeThatFit(Sort(optional, Rank(f)), usedTokens, tokenBudget);
    PoolIsRight(filtered, f, tokenBudget);
    FilteredAreOffered(tools, f, included + taken, deferred);
    assert (included + taken)[|alwaysLoad|..] == taken;
    included := included + taken;
  }

  method TakeThatFit(sorted: seq<Tool>, used: nat, tokenBudget: int)
    returns (taken: seq<Tool>, deferred: seq<Tool>, usedTokens: nat)
    ensures (taken, deferred) == Greedy(used, sorted, tokenBudget) && usedTokens == used + Tokens(taken)
    ensures FirstThatFit(used, sorted, tokenBudget, taken, deferred)
  {
    taken, deferred, usedTokens := [], [], used;
    for i := 0 to |sorted|
      invariant (taken, deferred) == Greedy(used, sorted[..i], tokenBudget) && usedTokens == used + Tokens(taken)
    {
      assert sorted[..i + 1][..i] == sorted[..i];
      var est := EstimateTokens(sorted[i]);
      TokensSnoc(taken, sorted[i]);
      if usedTokens + est <= tokenBudget {
        taken := taken + [sorted[i]];
        usedTokens := usedTokens + est;
      } else {
        deferred := deferred + [sorted[i]];
      }
    }
    assert sorted[..|sorted|] == sorted;
    ghost var counts := GreedyTakesInTurn(used, sorted, tokenBudget);
  }

  /** The pool and what is deferred make up the filtered tools, and nothing that is always loaded is deferred. */
  lemma PoolPartitions(filtered: seq<Tool>, sorted: seq<Tool>, always: seq<Tool>, taken: seq<Tool>, deferred: seq<Tool>)
    requires always == Filtered(filtered, (t: Tool) => t.alwaysLoad)
    requires multiset(sorted) == multiset(Filtered(filtered, (t: Tool) => !t.alwaysLoad))
    requires multiset(taken) + multiset(deferred) == multiset(sorted)
    ensures multiset(always + taken) + multiset(deferred) == multiset(filtered)
    ensures forall t :: t in deferred ==> !t.alwaysLoad
  {
    AlwaysSplits(filtered);
    forall t | t in deferred ensures !t.alwaysLoad {
      assert t in multiset(deferred);
      assert t in multiset(sorted);
      FilteredHolds(filtered, (t: Tool) => !t.alwaysLoad, t);
    }
  }

  lemma PoolIsRight(filtered: seq<Tool>, f: Filter, budget: int)
    ensures var always := Filtered(filtered, (t: Tool) => t.alwaysLoad);
      var sorted := Sort(Filtered(filtered, (t: Tool) => !t.alwaysLoad), Rank(f));
      var (taken, deferred) := Greedy(Tokens(always), sorted, budget);
      IsPool(filtered, f, budget, always + taken, deferred, Tokens(always) + Tokens(taken))
  {
    var always := Filtered(filtered, (t: Tool) => t.alwaysLoad);
    var optional := Filtered(filtered, (t: Tool) => !t.alwaysLoad);
    var sorted := Sort(optional, Rank(f));
    var (taken, deferred) := Greedy(Tokens(always), sorted, budget);
    SortIsStable(optional, Rank(f), 0);
    GreedyPartitions(Tokens(always), sorted, budget);
    PoolPartitions(filtered, sorted, always, taken, deferred);
    GreedyFits(Tokens(always), sorted, budget);
    GreedyKeepsOrder(Tokens(always), sorted, budget, Rank(f));
    RankIsRelevance(f, taken);
    RankIsRelevance(f, deferred);
    TokensConcat(always, taken);
    assert (always + taken)[|always|..] == taken;
  }

  lemma TokensSnoc(tools: seq<Tool>, t: Tool)
    ensures Tokens(tools + [t]) == Tokens(tools) + EstimateTokens(t)
  {
    assert (tools + [t])[..|tools|] == tools;
  }

  lemma AlwaysSplits(tools: seq<Tool>)
    ensures multiset(tools) ==
      multiset(Filtered(tools, (t: Tool) => t.alwaysLoad)) + multiset(Filtered(tools, (t: Tool) => !t.alwaysLoad))
  {
    var always, optional := Filtered(tools, (t: Tool) => t.alwaysLoad), Filtered(tools, (t: Tool) => !t.alwaysLoad);
    forall t ensures (multiset(always) + multiset(optional))[t] == multiset(tools)[t] {
      FilteredCounts(tools, (t: Tool) => t.alwaysLoad, t);
      FilteredCounts(tools, (t: Tool) => !t.alwaysLoad, t);
    }
  }

  lemma {:induction false} TokensConcat(xs: seq<Tool>, ys: seq<Tool>)
    ensures Tokens(xs + ys) == Tokens(xs) + Tokens(ys)
  {
    if ys == [] {
      assert xs + ys == xs;
    } else {
      var init, last := ys[..|ys| - 1], ys[|ys| - 1];
      calc {
        Tokens(xs + ys);
      == { assert xs + ys == xs + init + [last]; }
        Tokens(xs + init + [last]);
      == { TokensSnoc(xs + init, last); }
        Tokens(xs + init) + EstimateTokens(last);
      == { TokensConcat(xs, init); }
        Tokens(xs) + Tokens(ys);
      }
    }
  }

  lemma {:induction false} GreedyPartitions(used: nat, optional: seq<Tool>, budget: int)
    ensures var (taken, deferred) := Greedy(used, optional, budget);
      multiset(taken) + multiset(deferred) == multiset(optional)
  {
    if optional != [] {
      var init, t := optional[..|optional| - 1], optional[|optional| - 1];
      var (taken, deferred) := Greedy(used, init, budget);
      GreedyPartitions(used, init, budget);
      assert optional == init + [t];
      OneMorePartitioned(taken, deferred, init, t);
    }
  }

  /**
   * In the order offered each tool is taken if it fits beside those taken before it, else deferred; counts says how
   * many of the first ones are taken.
   */
  ghost predicate TakenInTurn(used: nat, offered: seq<Tool>, budget: int, taken: seq<Tool>, deferred: seq<Tool>,
      counts: seq<nat>) {
    && |counts| == |offered| + 1 && counts[0] == 0 && counts[|offered|] == |taken|
    && |taken| + |deferred| == |offered|
    && forall i :: 0 <= i < |offered| ==> TurnOf(used, offered, budget, taken, deferred, i, counts[i], counts[i + 1])
  }

  ghost predicate TurnOf(used: nat, offered: seq<Tool>, budget: int, taken: seq<Tool>, deferred: seq<Tool>, i: nat,
      before: nat, after: nat)
    requires i < |offered|
  {
    && before <= |taken|
    && if used + Tokens(taken[..before]) + EstimateTokens(offered[i]) <= budget then
         after == before + 1 && before < |taken| && taken[before] == offered[i]
       else after == before && 0 <= i - before < |deferred| && deferred[i - before] == offered[i]
  }

  ghost predicate FirstThatFit(used: nat, offered: seq<Tool>, budget: int, taken: seq<Tool>, deferred: seq<Tool>) {
    exists counts :: TakenInTurn(used, offered, budget, taken, deferred, counts)
  }

  lemma {:induction false} GreedyTakesInTurn(used: nat, offered: seq<Tool>, budget: int) returns (counts: seq<nat>)
    ensures var (taken, deferred) := Greedy(used, offered, budget);
      TakenInTurn(used, offered, budget, taken, deferred, counts)
  {
    counts := [0];
    if offered != [] {
      var n := |offered| - 1;
      var (taken', deferred') := Greedy(used, offered[..n], budget);
      var (taken, deferred) := Greedy(used, offered, budget);
      var before := GreedyTakesInTurn(used, offered[..n], budget);
      counts := before + [|taken|];
      forall i | 0 <= i < n ensures TurnOf(used, offered, budget, taken, deferred, i, counts[i], counts[i + 1]) {
        assert TurnOf(used, offered[..n], budget, taken', deferred', i, before[i], before[i + 1]);
        assert taken[..before[i]] == taken'[..before[i]];
      }
      assert taken[..|taken'|] == taken';
    }
  }

  lemma OneMorePartitioned(taken: seq<Tool>, deferred: seq<Tool>, offered: seq<Tool>, t: Tool)
    requires multiset(taken) + multiset(deferred) == multiset(offered)
    ensures multiset(taken + [t]) + multiset(deferred) == multiset(offered + [t])
    ensures multiset(taken) + multiset(deferred + [t]) == multiset(offered + [t])
  {
    MultisetSnoc(taken, t);
    MultisetSnoc(deferred, t);
    MultisetSnoc(offered, t);
  }

  /** What is taken keeps the budget beyond what was used before, and no deferred tool would fit in the end. */
  lemma {:induction false} GreedyFits(used: nat, optional: seq<Tool>, budget: int)
    ensures var (taken, deferred) := Greedy(used, optional, budget);
      && used + Tokens(taken) <= (if budget >= used then budget else used)
      && (forall t :: t in deferred ==> used + Tokens(taken) + EstimateTokens(t) > budget)
  {
    if optional != [] {
      GreedyFits(used, optional[..|optional| - 1], budget);
      TokensSnoc(Greedy(used, optional[..|optional| - 1], budget).0, optional[|optional| - 1]);
    }
  }

  /** The taken and the deferred tools are both in the order in which they were offered. */
  lemma {:induction false} GreedyKeepsOrder(used: nat, optional: seq<Tool>, budget: int, key: Tool -> int)
    requires SortedBy(optional, key)
    ensures var (taken, deferred) := Greedy(used, optional, budget);
      SortedBy(taken, key) && SortedBy(deferred, key)
  {
    if optional != [] {
      var init, t := optional[..|optional| - 1], optional[|optional| - 1];
      GreedyKeepsOrder(used, init, budget, key);
      var (taken, deferred) := Greedy(used, init, budget);
      GreedyPartitions(used, init, budget);
      forall x | x in taken || x in deferred ensures key(x) <= key(t) {
        assert x in multiset(taken) + multiset(deferred);
        assert x in init;
      }
      SortedSnoc(taken, t, key);
      SortedSnoc(deferred, t, key);
    }
  }

  // ----- Aliases over whole runs -----

  /** Every alias belongs to a registered tool that lists it, and the order lists the catalog. */
  ghost predicate Inv(s: State) {
    && (forall n :: n in s.catalog ==> s.catalog[n].name == n)
    && (forall a :: a in s.aliases ==> s.aliases[a] in s.catalog && a in Names(s.catalog[s.aliases[a]].aliases))
    && (forall n :: n in s.order <==> n in s.catalog)
  }

  lemma {:induction false} AddAliasesKeepsInv(s: State, name: string, aliases: seq<string>)
    requires Inv(s) && name in s.catalog
    requires forall i :: 0 <= i < |aliases| ==> aliases[i] in Names(s.catalog[name].aliases)
    ensures var (t, r) := AddAliases(s, name, aliases);
      Inv(t) && t.catalog == s.catalog && t.order == s.order
    decreases |aliases|
  {
    if aliases != [] && aliases[0] !in s.aliases && aliases[0] !in s.catalog {
      AddAliasesKeepsInv(s.(aliases := s.aliases[aliases[0] := name]), name, aliases[1..]);
    }
  }

  lemma WithoutName(order: seq<string>, name: string)
    ensures forall n :: n in Without(order, name) <==> n in order && n != name
  {
    forall n ensures n in Without(order, name) <==> n in order && n != name {
      FilteredHolds(order, (m: string) => m != name, n);
    }
  }

  lemma StepKeepsInv(s: State, e: Event)
    requires Inv(s)
    ensures Inv(Next(s, e))
  {
    match e
    case Add(tool) =>
      if tool.name !in s.catalog {
        AddAliasesKeepsInv(s.(catalog := s.catalog[tool.name := tool], order := s.order + [tool.name]), tool.name,
          tool.aliases);
      }
    case Remove(name) => WithoutName(s.order, name);
  }

  /**
   * In every run, registrations that throw half-way included, no alias dangles: looking it up finds a tool that lists
   * it.
   */
  lemma {:induction false} NoAliasDangles(events: seq<Event>)
    ensures var s := Run(events);
      && Inv(s)
      && forall a :: a in s.aliases ==> Get(s, a).Some? && a in Names(Get(s, a).value.aliases)
  {
    if events != [] {
      NoAliasDangles(events[..|events| - 1]);
      StepKeepsInv(Run(events[..|events| - 1]), events[|events| - 1]);
    }
  }

  lemma {:induction false} AddedAliases(s: State, name: string, aliases: seq<string>)
    ensures var (t, r) := AddAliases(s, name, aliases);
      r == Registered ==>
        && t.aliases - Names(aliases) == s.aliases && t.catalog == s.catalog && t.order == s.order
        && (forall a :: a in Names(aliases) ==>
              a !in s.aliases && a !in s.catalog && a in t.aliases && t.aliases[a] == name)
        && (forall a :: a in t.aliases && a !in Names(aliases) ==> a in s.aliases && t.aliases[a] == s.aliases[a])
        && (forall a :: a in s.aliases ==> a in t.aliases)
    decreases |aliases|
  {
    if aliases == [] {
      assert Names(aliases) == {};
      assert s.aliases - {} == s.aliases;
    } else if aliases[0] !in s.aliases && aliases[0] !in s.catalog {
      var s1 := s.(aliases := s.aliases[aliases[0] := name]);
      AddedAliases(s1, name, aliases[1..]);
      NamesCons(aliases);
      var (t, r) := AddAliases(s, name, aliases);
      if r == Registered {
        assert t.aliases - Names(aliases) == t.aliases - Names(aliases[1..]) - {aliases[0]};
        assert s1.aliases - {aliases[0]} == s.aliases;
      }
    }
  }

  lemma NamesCons(aliases: seq<string>)
    requires aliases != []
    ensures Names(aliases) == {aliases[0]} + Names(aliases[1..])
  {
    forall n | n in Names(aliases[1..]) ensures n in Names(aliases) {
      var k :| 0 <= k < |aliases| - 1 && aliases[1..][k] == n;
      assert aliases[k + 1] == n;
    }
    forall n | n in Names(aliases) ensures n in {aliases[0]} + Names(aliases[1..]) {
      var k :| 0 <= k < |aliases| && aliases[k] == n;
      assert k > 0 ==> aliases[1..][k - 1] == n;
    }
  }

  lemma {:induction false} WithoutAbsent(order: seq<string>, name: string)
    requires name !in order
    ensures Without(order, name) == order
  {
    if order != [] {
      WithoutAbsent(order[..|order| - 1], name);
      assert order == order[..|order| - 1] + [order[|order| - 1]];
    }
  }

  lemma WithoutLast(order: seq<string>, name: string)
    requires name !in order
    ensures Without(order + [name], name) == order
  {
    WithoutAbsent(order, name);
    assert (order + [name])[..|order|] == order;
  }

  /** Unregistering what was just registered without a conflict restores the whole registry. */
  lemma UnregisterUndoesRegister(events: seq<Event>, tool: Tool)
    requires Register(Run(events), tool).1 == Registered
    ensures Unregister(Register(Run(events), tool).0, tool.name) == (Run(events), true)
  {
    var s := Run(events);
    NoAliasDangles(events);
    var s1 := s.(catalog := s.catalog[tool.name := tool], order := s.order + [tool.name]);
    AddedAliases(s1, tool.name, tool.aliases);
    assert s1.catalog - {tool.name} == s.catalog;
    WithoutLast(s.order, tool.name);
  }

  /** Unregistering takes away no alias of another tool exactly when the tool lists none that another tool owns. */
  lemma UnregisterTakesOwnAliasesOnly(events: seq<Event>, name: string)
    requires name in Run(events).catalog
    ensures var s := Run(events); var t := Unregister(s, name).0;
      (forall a :: a in s.aliases && s.aliases[a] != name ==> a in t.aliases) <==>
      (forall a :: a in Names(s.catalog[name].aliases) && a in s.aliases ==> s.aliases[a] == name)
  {
  }

  /** No registration of the run has ended in an alias conflict. */
  predicate NoConflicts(events: seq<Event>) {
    events == [] ||
    (var init, e := events[..|events| - 1], events[|events| - 1];
     NoConflicts(init) && (e.Add? ==> !Register(Run(init), e.tool).1.AliasConflict?))
  }

  ghost predicate Owns(s: State, tool: Tool) {
    forall a :: a in Names(tool.aliases) ==> a in s.aliases && s.aliases[a] == tool.name
  }

  /** Every registered tool owns every alias that it lists. */
  ghost predicate OwnsAll(s: State) {
    forall n :: n in s.catalog ==> s.catalog[n].name == n && Owns(s, s.catalog[n])
  }

  lemma RegisterKeepsOwnership(s: State, tool: Tool)
    requires OwnsAll(s) && Register(s, tool).1 == Registered
    ensures OwnsAll(Register(s, tool).0)
  {
    var t := Register(s, tool).0;
    AddedAliases(s.(catalog := s.catalog[tool.name := tool], order := s.order + [tool.name]), tool.name, tool.aliases);
    forall n | n in t.catalog ensures t.catalog[n].name == n && Owns(t, t.catalog[n]) {
      if n != tool.name {
        assert t.catalog[n] == s.catalog[n] && Owns(s, s.catalog[n]);
      }
    }
  }

  lemma UnregisterTakesOwnOnly(s: State, name: string, a: string)
    requires OwnsAll(s) && a in s.aliases && s.aliases[a] != name
    ensures var t := Unregister(s, name).0; a in t.aliases && t.aliases[a] == s.aliases[a]
  {
    if name in s.catalog {
      assert Owns(s, s.catalog[name]);
    }
  }

  lemma UnregisterKeepsOwnership(s: State, name: string)
    requires OwnsAll(s)
    ensures OwnsAll(Unregister(s, name).0)
  {
    var t := Unregister(s, name).0;
    forall n | n in t.catalog ensures t.catalog[n].name == n && Owns(t, t.catalog[n]) {
      assert t.catalog[n] == s.catalog[n] && Owns(s, s.catalog[n]);
      forall a | a in Names(t.catalog[n].aliases) ensures a in t.aliases && t.aliases[a] == n {
        if n != name {
          UnregisterTakesOwnOnly(s, name, a);
        }
      }
    }
  }

  /**
   * While no registration ends in an alias conflict, every tool owns all its aliases, so that unregistering one never
   * takes an alias from another.
   */
  lemma {:induction false} CleanRunsKeepOwnership(events: seq<Event>)
    requires NoConflicts(events)
    ensures OwnsAll(Run(events))
    ensures forall name, a :: a in Run(events).aliases && Run(events).aliases[a] != name ==>
      a in Unregister(Run(events), name).0.aliases
  {
    if events != [] {
      var init, e := events[..|events| - 1], events[|events| - 1];
      CleanRunsKeepOwnership(init);
      match e
      case Add(tool) =>
        if Register(Run(init), tool).1 == Registered {
          RegisterKeepsOwnership(Run(init), tool);
        }
      case Remove(name) => UnregisterKeepsOwnership(Run(init), name);
    }
    forall name, a | a in Run(events).aliases && Run(events).aliases[a] != name
      ensures a in Unregister(Run(events), name).0.aliases
    {
      UnregisterTakesOwnOnly(Run(events), name, a);
    }
  }

  /** A registration that throws leaves its tool behind, and removing that tool takes the alias from its owner. */
  lemma FailedRegistrationStealsAlias()
    ensures var a := Tool("a", ["x"], [], false, false, true, "", "");
      var b := Tool("b", ["x"], [], false, false, true, "", "");
      var s := Run([Add(a), Add(b), Remove("b")]);
      && Register(Run([Add(a)]), b).1 == AliasConflict("x")
      && Get(Run([Add(a), Add(b)]), "x") == Some(a)
      && "a" in s.catalog && Get(s, "x") == None
  {
    var a, b := Tool("a", ["x"], [], false, false, true, "", ""), Tool("b", ["x"], [], false, false, true, "", "");
    TwoRegistered(a, b);
    var s2 := Run([Add(a), Add(b)]);
    RunSnoc([Add(a), Add(b)], Remove("b"));
    assert [Add(a), Add(b)] + [Remove("b")] == [Add(a), Add(b), Remove("b")];
    assert b.aliases[0] in Names(b.aliases);
    var s3 := Unregister(s2, "b").0;
    assert s3.catalog == s2.catalog - {"b"} && "x" !in s3.aliases;
  }

  lemma TwoRegistered(a: Tool, b: Tool)
    requires a == Tool("a", ["x"], [], false, false, true, "", "")
    requires b == Tool("b", ["x"], [], false, false, true, "", "")
    ensures Register(Run([Add(a)]), b).1 == AliasConflict("x")
    ensures Run([Add(a), Add(b)]) == State(map["a" := a, "b" := b], ["a", "b"], map["x" := "a"])
  {
    RunSnoc([], Add(a));
    RunSnoc([Add(a)], Add(b));
    assert [] + [Add(a)] == [Add(a)] && [Add(a)] + [Add(b)] == [Add(a), Add(b)];
    var s1 := Run([Add(a)]);
    RegisterOne(Empty(), a, "x");
    assert s1 == State(map["a" := a], ["a"], map["x" := "a"]);
    RegisterConflict(s1, b, "x");
    assert s1.catalog["b" := b] == map["a" := a, "b" := b] && s1.order + ["b"] == ["a", "b"];
  }

  /** A registered tool is found under its own name exactly when its name is not an alias of another tool. */
  lemma FoundByNameIffNotShadowed(events: seq<Event>, name: string)
    requires name in Run(events).catalog
    ensures var s := Run(events);
      Get(s, name) == Some(s.catalog[name]) <==> name !in s.aliases || s.aliases[name] == name
  {
    NoAliasDangles(events);
  }

  /**
   * Registering does not look at aliases for the name: a tool can be registered under another's alias and is then never
   * found.
   */
  lemma AliasShadowsLaterTool()
    ensures var a := Tool("a", ["x"], [], false, false, true, "", "");
      var x := Tool("x", [], [], false, false, true, "", "");
      var s := Run([Add(a), Add(x)]);
      Register(Run([Add(a)]), x).1 == Registered && "x" in s.catalog && Get(s, "x") == Some(a)
  {
    var a, x := Tool("a", ["x"], [], false, false, true, "", ""), Tool("x", [], [], false, false, true, "", "");
    assert [Add(a)][..0] == [] && [Add(a), Add(x)][..1] == [Add(a)];
    assert a.aliases[1..] == [];
    RegisterOne(Empty(), a, "x");
    assert Run([Add(a)]) == State(map["a" := a], ["a"], map["x" := "a"]);
  }

  lemma RunSnoc(events: seq<Event>, e: Event)
    ensures Run(events + [e]) == Next(Run(events), e)
  {
    assert (events + [e])[..|events|] == events;
  }

  lemma RegisterOne(s: State, tool: Tool, alias: string)
    requires tool.aliases == [alias] && tool.name !in s.catalog && alias != tool.name
    requires alias !in s.aliases && alias !in s.catalog
    ensures Register(s, tool) ==
      (State(s.catalog[tool.name := tool], s.order + [tool.name], s.aliases[alias := tool.name]), Registered)
  {
    var s1 := s.(catalog := s.catalog[tool.name := tool], order := s.order + [tool.name]);
    var s2 := s1.(aliases := s1.aliases[alias := tool.name]);
    assert tool.aliases[1..] == [];
    assert AddAliases(s2, tool.name, []) == (s2, Registered);
    assert AddAliases(s1, tool.name, tool.aliases) == AddAliases(s2, tool.name, tool.aliases[1..]);
  }

  lemma RegisterConflict(s: State, tool: Tool, alias: string)
    requires tool.aliases == [alias] && tool.name !in s.catalog && alias in s.aliases
    ensures Register(s, tool) == (s.(catalog := s.catalog[tool.name := tool], order := s.order + [tool.name]),
      AliasConflict(alias))
  {
  }
}
