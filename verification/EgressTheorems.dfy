/** The compiled route means the intended decision for every message, compiling its own output again
    changes nothing, and over any history foreign rules survive in order. */
module EgressTheorems {
  import opened Wrappers
  import opened IndexedList
  import opened Egress

  // --- the intended decision -----------------------------------------------------------------

  predicate Relays(config: Config, name: string) {
    exists i :: 0 <= i < |config.domains| && config.domains[i].name == name && config.domains[i].enabled
                && config.domains[i].relaying
  }

  /** The address is held here, or its local domain does not relay. */
  predicate StaysHere(config: Config, world: World, message: Message) {
    message.rcpt in world.held || (message.rcptDomain in world.localDomains && !Relays(config, message.rcptDomain))
  }

  /** The pool a domain's mail leaves through: its own, else its tenant's, else the cluster's, while the
      domain is enabled and the pool has an address. */
  predicate LeavesThrough(config: Config, domain: Domain, pool: string) {
    && domain.enabled && pool in config.populated
    && (|| domain.egressPool == Some(pool)
        || (domain.egressPool.None? && domain.tenant in config.tenantPools && config.tenantPools[domain.tenant] == pool)
        || (domain.egressPool.None? && domain.tenant !in config.tenantPools && config.clusterPool == Some(pool)))
  }

  /** The sender's domain leaves through a pool other than the cluster's. */
  predicate HasOwnRoute(config: Config, sender: string, pool: string) {
    && config.clusterPool != Some(pool)
    && exists i :: 0 <= i < |config.domains| && config.domains[i].name == sender
                   && LeavesThrough(config, config.domains[i], pool)
  }

  /** A rule with this target is none of Suite Cloud's. */
  predicate IsKept(target: Option<string>) {
    target.None? || (target.value != "'local'" && !(8 <= |target.value| && target.value[..8] == "'egress-"))
  }

  predicate Takes(rule: Rule, world: World, message: Message) {
    IsKept(rule.target) && Holds(rule.condition, world, message)
  }

  /** The first of the kept rules that holds gives the route, else the fallback. */
  predicate KeptRoute(rules: seq<Rule>, fallback: string, world: World, message: Message, route: Option<string>) {
    && ((forall i | 0 <= i < |rules| :: !Takes(rules[i], world, message)) ==> route == Some(fallback))
    && forall i | 0 <= i < |rules| && Takes(rules[i], world, message)
                  && (forall j | 0 <= j < i :: !Takes(rules[j], world, message)) :: route == rules[i].target
  }

  predicate HasDefault(config: Config) {
    config.clusterPool.Some? && config.clusterPool.value in config.populated
  }

  /** What the strategy falls back on: the default pool's route, a fallback that is no pool's, else direct
      delivery. */
  function FallbackFor(otherwise: Option<string>, config: Config): string {
    if HasDefault(config) then "'egress-" + config.clusterPool.value + "'" else OwnFallback(otherwise)
  }

  function OwnFallback(otherwise: Option<string>): string {
    match otherwise
    case None => "'mx'"
    case Some(target) =>
      if target == "" || (8 <= |target| && target[..8] == "'egress-") then "'mx'" else target
  }

  /** The decision on the records and the rules the strategy held. */
  predicate IsIntended(config: Config, rules: seq<Rule>, otherwise: Option<string>, world: World, message: Message,
                       route: Option<string>)
  {
    if StaysHere(config, world, message) then route == Some("'local'")
    else
      && (forall pool | pool in config.populated && HasOwnRoute(config, message.senderDomain, pool) ::
            route == Some("'egress-" + pool + "'"))
      && ((forall pool | pool in config.populated :: !HasOwnRoute(config, message.senderDomain, pool)) ==>
            KeptRoute(rules, FallbackFor(otherwise, config), world, message, route))
  }

  /** The sender domain's populated pool, when it is not the default one. */
  function SenderPool(config: Config, domains: seq<Domain>, sender: string): Option<string> {
    if domains == [] then None
    else if domains[0].name == sender then
      var pool := LivePool(config, domains[0]);
      if pool == DefaultPool(config) then None else pool
    else SenderPool(config, domains[1..], sender)
  }

  /** What the compiled rules decide. */
  function Decided(config: Config, foreign: seq<Rule>, fallback: string, world: World,
      message: Message): Option<string> {
    if StaysHere(config, world, message) then Some(LOCAL)
    else
      match SenderPool(config, config.domains, message.senderDomain)
      case Some(pool) => Some(RouteName(pool))
      case None => Route(foreign, Some(fallback), world, message)
  }

  lemma LivePoolIs(config: Config, domain: Domain, pool: string)
    ensures LivePool(config, domain) == Some(pool) <==> LeavesThrough(config, domain, pool)
  {
  }

  lemma {:induction false} SenderPoolIs(config: Config, domains: seq<Domain>, sender: string, pool: string)
    requires UniqueNames(domains)
    ensures SenderPool(config, domains, sender) == Some(pool) <==>
            && config.clusterPool != Some(pool)
            && exists i :: 0 <= i < |domains| && domains[i].name == sender && LeavesThrough(config, domains[i], pool)
    decreases |domains|
  {
    hide LeavesThrough;
    if domains != [] {
      LivePoolIs(config, domains[0], pool);
      assert forall i | 1 <= i < |domains| :: domains[i] == domains[1..][i - 1];
      if domains[0].name != sender {
        SenderPoolIs(config, domains[1..], sender, pool);
        if i :| 0 <= i < |domains| && domains[i].name == sender && LeavesThrough(config, domains[i], pool) {
          assert domains[1..][i - 1] == domains[i];
        }
      } else {
        LivePoolIsPopulated(config, domains[0]);
      }
    }
  }

  lemma LivePoolIsPopulated(config: Config, domain: Domain)
    ensures LivePool(config, domain).Some? ==>
              (LivePool(config, domain) == DefaultPool(config) <==> config.clusterPool == LivePool(config, domain))
  {
  }

  lemma FallbackIs(otherwise: Option<string>, config: Config)
    ensures Fallback(otherwise, DefaultPool(config)) == FallbackFor(otherwise, config)
    ensures Fallback(otherwise, None) == OwnFallback(otherwise)
    ensures DefaultPool(config).Some? <==> HasDefault(config)
    ensures HasDefault(config) ==> DefaultPool(config) == config.clusterPool
  {
  }

  lemma ForeignIsKept(rule: Rule)
    ensures IsForeign(rule) <==> IsKept(rule.target)
  {
  }

  lemma {:induction false} KeptRouteIs(rules: seq<Rule>, fallback: string, world: World, message: Message)
    ensures KeptRoute(rules, fallback, world, message, Route(ForeignRules(rules), Some(fallback), world, message))
    decreases |rules|
  {
    hide IsForeign, IsKept, Holds;
    if rules != [] {
      KeptRouteIs(rules[1..], fallback, world, message);
      ForeignIsKept(rules[0]);
      var route := Route(ForeignRules(rules), Some(fallback), world, message);
      assert forall i | 1 <= i < |rules| :: rules[i] == rules[1..][i - 1];
      if IsForeign(rules[0]) {
        assert ForeignRules(rules)[0] == rules[0] && ForeignRules(rules)[1..] == ForeignRules(rules[1..]);
      } else {
        assert ForeignRules(rules) == ForeignRules(rules[1..]);
      }
      if !Takes(rules[0], world, message) {
        KeptRouteMore(rules, fallback, world, message, route);
      }
    }
  }

  lemma KeptRouteMore(rules: seq<Rule>, fallback: string, world: World, message: Message, route: Option<string>)
    requires rules != [] && !Takes(rules[0], world, message)
    requires KeptRoute(rules[1..], fallback, world, message, route)
    ensures KeptRoute(rules, fallback, world, message, route)
  {
    hide Takes;
    var rest := rules[1..];
    assert forall i | 0 <= i < |rest| :: rest[i] == rules[i + 1];
    forall i | 0 <= i < |rules| && Takes(rules[i], world, message)
               && (forall j | 0 <= j < i :: !Takes(rules[j], world, message))
      ensures route == rules[i].target
    {
      assert rest[i - 1] == rules[i];
      forall j | 0 <= j < i - 1 ensures !Takes(rest[j], world, message) {
        assert rest[j] == rules[j + 1];
      }
    }
    if forall i | 0 <= i < |rules| :: !Takes(rules[i], world, message) {
      forall i | 0 <= i < |rest| ensures !Takes(rest[i], world, message) {
        assert rest[i] == rules[i + 1];
      }
    }
  }

  // --- parts ---------------------------------------------------------------------------------

  lemma {:induction false} RouteAppend(a: seq<Rule>, b: seq<Rule>, otherwise: Option<string>, world: World,
                                       message: Message)
    ensures Route(a + b, otherwise, world, message) ==
            if exists i :: 0 <= i < |a| && Holds(a[i].condition, world, message)
            then Route(a, otherwise, world, message) else Route(b, otherwise, world, message)
    decreases |a|
  {
    if a == [] {
      assert a + b == b;
    } else {
      assert (a + b)[1..] == a[1..] + b;
      RouteAppend(a[1..], b, otherwise, world, message);
      if !Holds(a[0].condition, world, message) {
        if i :| 0 <= i < |a| && Holds(a[i].condition, world, message) {
          assert a[1..][i - 1] == a[i];
        }
      }
    }
  }

  lemma {:induction false} RelayingListed(config: Config, domains: seq<Domain>, name: string)
    ensures name in RelayingDomains(domains) <==>
            exists i :: 0 <= i < |domains| && domains[i].name == name && domains[i].enabled && domains[i].relaying
    decreases |domains|
  {
    if domains != [] {
      RelayingListed(config, domains[1..], name);
      if i :| 0 <= i < |domains| && domains[i].name == name && domains[i].enabled && domains[i].relaying {
        if i > 0 {
          assert domains[1..][i - 1] == domains[i];
        }
      }
      if name in RelayingDomains(domains[1..]) {
        var i :| 0 <= i < |domains[1..]| && domains[1..][i].name == name && domains[1..][i].enabled
                 && domains[1..][i].relaying;
        assert domains[i + 1] == domains[1..][i];
      }
    }
  }

  /** The local rules take a message exactly when it stays here; a held address is in a local domain. */
  lemma LocalRulesMean(config: Config, otherwise: Option<string>, world: World, message: Message)
    requires message.rcpt in world.held ==> message.rcptDomain in world.localDomains
    ensures var rules := LocalRules(RelayingDomains(config.domains));
            && (StaysHere(config, world, message) <==>
                  exists i :: 0 <= i < |rules| && Holds(rules[i].condition, world, message))
            && (StaysHere(config, world, message) ==> Route(rules, otherwise, world, message) == Some(LOCAL))
  {
    var relaying := RelayingDomains(config.domains);
    var rules := LocalRules(relaying);
    RelayingListed(config, config.domains, message.rcptDomain);
    if relaying == [] {
      assert Holds(rules[0].condition, world, message) <==> message.rcptDomain in world.localDomains;
    } else {
      assert Holds(rules[0].condition, world, message) <==> message.rcpt in world.held;
      var conditions := [IsLocalDomain] + HeldElsewhere(relaying);
      assert rules[1].condition == All(conditions);
      assert Holds(conditions[0], world, message) <==> message.rcptDomain in world.localDomains;
      forall i | 0 <= i < |relaying|
        ensures Holds(conditions[i + 1], world, message) <==> relaying[i] != message.rcptDomain
      {
        assert conditions[i + 1] == RcptDomainIsNot(relaying[i]);
      }
      if message.rcptDomain in relaying {
        var i :| 0 <= i < |relaying| && relaying[i] == message.rcptDomain;
        assert !Holds(conditions[i + 1], world, message);
      } else {
        assert forall i | 1 <= i < |conditions| :: conditions[i] == RcptDomainIsNot(relaying[i - 1]);
      }
    }
  }

  // --- grouping ------------------------------------------------------------------------------

  /** The pool a name is listed under, first group first. */
  function PoolOf(grouped: Grouped, name: string): Option<string> {
    if grouped == [] then None
    else if name in grouped[0].1 then Some(grouped[0].0)
    else PoolOf(grouped[1..], name)
  }

  predicate HasPool(grouped: Grouped, pool: string) {
    grouped != [] && (grouped[0].0 == pool || HasPool(grouped[1..], pool))
  }

  /** Pools are distinct, and a name is under one pool only. */
  predicate WellGrouped(grouped: Grouped) {
    grouped == [] ||
    (&& WellGrouped(grouped[1..])
     && !HasPool(grouped[1..], grouped[0].0)
     && forall name | name in grouped[0].1 :: PoolOf(grouped[1..], name).None?)
  }

  lemma {:induction false} AddToGroups(grouped: Grouped, pool: string, name: string)
    requires WellGrouped(grouped) && PoolOf(grouped, name).None?
    ensures var after := AddTo(grouped, pool, name);
            && WellGrouped(after)
            && PoolOf(after, name) == Some(pool)
            && (forall other | other != name :: PoolOf(after, other) == PoolOf(grouped, other))
            && (forall other | other != pool :: HasPool(after, other) == HasPool(grouped, other))
    decreases |grouped|
  {
    if grouped != [] && grouped[0].0 != pool {
      AddToGroups(grouped[1..], pool, name);
      var rest := AddTo(grouped[1..], pool, name);
      assert AddTo(grouped, pool, name)[1..] == rest;
      forall n | n in grouped[0].1 ensures PoolOf(rest, n).None? {
        assert n != name;
      }
    } else if grouped != [] {
      var after := AddTo(grouped, pool, name);
      assert after[1..] == grouped[1..] && after[0] == (pool, grouped[0].1 + [name]);
      forall n | n in after[0].1 ensures PoolOf(after[1..], n).None? {
        assert n in grouped[0].1 || n == name;
      }
    } else {
      assert AddTo(grouped, pool, name)[1..] == [];
    }
  }

  function Listing(config: Config, domains: seq<Domain>, name: string): Option<string> {
    if domains == [] then None
    else if domains[0].name == name then LivePool(config, domains[0])
    else Listing(config, domains[1..], name)
  }

  lemma {:induction false} GroupFromGroups(config: Config, domains: seq<Domain>, grouped: Grouped)
    requires WellGrouped(grouped) && UniqueNames(domains)
    requires forall i | 0 <= i < |domains| :: PoolOf(grouped, domains[i].name).None?
    ensures var after := GroupFrom(config, domains, grouped);
            && WellGrouped(after)
            && forall name :: PoolOf(after, name) ==
                 if Listing(config, domains, name).Some? then Listing(config, domains, name) else PoolOf(grouped, name)
    decreases |domains|
  {
    if domains != [] {
      var name := domains[0].name;
      var pool := LivePool(config, domains[0]);
      forall i | 0 <= i < |domains[1..]| ensures domains[1..][i].name != name {
        assert domains[1..][i] == domains[i + 1];
      }
      NotListed(config, domains[1..], name);
      if pool.Some? {
        AddToGroups(grouped, pool.value, name);
        GroupFromGroups(config, domains[1..], AddTo(grouped, pool.value, name));
      } else {
        GroupFromGroups(config, domains[1..], grouped);
      }
    }
  }

  lemma {:induction false} NotListed(config: Config, domains: seq<Domain>, name: string)
    requires forall i | 0 <= i < |domains| :: domains[i].name != name
    ensures Listing(config, domains, name).None?
    decreases |domains|
  {
    if domains != [] {
      NotListed(config, domains[1..], name);
    }
  }

  lemma {:induction false} OverridesDropDefault(grouped: Grouped, default: Option<string>, name: string)
    requires WellGrouped(grouped)
    ensures PoolOf(Overrides(grouped, default), name) ==
            if PoolOf(grouped, name) == default then None else PoolOf(grouped, name)
    decreases |grouped|
  {
    if grouped != [] {
      OverridesDropDefault(grouped[1..], default, name);
      assert default == Some(grouped[0].0) ==> Overrides(grouped, default) == Overrides(grouped[1..], default);
    }
  }

  // --- the meaning of the compiled route -------------------------------------------------------

  lemma {:induction false} PoolRulesMean(grouped: Grouped, otherwise: Option<string>, world: World, message: Message)
    ensures var rules := PoolRules(grouped);
            var pool := PoolOf(grouped, message.senderDomain);
            && (pool.Some? <==> exists i :: 0 <= i < |rules| && Holds(rules[i].condition, world, message))
            && (pool.Some? ==> Route(rules, otherwise, world, message) == Some(RouteName(pool.value)))
    decreases |grouped|
  {
    if grouped != [] {
      var rules := PoolRules(grouped);
      PoolRulesMean(grouped[1..], otherwise, world, message);
      assert rules[1..] == PoolRules(grouped[1..]);
      assert forall i | 0 <= i < |rules[1..]| :: rules[1..][i] == rules[i + 1];
      SentFromMeans(grouped[0].1, world, message);
      assert rules[0].condition == SentFromOneOf(grouped[0].1);
    }
  }

  lemma SentFromMeans(domains: seq<string>, world: World, message: Message)
    ensures Holds(SentFromOneOf(domains), world, message) <==> message.senderDomain in domains
  {
    var conditions := SentFromOneOf(domains).conditions;
    assert forall i | 0 <= i < |domains| :: Holds(conditions[i], world, message) <==>
        message.senderDomain == domains[i];
  }

  lemma {:induction false} SenderPoolIsListing(config: Config, domains: seq<Domain>, sender: string)
    ensures SenderPool(config, domains, sender) ==
            if Listing(config, domains, sender) == DefaultPool(config) then None else Listing(config, domains, sender)
    decreases |domains|
  {
    if domains != [] {
      SenderPoolIsListing(config, domains[1..], sender);
    }
  }

  lemma GroupIsRouted(config: Config, i: nat)
    requires i < |DomainsByPool(config)|
    ensures DomainsByPool(config)[i].0 in RoutedPools(config)
  {
  }

  lemma NoPoolsNoOverrides(config: Config)
    requires RoutedPools(config) == {}
    ensures DomainsByPool(config) == [] && DefaultPool(config).None?
  {
    if DomainsByPool(config) != [] {
      GroupIsRouted(config, 0);
    }
  }

  /** What the push compiles, in one piece: the two cases of `cluster_operations` are one. */
  lemma CompileIs(current: Expression, config: Config)
    ensures Compile(current, config) ==
            RouteExpression(current, RelayingDomains(config.domains),
                Overrides(DomainsByPool(config), DefaultPool(config)),
                            DefaultPool(config))
  {
    if RoutedPools(config) == {} {
      NoPoolsNoOverrides(config);
    }
  }

  /** The rules Suite Cloud writes for a configuration. */
  function SuiteRules(config: Config): seq<Rule> {
    LocalRules(RelayingDomains(config.domains)) + PoolRules(Overrides(DomainsByPool(config), DefaultPool(config)))
  }

  lemma CompiledRules(current: Expression, config: Config)
    requires ExpressionRules(current).Some?
    ensures Compile(current, config).Some?
    ensures ExpressionRules(Compile(current, config).value) ==
            Some(SuiteRules(config) + ForeignRules(ExpressionRules(current).value))
    ensures Compile(current, config).value.otherwise == Some(Fallback(current.otherwise, DefaultPool(config)))
  {
    CompileIs(current, config);
    ListRoundTrip(SuiteRules(config) + ForeignRules(ExpressionRules(current).value),
                  AsList(SuiteRules(config) + ForeignRules(ExpressionRules(current).value))) by {
      DecimalsDiffer(SuiteRules(config) + ForeignRules(ExpressionRules(current).value));
    }
  }

  lemma DecimalsDiffer<T>(items: seq<T>)
    ensures forall i, j | 0 <= i < j < |items| :: AsList(items)[i].0 != AsList(items)[j].0
  {
    forall i, j | 0 <= i < j < |items| ensures Decimal(i) != Decimal(j) {
      ParseOfDecimal(i);
      ParseOfDecimal(j);
    }
  }

  lemma OverridesHaveSender(config: Config, sender: string)
    requires UniqueNames(config.domains)
    ensures PoolOf(Overrides(DomainsByPool(config), DefaultPool(config)), sender)
            == SenderPool(config, config.domains, sender)
  {
    hide Listing, DefaultPool, Overrides, SenderPool;
    assert WellGrouped([]) && forall name :: PoolOf([], name).None?;
    GroupFromGroups(config, config.domains, []);
    OverridesDropDefault(DomainsByPool(config), DefaultPool(config), sender);
    SenderPoolIsListing(config, config.domains, sender);
  }

  lemma CompiledRouteIs(current: Expression, config: Config, world: World, message: Message)
    requires ExpressionRules(current).Some? && UniqueNames(config.domains)
    requires message.rcpt in world.held ==> message.rcptDomain in world.localDomains
    ensures Compile(current, config).Some? && ExpressionRules(Compile(current, config).value).Some?
    ensures Evaluate(Compile(current, config).value, world, message) ==
            Decided(config, ForeignRules(ExpressionRules(current).value),
                    Fallback(current.otherwise, DefaultPool(config)), world, message)
  {
    hide Compile, Route, StaysHere, LocalRules, PoolRules, ForeignRules, Overrides, DomainsByPool, RelayingDomains,
      SenderPool, Listing, DefaultPool, Holds;
    CompiledRules(current, config);
    var otherwise := Compile(current, config).value.otherwise;
    var local := LocalRules(RelayingDomains(config.domains));
    var overrides := Overrides(DomainsByPool(config), DefaultPool(config));
    var foreign := ForeignRules(ExpressionRules(current).value);
    assert SuiteRules(config) + foreign == local + (PoolRules(overrides) + foreign);
    RouteAppend(local, PoolRules(overrides) + foreign, otherwise, world, message);
    RouteAppend(PoolRules(overrides), foreign, otherwise, world, message);
    LocalRulesMean(config, otherwise, world, message);
    PoolRulesMean(overrides, otherwise, world, message);
    OverridesHaveSender(config, message.senderDomain);
    assert ExpressionRules(Compile(current, config).value).value == local + (PoolRules(overrides) + foreign);
    assert Evaluate(Compile(current, config).value, world, message)
        == Route(local + (PoolRules(overrides) + foreign), otherwise, world, message);
  }

  /** Every message gets the intended route. */
  lemma CompiledRouteIsIntended(current: Expression, config: Config, world: World, message: Message)
    requires ExpressionRules(current).Some? && UniqueNames(config.domains)
    requires message.rcpt in world.held ==> message.rcptDomain in world.localDomains
    ensures Compile(current, config).Some? && ExpressionRules(Compile(current, config).value).Some?
    ensures IsIntended(config, ExpressionRules(current).value, current.otherwise, world, message,
                       Evaluate(Compile(current, config).value, world, message))
  {
    hide Compile, Route, StaysHere, ForeignRules, SenderPool, DefaultPool, Holds, Fallback, FallbackFor, KeptRoute,
      LeavesThrough, Evaluate, ExpressionRules;
    CompiledRouteIs(current, config, world, message);
    FallbackIs(current.otherwise, config);
    KeptRouteIs(ExpressionRules(current).value, FallbackFor(current.otherwise, config), world, message);
    forall pool ensures SenderPool(config, config.domains, message.senderDomain) == Some(pool)
                        <==> HasOwnRoute(config, message.senderDomain, pool)
    {
      SenderPoolIs(config, config.domains, message.senderDomain, pool);
    }
    if pool :| HasOwnRoute(config, message.senderDomain, pool) {
      OwnRouteIsPopulated(config, message.senderDomain, pool);
    }
  }

  lemma OwnRouteIsPopulated(config: Config, sender: string, pool: string)
    requires HasOwnRoute(config, sender, pool)
    ensures pool in config.populated
  {
  }

  // --- every pool named has a route --------------------------------------------------------------

  lemma {:induction false} OverridesAreGroups(grouped: Grouped, default: Option<string>, i: nat)
    requires i < |Overrides(grouped, default)|
    ensures exists j :: 0 <= j < |grouped| && grouped[j] == Overrides(grouped, default)[i]
    decreases |grouped|
  {
    if default != Some(grouped[0].0) {
      if i > 0 {
        OverridesAreGroups(grouped[1..], default, i - 1);
        var j :| 0 <= j < |grouped[1..]| && grouped[1..][j] == Overrides(grouped[1..], default)[i - 1];
        assert grouped[j + 1] == Overrides(grouped, default)[i];
      }
    } else {
      OverridesAreGroups(grouped[1..], default, i);
      var j :| 0 <= j < |grouped[1..]| && grouped[1..][j] == Overrides(grouped[1..], default)[i];
      assert grouped[j + 1] == Overrides(grouped, default)[i];
    }
  }

  /** The pools a relay route is upserted for: those some enabled domain leaves through, and the default. */
  lemma RoutedPoolsAre(config: Config, pool: string)
    requires UniqueNames(config.domains)
    ensures pool in RoutedPools(config) <==>
            || (HasDefault(config) && config.clusterPool == Some(pool))
            || exists i :: 0 <= i < |config.domains| && LeavesThrough(config, config.domains[i], pool)
  {
    hide LeavesThrough;
    GroupedPools(config, config.domains, [], pool);
    FallbackIs(None, config);
  }

  lemma {:induction false} GroupedPools(config: Config, domains: seq<Domain>, grouped: Grouped, pool: string)
    ensures Names(GroupFrom(config, domains, grouped), pool) <==>
            Names(grouped, pool) || exists i :: 0 <= i < |domains| && LeavesThrough(config, domains[i], pool)
    decreases |domains|
  {
    hide LeavesThrough, Names, LivePool;
    if domains != [] {
      assert forall i | 1 <= i < |domains| :: domains[i] == domains[1..][i - 1];
      LivePoolIs(config, domains[0], pool);
      var live := LivePool(config, domains[0]);
      if live.Some? {
        AddedNames(grouped, live.value, domains[0].name, pool);
        GroupedPools(config, domains[1..], AddTo(grouped, live.value, domains[0].name), pool);
      } else {
        GroupedPools(config, domains[1..], grouped, pool);
      }
      if i :| 0 <= i < |domains| && LeavesThrough(config, domains[i], pool) {
        assert i > 0 ==> LeavesThrough(config, domains[1..][i - 1], pool);
      }
      if i :| 0 <= i < |domains[1..]| && LeavesThrough(config, domains[1..][i], pool) {
        assert LeavesThrough(config, domains[i + 1], pool);
      }
    }
  }

  predicate Names(grouped: Grouped, pool: string) {
    exists i :: 0 <= i < |grouped| && grouped[i].0 == pool
  }

  lemma {:induction false} AddedNames(grouped: Grouped, added: string, name: string, pool: string)
    ensures Names(AddTo(grouped, added, name), pool) <==> pool == added || Names(grouped, pool)
    decreases |grouped|
  {
    if grouped == [] {
      assert AddTo(grouped, added, name)[0].0 == added;
    } else {
      var after := AddTo(grouped, added, name);
      if grouped[0].0 == added {
        assert after[0].0 == added && after[1..] == grouped[1..];
        assert forall i | 0 < i < |after| :: after[i] == grouped[i];
        assert grouped[0].0 == added;
      } else {
        AddedNames(grouped[1..], added, name, pool);
        SplitNames(grouped, pool);
        SplitNames(after, pool);
        assert after[1..] == AddTo(grouped[1..], added, name);
      }
    }
  }

  lemma SplitNames(grouped: Grouped, pool: string)
    requires grouped != []
    ensures Names(grouped, pool) <==> grouped[0].0 == pool || Names(grouped[1..], pool)
  {
    if i :| 0 <= i < |grouped| && grouped[i].0 == pool {
      assert i > 0 ==> grouped[1..][i - 1] == grouped[i];
    }
    if i :| 0 <= i < |grouped[1..]| && grouped[1..][i].0 == pool {
      assert grouped[i + 1].0 == pool;
    }
  }

  predicate IsRouted(target: Option<string>, pools: set<string>) {
    target.Some? && StartsWith(target.value, SUITE_RULE_PREFIX) ==>
      exists pool :: pool in pools && target.value == RouteName(pool)
  }

  /** No rule and no fallback names an egress route the same push does not upsert, whatever routes
      the strategy named before. */
  lemma EveryEgressRouteIsUpserted(current: Expression, config: Config)
    requires ExpressionRules(current).Some?
    ensures Compile(current, config).Some? && ExpressionRules(Compile(current, config).value).Some?
    ensures var compiled := Compile(current, config).value;
            var rules := ExpressionRules(compiled).value;
            && IsRouted(compiled.otherwise, RoutedPools(config))
            && forall i | 0 <= i < |rules| :: IsRouted(rules[i].target, RoutedPools(config))
  {
    CompiledRules(current, config);
    var grouped := DomainsByPool(config);
    var overrides := Overrides(grouped, DefaultPool(config));
    var local, foreign := LocalRules(RelayingDomains(config.domains)), ForeignRules(ExpressionRules(current).value);
    var rules := SuiteRules(config) + foreign;
    forall i | 0 <= i < |rules| ensures IsRouted(rules[i].target, RoutedPools(config)) {
      if i < |local| {
        assert rules[i].target == Some(LOCAL);
      } else if i < |local| + |overrides| {
        OverridesAreGroups(grouped, DefaultPool(config), i - |local|);
        assert overrides[i - |local|].0 in RoutedPools(config);
      } else {
        ForeignRulesAreForeign(ExpressionRules(current).value, i - |local| - |overrides|);
      }
    }
  }

  lemma {:induction false} ForeignRulesAreForeign(rules: seq<Rule>, i: nat)
    requires i < |ForeignRules(rules)|
    ensures IsForeign(ForeignRules(rules)[i])
    decreases |rules|
  {
    if IsForeign(rules[0]) {
      if i > 0 {
        ForeignRulesAreForeign(rules[1..], i - 1);
      }
    } else {
      ForeignRulesAreForeign(rules[1..], i);
    }
  }

  // --- recompiling -------------------------------------------------------------------------------

  lemma {:induction false} ForeignRulesAppend(a: seq<Rule>, b: seq<Rule>)
    ensures ForeignRules(a + b) == ForeignRules(a) + ForeignRules(b)
    decreases |a|
  {
    hide IsForeign;
    if a == [] {
      assert a + b == b;
    } else {
      var first := if IsForeign(a[0]) then [a[0]] else [];
      assert (a + b)[0] == a[0] && (a + b)[1..] == a[1..] + b;
      ForeignRulesAppend(a[1..], b);
      assert ForeignRules(a) == first + ForeignRules(a[1..]);
      assert ForeignRules(a + b) == first + (ForeignRules(a[1..]) + ForeignRules(b));
    }
  }

  lemma {:induction false} ForeignRulesTwice(rules: seq<Rule>)
    ensures ForeignRules(ForeignRules(rules)) == ForeignRules(rules)
    decreases |rules|
  {
    if rules != [] {
      ForeignRulesTwice(rules[1..]);
      ForeignRulesAppend(if IsForeign(rules[0]) then [rules[0]] else [], ForeignRules(rules[1..]));
    }
  }

  lemma {:induction false} NoForeign(rules: seq<Rule>)
    requires forall i | 0 <= i < |rules| :: !IsForeign(rules[i])
    ensures ForeignRules(rules) == []
    decreases |rules|
  {
    if rules != [] {
      NoForeign(rules[1..]);
    }
  }

  lemma SuiteRulesAreOurs(config: Config)
    ensures ForeignRules(SuiteRules(config)) == []
  {
    var local, pools := LocalRules(RelayingDomains(config.domains)),
                        PoolRules(Overrides(DomainsByPool(config), DefaultPool(config)));
    assert forall i | 0 <= i < |local| :: local[i].target == Some(LOCAL);
    assert forall i | 0 <= i < |pools| :: StartsWith(pools[i].target.value, SUITE_RULE_PREFIX);
    NoForeign(SuiteRules(config));
  }

  /** What a server may answer for an expression it holds: the same rules, keyed in any order. */
  ghost predicate ReadsAs(read: Expression, held: Expression) {
    && read.otherwise == held.otherwise
    && (|| read == held
        || (read.match_.Keyed? && held.match_.Keyed? && Rearranged(read.match_.entries, held.match_.entries)))
  }

  /** Compiling from the written form writes it again, however the server orders its keys. */
  lemma RecompileIsFixpoint(current: Expression, config: Config, read: Expression)
    requires ExpressionRules(current).Some?
    requires ReadsAs(read, Compile(current, config).value)
    ensures Compile(read, config) == Compile(current, config)
  {
    var foreign := ForeignRules(ExpressionRules(current).value);
    var rules := SuiteRules(config) + foreign;
    CompileIs(current, config);
    CompileIs(read, config);
    CompiledRules(current, config);
    if read != Compile(current, config).value {
      ListRoundTrip(rules, read.match_.entries);
    }
    assert ExpressionRules(read) == Some(rules);
    ForeignRulesAppend(SuiteRules(config), foreign);
    SuiteRulesAreOurs(config);
    ForeignRulesTwice(ExpressionRules(current).value);
    assert [] + foreign == foreign;
  }

  // --- histories -----------------------------------------------------------------------------------

  /** One push: the configuration then, and what reading the strategy gave. A strategy that cannot be
      read is planned for as if it held nothing. */
  datatype Push = Push(config: Config, read: Option<Expression>)

  const NOTHING: Expression := Expression(NoMatch, None)

  function Planned(push: Push): Expression {
    push.read.GetOr(NOTHING)
  }

  /** The strategies a history of pushes leaves, each reading what the push before it wrote. */
  ghost predicate IsHistory(start: Expression, pushes: seq<Push>)
    decreases |pushes|
  {
    pushes == [] ||
    (&& (pushes[0].read.Some? ==> ReadsAs(pushes[0].read.value, start))
     && Compile(Planned(pushes[0]), pushes[0].config).Some?
     && IsHistory(Compile(Planned(pushes[0]), pushes[0].config).value, pushes[1..]))
  }

  function After(start: Expression, pushes: seq<Push>): Expression
    decreases |pushes|
  {
    if pushes == [] then start
    else
      match Compile(Planned(pushes[0]), pushes[0].config)
      case Some(written) => After(written, pushes[1..])
      case None => start
  }

  predicate AllRead(pushes: seq<Push>) {
    forall i | 0 <= i < |pushes| :: pushes[i].read.Some?
  }

  function Foreigners(expression: Expression): seq<Rule>
    requires ExpressionRules(expression).Some?
  {
    ForeignRules(ExpressionRules(expression).value)
  }

  /** A keyed list's keys are the indices of its rules, in any order. */
  ghost predicate WellKeyed(expression: Expression) {
    && ExpressionRules(expression).Some?
    && (expression.match_.Keyed? ==> SameEntries(expression.match_.entries, AsList(ExpressionRules(expression).value)))
  }

  lemma ReadRules(read: Expression, held: Expression)
    requires WellKeyed(held) && ReadsAs(read, held)
    ensures ExpressionRules(read) == ExpressionRules(held)
  {
    if read != held {
      ListRoundTrip(ExpressionRules(held).value, read.match_.entries);
    }
  }

  lemma CompiledIsWellKeyed(current: Expression, config: Config)
    requires ExpressionRules(current).Some?
    ensures Compile(current, config).Some? && WellKeyed(Compile(current, config).value)
    ensures Foreigners(Compile(current, config).value) == Foreigners(current)
  {
    CompileIs(current, config);
    CompiledRules(current, config);
    ForeignRulesAppend(SuiteRules(config), Foreigners(current));
    SuiteRulesAreOurs(config);
    ForeignRulesTwice(ExpressionRules(current).value);
  }

  function FallbackAfter(start: Option<string>, push: Push): string {
    if DefaultPool(push.config).Some? then RouteName(DefaultPool(push.config).value)
    else if push.read.None? then DIRECT
    else Fallback(start, None)
  }

  /** One push of a history: the rules, the foreign rules and the fallback it leaves. */
  lemma PushWrites(start: Expression, push: Push)
    requires WellKeyed(start)
    requires push.read.Some? ==> ReadsAs(push.read.value, start)
    ensures Compile(Planned(push), push.config).Some?
    ensures var written := Compile(Planned(push), push.config).value;
            var foreign := if push.read.Some? then Foreigners(start) else [];
            && WellKeyed(written)
            && ExpressionRules(written).value == SuiteRules(push.config) + foreign
            && Foreigners(written) == foreign
            && written.otherwise == Some(FallbackAfter(start.otherwise, push))
  {
    if push.read.Some? {
      ReadRules(push.read.value, start);
    }
    CompiledIsWellKeyed(Planned(push), push.config);
    CompiledRules(Planned(push), push.config);
  }

  lemma AllReadSplit(pushes: seq<Push>)
    requires pushes != []
    ensures AllRead(pushes) <==> pushes[0].read.Some? && AllRead(pushes[1..])
  {
    var rest := pushes[1..];
    assert forall i | 0 <= i < |rest| :: rest[i] == pushes[i + 1];
    assert forall i | 1 <= i < |pushes| :: pushes[i] == rest[i - 1];
  }

  lemma {:induction false} ForeignersOverHistory(start: Expression, pushes: seq<Push>)
    requires WellKeyed(start) && IsHistory(start, pushes)
    ensures WellKeyed(After(start, pushes))
    ensures var foreign := if AllRead(pushes) then Foreigners(start) else [];
            && Foreigners(After(start, pushes)) == foreign
            && (pushes != [] ==>
                  ExpressionRules(After(start, pushes)).value == SuiteRules(pushes[|pushes| - 1].config) + foreign)
    decreases |pushes|
  {
    hide Compile, ReadsAs, SuiteRules, AllRead, ForeignRules, Foreigners, ExpressionRules, WellKeyed;
    if pushes != [] {
      var written := Compile(Planned(pushes[0]), pushes[0].config).value;
      PushWrites(start, pushes[0]);
      AllReadSplit(pushes);
      ForeignersOverHistory(written, pushes[1..]);
      assert pushes[1..] == [] ==> AllRead(pushes[1..]) by {
        NothingIsAllRead();
      }
    } else {
      NothingIsAllRead();
    }
  }

  /** `part` are the rules of `rules` whose target is kept, each where it stood among them: `at` are
      their places. */
  ghost predicate IsKeptPart(part: seq<Rule>, rules: seq<Rule>, at: seq<nat>) {
    && |at| == |part|
    && (forall n | 0 <= n < |at| :: at[n] < |rules| && part[n] == rules[at[n]] && IsKept(part[n].target))
    && (forall n, m | 0 <= n < m < |at| :: at[n] < at[m])
    && forall i | 0 <= i < |rules| && IsKept(rules[i].target) :: exists n :: 0 <= n < |at| && at[n] == i
  }

  lemma {:induction false} ForeignRulesAreKept(rules: seq<Rule>) returns (at: seq<nat>)
    ensures IsKeptPart(ForeignRules(rules), rules, at)
    decreases |rules|
  {
    hide IsKept, IsKeptPart;
    if rules == [] {
      at := [];
      NothingKept();
    } else {
      var front, last := rules[..|rules| - 1], rules[|rules| - 1];
      at := ForeignRulesAreKept(front);
      ForeignIsKept(last);
      assert rules == front + [last];
      ForeignRulesAppend(front, [last]);
      assert [last][1..] == [];
      assert ForeignRules([last]) == if IsKept(last.target) then [last] else [];
      if IsKept(last.target) {
        assert ForeignRules(rules) == ForeignRules(front) + [last];
        KeptFurther(ForeignRules(front), front, last, at);
        at := at + [|front|];
      } else {
        NotKeptFurther(ForeignRules(front), front, last, at);
        assert ForeignRules(rules) == ForeignRules(front);
      }
    }
  }

  lemma NothingKept()
    ensures IsKeptPart([], [], [])
  {
  }

  lemma KeptFurther(part: seq<Rule>, rules: seq<Rule>, last: Rule, at: seq<nat>)
    requires IsKeptPart(part, rules, at) && IsKept(last.target)
    ensures IsKeptPart(part + [last], rules + [last], at + [|rules|])
  {
    hide IsKept;
    var more := at + [|rules|];
    forall i | 0 <= i < |rules + [last]| && IsKept((rules + [last])[i].target)
      ensures exists n :: 0 <= n < |more| && more[n] == i
    {
      if i < |rules| {
        var n :| 0 <= n < |at| && at[n] == i;
        assert more[n] == i;
      } else {
        assert more[|at|] == i;
      }
    }
  }

  lemma NotKeptFurther(part: seq<Rule>, rules: seq<Rule>, last: Rule, at: seq<nat>)
    requires IsKeptPart(part, rules, at) && !IsKept(last.target)
    ensures IsKeptPart(part, rules + [last], at)
  {
    hide IsKept;
  }

  /** Over any history of pool, domain and relaying changes in which every push could read the strategy,
      what stands behind the last push's own rules are exactly the rules the strategy started with that are
      none of Suite Cloud's, in their order and as often as they were. After a push that could not read it
      none of them is left, and no former Suite Cloud rule is left in either case. */
  lemma ForeignRulesSurvive(start: Expression, pushes: seq<Push>) returns (at: seq<nat>)
    requires WellKeyed(start) && IsHistory(start, pushes) && pushes != []
    ensures WellKeyed(After(start, pushes))
    ensures var rules, own := ExpressionRules(After(start, pushes)).value, SuiteRules(pushes[|pushes| - 1].config);
            && own <= rules
            && (AllRead(pushes) ==> IsKeptPart(rules[|own|..], ExpressionRules(start).value, at))
            && (!AllRead(pushes) ==> rules == own)
    ensures forall rule | rule in SuiteRules(pushes[|pushes| - 1].config) :: !IsKept(rule.target)
  {
    hide Compile, ReadsAs, SuiteRules, AllRead, ForeignRules;
    ForeignersOverHistory(start, pushes);
    at := ForeignRulesAreKept(ExpressionRules(start).value);
    OwnRulesAreNotKept(pushes[|pushes| - 1].config);
  }

  lemma OwnRulesAreNotKept(config: Config)
    ensures forall rule | rule in SuiteRules(config) :: !IsKept(rule.target)
  {
    var local, pools := LocalRules(RelayingDomains(config.domains)),
                        PoolRules(Overrides(DomainsByPool(config), DefaultPool(config)));
    assert forall i | 0 <= i < |local| :: local[i].target == Some(LOCAL);
    assert forall i | 0 <= i < |pools| :: StartsWith(pools[i].target.value, SUITE_RULE_PREFIX);
  }

  lemma NothingIsAllRead()
    ensures AllRead([])
  {
  }

  /** Some push of the history had a default pool to fall back on, or found nothing to read. */
  predicate FallbackReplaced(pushes: seq<Push>) {
    exists i :: 0 <= i < |pushes| && (HasDefault(pushes[i].config) || pushes[i].read.None?)
  }

  lemma FallbackReplacedSplit(pushes: seq<Push>)
    requires pushes != []
    ensures FallbackReplaced(pushes) <==>
            HasDefault(pushes[0].config) || pushes[0].read.None? || FallbackReplaced(pushes[1..])
  {
    var rest := pushes[1..];
    assert forall i | 0 <= i < |rest| :: rest[i] == pushes[i + 1];
    if i :| 0 <= i < |pushes| && (HasDefault(pushes[i].config) || pushes[i].read.None?) {
      assert i > 0 ==> pushes[i] == rest[i - 1];
    }
  }

  lemma FallbackIsKept(start: Option<string>, push: Push)
    ensures FallbackAfter(start, push) ==
            if HasDefault(push.config) then FallbackFor(start, push.config)
            else if push.read.None? then "'mx'" else OwnFallback(start)
    ensures OwnFallback(Some(FallbackAfter(start, push))) ==
            if HasDefault(push.config) || push.read.None? then "'mx'" else OwnFallback(start)
  {
    FallbackIs(start, push.config);
  }

  /** The fallback: a default pool's route while there is one. Without one it is the fallback the
      strategy started with if and only if no push replaced it meanwhile, and direct delivery
      otherwise: a foreign fallback does not come back once a default pool was there. */
  lemma {:induction false} FallbackOverHistory(start: Expression, pushes: seq<Push>)
    requires WellKeyed(start) && IsHistory(start, pushes) && pushes != []
    ensures After(start, pushes).otherwise ==
            Some(var last := pushes[|pushes| - 1].config;
                 if HasDefault(last) then FallbackFor(None, last)
                 else if FallbackReplaced(pushes) then "'mx'"
                 else OwnFallback(start.otherwise))
    decreases |pushes|
  {
    hide Compile, ReadsAs, SuiteRules, Foreigners, OwnFallback, FallbackAfter, WellKeyed, FallbackReplaced;
    var written := Compile(Planned(pushes[0]), pushes[0].config).value;
    PushWrites(start, pushes[0]);
    FallbackReplacedSplit(pushes);
    FallbackIsKept(start.otherwise, pushes[0]);
    if pushes[1..] != [] {
      FallbackOverHistory(written, pushes[1..]);
    } else {
      NothingReplaced();
    }
  }

  lemma NothingReplaced()
    ensures !FallbackReplaced([])
  {
  }
}
