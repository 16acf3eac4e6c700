/** The cluster's outbound route: local delivery, then the pools' rules, then whatever rules the
    strategy already held, with the default pool as the fallback. */
module Egress {
  import opened Wrappers
  import opened IndexedList

  // --- expressions ---------------------------------------------------------------------------

  datatype Message = Message(senderDomain: string, rcpt: string, rcptDomain: string)

  /** What the mail server knows: its domains, the addresses it holds, and what a foreign condition
      says of a message. */
  datatype World = World(localDomains: set<string>, held: set<string>, foreign: (string, Message) -> bool)

  datatype Condition =
    | IsLocalDomain
    | IsLocalAddress
    | RcptDomainIsNot(domain: string)
    | SenderDomainIs(domain: string)
    | All(conditions: seq<Condition>)
    | Any(conditions: seq<Condition>)
    | Foreign(text: string)

  predicate Holds(condition: Condition, world: World, message: Message) {
    match condition
    case IsLocalDomain => message.rcptDomain in world.localDomains
    case IsLocalAddress => message.rcpt in world.held
    case RcptDomainIsNot(domain) => message.rcptDomain != domain
    case SenderDomainIs(domain) => message.senderDomain == domain
    case All(conditions) => forall i | 0 <= i < |conditions| :: Holds(conditions[i], world, message)
    case Any(conditions) => exists i | 0 <= i < |conditions| :: Holds(conditions[i], world, message)
    case Foreign(text) => world.foreign(text, message)
  }

  /** A foreign rule may lack its `then`. */
  datatype Rule = Rule(condition: Condition, target: Option<string>)

  datatype Match =
    | NoMatch
    | Listed(rules: seq<Rule>)
    | Keyed(entries: Indexed<Rule>)

  datatype Expression = Expression(match_: Match, otherwise: Option<string>)

  /** `expression_rules`: None where a key is no number, which raises. */
  function ExpressionRules(expression: Expression): Option<seq<Rule>> {
    match expression.match_
    case NoMatch => Some([])
    case Listed(rules) => Some(rules)
    case Keyed(entries) => FromIndexed(entries)
  }

  /** First match wins. */
  function Route(rules: seq<Rule>, otherwise: Option<string>, world: World, message: Message): Option<string> {
    if rules == [] then otherwise
    else if Holds(rules[0].condition, world, message) then rules[0].target
    else Route(rules[1..], otherwise, world, message)
  }

  function Evaluate(expression: Expression, world: World, message: Message): Option<string>
    requires ExpressionRules(expression).Some?
  {
    Route(ExpressionRules(expression).value, expression.otherwise, world, message)
  }

  // --- rules ---------------------------------------------------------------------------------

  const LOCAL: string := "'local'"
  const DIRECT: string := "'mx'"
  const SUITE_RULE_PREFIX: string := "'egress-"
  const LOCAL_RULE: Rule := Rule(IsLocalDomain, Some(LOCAL))
  const LOCAL_ADDRESS_RULE: Rule := Rule(IsLocalAddress, Some(LOCAL))

  predicate StartsWith(s: string, prefix: string) {
    |prefix| <= |s| && s[..|prefix|] == prefix
  }

  function RouteName(pool: string): string {
    SUITE_RULE_PREFIX + pool + "'"
  }

  predicate IsForeign(rule: Rule) {
    rule.target.None? || (!StartsWith(rule.target.value, SUITE_RULE_PREFIX) && rule.target.value != LOCAL)
  }

  function ForeignRules(rules: seq<Rule>): seq<Rule> {
    if rules == [] then []
    else (if IsForeign(rules[0]) then [rules[0]] else []) + ForeignRules(rules[1..])
  }

  function HeldElsewhere(relaying: seq<string>): seq<Condition> {
    seq(|relaying|, i requires 0 <= i < |relaying| => RcptDomainIsNot(relaying[i]))
  }

  /** `local_rules` */
  function LocalRules(relaying: seq<string>): seq<Rule> {
    if relaying == [] then [LOCAL_RULE]
    else [LOCAL_ADDRESS_RULE, Rule(All([IsLocalDomain] + HeldElsewhere(relaying)), Some(LOCAL))]
  }

  function SentFromOneOf(domains: seq<string>): Condition {
    Any(seq(|domains|, i requires 0 <= i < |domains| => SenderDomainIs(domains[i])))
  }

  /** Domain names by pool, in the order the pools were first met. */
  type Grouped = seq<(string, seq<string>)>

  function PoolRule(group: (string, seq<string>)): Rule {
    Rule(SentFromOneOf(group.1), Some(RouteName(group.0)))
  }

  function PoolRules(grouped: Grouped): seq<Rule> {
    seq(|grouped|, i requires 0 <= i < |grouped| => PoolRule(grouped[i]))
  }

  function Fallback(current: Option<string>, default: Option<string>): string {
    if default.Some? then RouteName(default.value)
    else
      var kept := if current.Some? && current.value != "" then current.value else DIRECT;
      if StartsWith(kept, SUITE_RULE_PREFIX) then DIRECT else kept
  }

  /** `route_expression`: None where reading the current rules raises. */
  function RouteExpression(current: Expression, relaying: seq<string>, grouped: Grouped, default: Option<string>):
      Option<Expression>
  {
    match ExpressionRules(current)
    case None => None
    case Some(rules) =>
      Some(Expression(Keyed(AsList(LocalRules(relaying) + PoolRules(grouped) + ForeignRules(rules))),
                      Some(Fallback(current.otherwise, default))))
  }

  method BuildRouteExpression(current: Expression, relaying: seq<string>, grouped: Grouped, default: Option<string>)
    returns (expression: Option<Expression>)
    ensures expression == RouteExpression(current, relaying, grouped, default)
  {
    var found := ExpressionRules(current);
    if found.None? {
      return None;
    }
    var kept := ForeignRules(found.value);
    var rules := LocalRules(relaying);
    for n := 0 to |grouped|
      invariant rules == LocalRules(relaying) + PoolRules(grouped[..n])
    {
      assert PoolRules(grouped[..n + 1]) == PoolRules(grouped[..n]) + [PoolRule(grouped[n])];
      rules := rules + [PoolRule(grouped[n])];
    }
    assert grouped[..|grouped|] == grouped;
    var fallback :=
      if current.otherwise.Some? && current.otherwise.value != "" then current.otherwise.value else DIRECT;
    if default.Some? {
      fallback := RouteName(default.value);
    } else if StartsWith(fallback, SUITE_RULE_PREFIX) {
      fallback := DIRECT;
    }
    expression := Some(Expression(Keyed(AsList(rules + kept)), Some(fallback)));
  }

  // --- pools ---------------------------------------------------------------------------------

  datatype Domain = Domain(name: string, tenant: string, egressPool: Option<string>, enabled: bool, relaying: bool)

  /** The cluster's records: its domains by name, its tenants' pools, its default pool, and the
      pools that hold an address. */
  datatype Config = Config(domains: seq<Domain>, tenantPools: map<string, string>, clusterPool: Option<string>,
                           populated: set<string>)

  predicate UniqueNames(domains: seq<Domain>) {
    forall i, j | 0 <= i < j < |domains| :: domains[i].name != domains[j].name
  }

  /** `pool_for_domain` */
  function PoolFor(config: Config, domain: Domain): Option<string> {
    if domain.egressPool.Some? then domain.egressPool
    else if domain.tenant in config.tenantPools then Some(config.tenantPools[domain.tenant])
    else config.clusterPool
  }

  /** The pool an enabled domain's mail can leave through. */
  function LivePool(config: Config, domain: Domain): Option<string> {
    match PoolFor(config, domain)
    case Some(pool) => if domain.enabled && pool in config.populated then Some(pool) else None
    case None => None
  }

  function DefaultPool(config: Config): Option<string> {
    match config.clusterPool
    case Some(pool) => if pool in config.populated then Some(pool) else None
    case None => None
  }

  /** `grouped.setdefault(pool, []).append(name)` */
  function AddTo(grouped: Grouped, pool: string, name: string): Grouped {
    if grouped == [] then [(pool, [name])]
    else if grouped[0].0 == pool then [(pool, grouped[0].1 + [name])] + grouped[1..]
    else [grouped[0]] + AddTo(grouped[1..], pool, name)
  }

  function GroupFrom(config: Config, domains: seq<Domain>, grouped: Grouped): Grouped {
    if domains == [] then grouped
    else
      match LivePool(config, domains[0])
      case Some(pool) => GroupFrom(config, domains[1..], AddTo(grouped, pool, domains[0].name))
      case None => GroupFrom(config, domains[1..], grouped)
  }

  function DomainsByPool(config: Config): Grouped {
    GroupFrom(config, config.domains, [])
  }

  method GroupDomains(config: Config) returns (grouped: Grouped)
    ensures grouped == DomainsByPool(config)
  {
    grouped := [];
    for n := 0 to |config.domains|
      invariant DomainsByPool(config) == GroupFrom(config, config.domains[n..], grouped)
    {
      var domain := config.domains[n];
      assert config.domains[n..][0] == domain && config.domains[n..][1..] == config.domains[n + 1..];
      if domain.enabled {
        var pool := PoolFor(config, domain);
        if pool.Some? && pool.value in config.populated {
          grouped := AddTo(grouped, pool.value, domain.name);
        }
      }
    }
    assert config.domains[|config.domains|..] == [];
  }

  function Overrides(grouped: Grouped, default: Option<string>): Grouped {
    if grouped == [] then []
    else (if default == Some(grouped[0].0) then [] else [grouped[0]]) + Overrides(grouped[1..], default)
  }

  function RelayingDomains(domains: seq<Domain>): seq<string> {
    if domains == [] then []
    else (if domains[0].enabled && domains[0].relaying then [domains[0].name] else []) + RelayingDomains(domains[1..])
  }

  /** The pools the push upserts a relay route for. */
  function RoutedPools(config: Config): set<string> {
    var grouped := DomainsByPool(config);
    (set i | 0 <= i < |grouped| :: grouped[i].0)
    + (if DefaultPool(config).Some? then {DefaultPool(config).value} else {})
  }

  /** The expression `cluster_operations` puts in the plan. With no pools to relay through it asks
      for one without overrides and default, which is the same. */
  function Compile(current: Expression, config: Config): Option<Expression> {
    var default := DefaultPool(config);
    if RoutedPools(config) == {} then RouteExpression(current, RelayingDomains(config.domains), [], None)
    else RouteExpression(current, RelayingDomains(config.domains), Overrides(DomainsByPool(config), default), default)
  }
}
