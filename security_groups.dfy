/**
 * The reconciliation core of roadhouse's `SecurityGroupsConfig`: desired
 * security-group rules are compared against a snapshot of the provider's
 * groups, missing groups are created and missing rules are authorized.
 *
 * The provider is a pair of immutable snapshots (the two reloads of `apply`)
 * and every call the source makes on it is recorded in a returned log.
 * Exceptions become an `Outcome` returned beside the log of the calls that
 * were made before the raise.
 */
module SecurityGroups {
  import opened Wrappers
  import opened Seqs

  // ---------------------------------------------------------------------------
  // Provider snapshot (boto's SecurityGroup, IPPermissions and grant objects)
  // ---------------------------------------------------------------------------

  /** One grant of a remote permission: a CIDR block or a peer group. */
  datatype Grant = Grant(cidrIp: Option<string>, name: Option<string>)

  /** A remote permission: protocol, port range and the grants bundled under it. */
  datatype Permission = Permission(ipProtocol: string, fromPort: int, toPort: int, grants: seq<Grant>)

  /** A remote security group; `rules` is its list of permissions. */
  datatype Group = Group(name: string, id: string, vpcId: Option<string>, rules: seq<Permission>)

  datatype Vpc = Vpc(id: string)

  // ---------------------------------------------------------------------------
  // Desired state
  // ---------------------------------------------------------------------------

  /** An atomic rule as produced by the rule parser. */
  datatype Rule = Rule(protocol: string, fromPort: int, toPort: int, address: Option<string>, groupName: Option<string>)

  /**
   * The `options` mapping of a configured group. The outer `None` of
   * `description` is an absent key, `Some(None)` a key whose value is null.
   * `vpc` is read with `get`, which gives `None` for both.
   */
  datatype Options = Options(description: Option<Option<string>>, vpc: Option<string>)

  /**
   * One configured group: its `options` and `rules` keys (`None` when absent).
   * `S` is the type of a raw rule stanza, which only the rule parser looks into.
   */
  datatype GroupSpec<S> = GroupSpec(options: Option<Options>, rules: Option<seq<S>>)

  /** The configuration mapping, as the sequence of its items in iteration order. */
  type Config<S> = seq<(string, GroupSpec<S>)>

  /** A call on the provider. */
  datatype Call =
    | CreateSecurityGroup(name: string, description: Option<string>, vpcId: Option<string>)
    | Authorize(target: Group, protocol: string, fromPort: int, toPort: int,
                cidrIp: Option<string>, srcGroup: Option<Group>)

  /** What `apply` raises: a configured group missing from the second snapshot, or a mixed grant. */
  datatype Error = KeyError(key: string) | ConflictingGrant(group: string, rule: Rule)

  datatype Outcome = Done | Raised(error: Error)

  /** The calls a pass made, and whether it ran to the end or raised. */
  datatype Run = Run(calls: seq<Call>, outcome: Outcome)

  /** Dictionary keys are unique. */
  predicate DistinctNames<S>(config: Config<S>)
  {
    forall i, j :: 0 <= i < j < |config| ==> config[i].0 != config[j].0
  }

  /** Python truthiness of an optional string: present and non-empty. */
  predicate Truthy(s: Option<string>)
  {
    s.Some? && s.value != ""
  }

  // ---------------------------------------------------------------------------
  // Rule matcher: `eq` and `filter_existing_rules`
  // ---------------------------------------------------------------------------

  predicate HasCidrGrant(x: Permission, cidr: Option<string>)
  {
    exists y :: y in x.grants && y.cidrIp == cidr
  }

  predicate HasNamedGrant(x: Permission, name: Option<string>)
  {
    exists z :: z in x.grants && z.name == name
  }

  /** `eq`: does the existing permission `x` already grant `rule`? Early returns, in the source's order. */
  predicate Eq(x: Permission, rule: Rule)
  {
    if x.ipProtocol != rule.protocol then false
    else if x.fromPort != rule.fromPort then false
    else if x.toPort != rule.toPort then false
    else if Truthy(rule.address) && !HasCidrGrant(x, rule.address) then false
    else if Truthy(rule.groupName) && !HasNamedGrant(x, rule.groupName) then false
    else true
  }

  /** Reference reading of the matcher: every check is a conjunct, none is ordered. */
  predicate Covers(x: Permission, rule: Rule)
  {
    && x.ipProtocol == rule.protocol
    && x.fromPort == rule.fromPort
    && x.toPort == rule.toPort
    && (Truthy(rule.address) ==> exists y :: y in x.grants && y.cidrIp == rule.address)
    && (Truthy(rule.groupName) ==> exists z :: z in x.grants && z.name == rule.groupName)
  }

  lemma EqIsCovers(x: Permission, rule: Rule)
    ensures Eq(x, rule) <==> Covers(x, rule)
  {
  }

  lemma EqNeedsSameProtocolAndPorts(x: Permission, rule: Rule)
    requires x.ipProtocol != rule.protocol || x.fromPort != rule.fromPort || x.toPort != rule.toPort
    ensures !Eq(x, rule)
  {
  }

  lemma EqAddressNeedsCidrGrant(x: Permission, rule: Rule)
    requires Truthy(rule.address) && Eq(x, rule)
    ensures exists y :: y in x.grants && y.cidrIp == rule.address
  {
  }

  lemma EqGroupNameNeedsNamedGrant(x: Permission, rule: Rule)
    requires Truthy(rule.groupName) && Eq(x, rule)
    ensures exists z :: z in x.grants && z.name == rule.groupName
  {
  }

  /** A rule with neither an address nor a peer group matches on protocol and ports alone. */
  lemma EqBareRuleOnPortsAlone(x: Permission, rule: Rule)
    requires !Truthy(rule.address) && !Truthy(rule.groupName)
    ensures Eq(x, rule) <==> x.ipProtocol == rule.protocol && x.fromPort == rule.fromPort && x.toPort == rule.toPort
  {
  }

  /** An address rule is not matched by a permission whose grants are all peer groups. */
  lemma EqAddressNotMatchedByPeerGrants(x: Permission, rule: Rule)
    requires Truthy(rule.address)
    requires forall g :: g in x.grants ==> g.cidrIp.None?
    ensures !Eq(x, rule)
  {
  }

  /** `filter(eq, group.rules)` is non-empty. */
  predicate Matched(rule: Rule, perms: seq<Permission>)
  {
    exists x :: x in perms && Eq(x, rule)
  }

  /** The rules no existing permission matches, in order, duplicates kept. */
  function Unmatched(rules: seq<Rule>, perms: seq<Permission>): seq<Rule>
  {
    Filter(rules, r => !Matched(r, perms))
  }

  lemma UnmatchedMember(rules: seq<Rule>, perms: seq<Permission>, r: Rule)
    ensures r in Unmatched(rules, perms) <==> r in rules && !Matched(r, perms)
  {
    FilterMember(rules, r' => !Matched(r', perms), r);
  }

  lemma UnmatchedAppend(a: seq<Rule>, b: seq<Rule>, perms: seq<Permission>)
    ensures Unmatched(a + b, perms) == Unmatched(a, perms) + Unmatched(b, perms)
  {
    FilterAppend(a, b, r => !Matched(r, perms));
  }

  lemma UnmatchedMultiplicity(rules: seq<Rule>, perms: seq<Permission>, r: Rule)
    ensures multiset(Unmatched(rules, perms))[r] == if Matched(r, perms) then 0 else multiset(rules)[r]
  {
    FilterMultiplicity(rules, r' => !Matched(r', perms), r);
  }

  lemma UnmatchedNoPermissions(rules: seq<Rule>)
    ensures Unmatched(rules, []) == rules
  {
    FilterKeepsAll(rules, r => !Matched(r, []));
  }

  lemma UnmatchedIdempotent(rules: seq<Rule>, perms: seq<Permission>)
    ensures Unmatched(Unmatched(rules, perms), perms) == Unmatched(rules, perms)
  {
    FilterIdempotent(rules, r => !Matched(r, perms));
  }

  lemma UnmatchedAllMatched(rules: seq<Rule>, perms: seq<Permission>)
    requires forall r :: r in rules ==> Matched(r, perms)
    ensures Unmatched(rules, perms) == []
  {
    FilterKeepsNone(rules, r => !Matched(r, perms));
  }

  // ---------------------------------------------------------------------------
  // Snapshots: `vpc_groups` and the name map of `apply`
  // ---------------------------------------------------------------------------

  /** `x.vpc_id == vpc.id` */
  predicate InVpc(g: Group, vpc: Vpc)
  {
    g.vpcId == Some(vpc.id)
  }

  /** `vpc_groups`: the snapshot's groups in the given VPC, in snapshot order. */
  function VpcGroups(existing: seq<Group>, vpc: Vpc): seq<Group>
  {
    Filter(existing, g => InVpc(g, vpc))
  }

  lemma VpcGroupsMember(existing: seq<Group>, vpc: Vpc, g: Group)
    ensures g in VpcGroups(existing, vpc) <==> g in existing && g.vpcId == Some(vpc.id)
  {
    FilterMember(existing, g' => InVpc(g', vpc), g);
  }

  lemma VpcGroupsAppend(a: seq<Group>, b: seq<Group>, vpc: Vpc)
    ensures VpcGroups(a + b, vpc) == VpcGroups(a, vpc) + VpcGroups(b, vpc)
  {
    FilterAppend(a, b, g => InVpc(g, vpc));
  }

  /** `[x.name for x in groups]` */
  function Names(groups: seq<Group>): seq<string>
  {
    seq(|groups|, i requires 0 <= i < |groups| => groups[i].name)
  }

  /** `{k.name: k for k in groups}`: a later group overrides an earlier one of the same name. */
  function GroupsByName(groups: seq<Group>): map<string, Group>
  {
    if groups == [] then map[]
    else GroupsByName(groups[..|groups| - 1])[groups[|groups| - 1].name := groups[|groups| - 1]]
  }

  /** The map has one key per name, holding the last group of that name. */
  lemma {:induction false} GroupsByNameLastWins(groups: seq<Group>, n: string)
    ensures n in GroupsByName(groups) <==> n in Names(groups)
    ensures n in GroupsByName(groups) ==>
      exists i :: 0 <= i < |groups| && groups[i] == GroupsByName(groups)[n] && groups[i].name == n &&
        forall j :: i < j < |groups| ==> groups[j].name != n
  {
    if groups != [] {
      var init := groups[..|groups| - 1];
      var last := |groups| - 1;
      GroupsByNameLastWins(init, n);
      assert Names(groups) == Names(init) + [groups[last].name];
      if n in GroupsByName(groups) && groups[last].name != n {
        var i :| 0 <= i < |init| && init[i] == GroupsByName(init)[n] && init[i].name == n &&
          forall j :: i < j < |init| ==> init[j].name != n;
        assert groups[i] == GroupsByName(groups)[n];
      }
    }
  }

  /** Line 65 keys the map on every group of the second snapshot, whatever its VPC. */
  lemma GroupsByNameIgnoresVpc()
    ensures var snapshot := [Group("web", "sg-1", Some("vpc-a"), []), Group("web", "sg-2", Some("vpc-b"), [])];
      GroupsByName(snapshot)["web"].vpcId == Some("vpc-b") &&
      VpcGroups(snapshot, Vpc("vpc-a")) == [snapshot[0]]
  {
    var snapshot := [Group("web", "sg-1", Some("vpc-a"), []), Group("web", "sg-2", Some("vpc-b"), [])];
    var keep := g => InVpc(g, Vpc("vpc-a"));
    assert snapshot[..1] == [snapshot[0]];
    assert [snapshot[0]][..0] == [];
    assert Filter([snapshot[0]], keep) == [snapshot[0]];
    assert Filter(snapshot, keep) == Filter([snapshot[0]], keep);
  }

  /** `groups.get(key, None)`; a `None` key is never in the map. */
  function Lookup(groups: map<string, Group>, key: Option<string>): Option<Group>
  {
    if key.Some? && key.value in groups then Some(groups[key.value]) else None
  }

  // ---------------------------------------------------------------------------
  // Group pass: `_apply_groups`
  // ---------------------------------------------------------------------------

  /** `y.get('options', {})` */
  function OptionsOf<S>(spec: GroupSpec<S>): Options
  {
    spec.options.GetOr(Options(None, None))
  }

  /**
   * The create call for a configured group: description defaults to " " when
   * the key is absent (a null value is passed as `None`), VPC from `options['vpc']`.
   */
  function CreateCallFor<S>(entry: (string, GroupSpec<S>)): Call
  {
    var options := OptionsOf(entry.1);
    CreateSecurityGroup(entry.0, options.description.GetOr(Some(" ")), options.vpc)
  }

  /** An absent description becomes " "; a null one is passed on as `None`. */
  lemma CreateCallDescription<S>(name: string, vpc: Option<string>, rules: Option<seq<S>>)
    ensures CreateCallFor((name, GroupSpec(None, rules))).description == Some(" ")
    ensures CreateCallFor((name, GroupSpec(Some(Options(None, vpc)), rules))).description == Some(" ")
    ensures CreateCallFor((name, GroupSpec(Some(Options(Some(None), vpc)), rules))).description == None
  {
  }

  /** The create calls of the group pass, in configuration order. */
  function CreateCalls<S>(config: Config<S>, existingNames: seq<string>): seq<Call>
  {
    if config == [] then []
    else
      var last := config[|config| - 1];
      CreateCalls(config[..|config| - 1], existingNames) +
        (if last.0 in existingNames then [] else [CreateCallFor(last)])
  }

  lemma {:induction false} CreateCallsBound<S>(config: Config<S>, existingNames: seq<string>)
    ensures |CreateCalls(config, existingNames)| <= |config|
  {
    if config != [] {
      CreateCallsBound(config[..|config| - 1], existingNames);
    }
  }

  /** Every create call is the one for a configured group that does not exist yet. */
  lemma {:induction false} CreateCallsSound<S>(config: Config<S>, existingNames: seq<string>, c: Call)
    requires c in CreateCalls(config, existingNames)
    ensures exists i :: 0 <= i < |config| && config[i].0 !in existingNames && c == CreateCallFor(config[i])
  {
    var init := config[..|config| - 1];
    if c in CreateCalls(init, existingNames) {
      CreateCallsSound(init, existingNames, c);
      var i :| 0 <= i < |init| && init[i].0 !in existingNames && c == CreateCallFor(init[i]);
      assert config[i] == init[i];
    } else {
      assert c == CreateCallFor(config[|config| - 1]);
    }
  }

  /** Every configured group that does not exist yet gets its create call. */
  lemma {:induction false} CreateCallsComplete<S>(config: Config<S>, existingNames: seq<string>, i: nat)
    requires i < |config| && config[i].0 !in existingNames
    ensures CreateCallFor(config[i]) in CreateCalls(config, existingNames)
  {
    var init := config[..|config| - 1];
    if i < |init| {
      CreateCallsComplete(init, existingNames, i);
      assert config[i] == init[i];
    }
  }

  /** With unique configured names, no group is created twice. */
  lemma {:induction false} CreateCallsOncePerName<S>(config: Config<S>, existingNames: seq<string>)
    requires DistinctNames(config)
    ensures var calls := CreateCalls(config, existingNames);
      forall a, b :: 0 <= a < b < |calls| ==>
        calls[a].CreateSecurityGroup? && calls[b].CreateSecurityGroup? && calls[a].name != calls[b].name
  {
    if config != [] {
      var init := config[..|config| - 1];
      var last := config[|config| - 1];
      var prefix := CreateCalls(init, existingNames);
      var calls := CreateCalls(config, existingNames);
      assert DistinctNames(init);
      CreateCallsOncePerName(init, existingNames);
      forall a | 0 <= a < |prefix|
        ensures prefix[a].CreateSecurityGroup? && prefix[a].name != last.0
      {
        CreateCallsSound(init, existingNames, prefix[a]);
        var i :| 0 <= i < |init| && init[i].0 !in existingNames && prefix[a] == CreateCallFor(init[i]);
        assert init[i] == config[i];
      }
    }
  }

  /** Nothing is created once every configured group exists. */
  lemma {:induction false} CreateCallsNoneMissing<S>(config: Config<S>, existingNames: seq<string>)
    requires forall i :: 0 <= i < |config| ==> config[i].0 in existingNames
    ensures CreateCalls(config, existingNames) == []
  {
    if config != [] {
      CreateCallsNoneMissing(config[..|config| - 1], existingNames);
    }
  }

  // ---------------------------------------------------------------------------
  // Authorization pass: the rule loop of `apply`
  // ---------------------------------------------------------------------------

  /** `itertools.chain(*[Rule.parse(rule) for rule in stanzas])` */
  function Expand<S>(parse: S -> seq<Rule>, stanzas: seq<S>): seq<Rule>
  {
    if stanzas == [] then [] else parse(stanzas[0]) + Expand(parse, stanzas[1..])
  }

  lemma {:induction false} ExpandMember<S>(parse: S -> seq<Rule>, stanzas: seq<S>, r: Rule)
    ensures r in Expand(parse, stanzas) <==> exists k :: 0 <= k < |stanzas| && r in parse(stanzas[k])
  {
    if stanzas != [] {
      ExpandMember(parse, stanzas[1..], r);
      if r in Expand(parse, stanzas[1..]) {
        var k :| 0 <= k < |stanzas[1..]| && r in parse(stanzas[1..][k]);
        assert r in parse(stanzas[k + 1]);
      }
      if exists k :: 0 <= k < |stanzas| && r in parse(stanzas[k]) {
        var k :| 0 <= k < |stanzas| && r in parse(stanzas[k]);
        if k > 0 {
          assert r in parse(stanzas[1..][k - 1]);
        }
      }
    }
  }

  /** `y.get('rules')` is truthy: present and non-empty. */
  predicate HasRules<S>(spec: GroupSpec<S>)
  {
    spec.rules.Some? && |spec.rules.value| > 0
  }

  /** Lines 81-83: the peer resolves to a known group and the rule also has an address. */
  predicate Conflicts(rule: Rule, groups: map<string, Group>)
  {
    Lookup(groups, rule.groupName).Some? && Truthy(rule.address)
  }

  /** `group.authorize(...)` for one rule; the peer is `None` when its name is unknown. */
  function AuthorizeCall(target: Group, rule: Rule, groups: map<string, Group>): Call
  {
    Authorize(target, rule.protocol, rule.fromPort, rule.toPort, rule.address, Lookup(groups, rule.groupName))
  }

  /** `calls` made before `run`. */
  function Then(calls: seq<Call>, run: Run): Run
  {
    Run(calls + run.calls, run.outcome)
  }

  lemma ThenThen(a: seq<Call>, b: seq<Call>, run: Run)
    ensures Then(a, Then(b, run)) == Then(a + b, run)
  {
    assert a + (b + run.calls) == (a + b) + run.calls;
  }

  /** `first`, then `rest` unless `first` raised. */
  function AndThen(first: Run, rest: Run): Run
  {
    if first.outcome.Raised? then first else Then(first.calls, rest)
  }

  /** The inner loop of `apply` over one group's remaining rules. */
  function AuthorizeRules(target: Group, rules: seq<Rule>, groups: map<string, Group>): Run
  {
    if rules == [] then Run([], Done)
    else if Conflicts(rules[0], groups) then Run([], Raised(ConflictingGrant(target.name, rules[0])))
    else Then([AuthorizeCall(target, rules[0], groups)], AuthorizeRules(target, rules[1..], groups))
  }

  /** The rules `apply` authorizes on the group named `name`. */
  function PendingRules<S>(name: string, spec: GroupSpec<S>, groups: map<string, Group>, parse: S -> seq<Rule>): seq<Rule>
    requires name in groups && HasRules(spec)
  {
    Unmatched(Expand(parse, spec.rules.value), groups[name].rules)
  }

  /** The outer loop of `apply` over the configured groups. */
  function AuthorizeAll<S>(config: Config<S>, groups: map<string, Group>, parse: S -> seq<Rule>): Run
  {
    if config == [] then Run([], Done)
    else
      var (name, spec) := config[0];
      if name !in groups then Run([], Raised(KeyError(name)))
      else if !HasRules(spec) then AuthorizeAll(config[1..], groups, parse)
      else AndThen(AuthorizeRules(groups[name], PendingRules(name, spec, groups, parse), groups),
                   AuthorizeAll(config[1..], groups, parse))
  }

  /**
   * One group's authorize calls are its rules' calls, in order, up to the
   * first conflicting rule; that rule raises and no call is made for it.
   */
  lemma {:induction false} AuthorizeRulesInOrder(target: Group, rules: seq<Rule>, groups: map<string, Group>)
    ensures var run := AuthorizeRules(target, rules, groups);
      && |run.calls| <= |rules|
      && (forall i :: 0 <= i < |run.calls| ==>
            !Conflicts(rules[i], groups) && run.calls[i] == AuthorizeCall(target, rules[i], groups))
      && (run.outcome == Done <==> |run.calls| == |rules|)
      && (run.outcome != Done ==>
            && |run.calls| < |rules|
            && Conflicts(rules[|run.calls|], groups)
            && run.outcome == Raised(ConflictingGrant(target.name, rules[|run.calls|])))
  {
    if rules != [] && !Conflicts(rules[0], groups) {
      AuthorizeRulesInOrder(target, rules[1..], groups);
      var rest := AuthorizeRules(target, rules[1..], groups);
      var run := AuthorizeRules(target, rules, groups);
      assert run.calls == [AuthorizeCall(target, rules[0], groups)] + rest.calls;
      forall i | 1 <= i < |run.calls|
        ensures !Conflicts(rules[i], groups) && run.calls[i] == AuthorizeCall(target, rules[i], groups)
      {
        assert run.calls[i] == rest.calls[i - 1] && rules[i] == rules[1..][i - 1];
      }
    }
  }

  /** A rule `apply` still has to authorize on the group configured as `entry`. */
  predicate Pending<S>(entry: (string, GroupSpec<S>), r: Rule, groups: map<string, Group>, parse: S -> seq<Rule>)
  {
    entry.0 in groups && HasRules(entry.1) && r in PendingRules(entry.0, entry.1, groups, parse)
  }

  lemma PendingMeansUnmatched<S>(entry: (string, GroupSpec<S>), r: Rule, groups: map<string, Group>, parse: S -> seq<Rule>)
    requires entry.0 in groups && HasRules(entry.1)
    ensures Pending(entry, r, groups, parse) <==>
      r in Expand(parse, entry.1.rules.value) && !Matched(r, groups[entry.0].rules)
  {
    UnmatchedMember(Expand(parse, entry.1.rules.value), groups[entry.0].rules, r);
  }

  /**
   * Soundness of the authorization pass: every authorize call is for a rule
   * of a configured group that no existing permission of that group matches,
   * and that does not mix an address with a known peer group.
   */
  lemma {:induction false} AuthorizeAllSound<S>(config: Config<S>, groups: map<string, Group>, parse: S -> seq<Rule>, c: Call)
    requires c in AuthorizeAll(config, groups, parse).calls
    ensures exists i, r ::
      && 0 <= i < |config|
      && Pending(config[i], r, groups, parse)
      && !Conflicts(r, groups)
      && c == AuthorizeCall(groups[config[i].0], r, groups)
  {
    var (name, spec) := config[0];
    var rest := AuthorizeAll(config[1..], groups, parse);
    if c in rest.calls {
      AuthorizeAllSound(config[1..], groups, parse, c);
      var i, r :| 0 <= i < |config[1..]| && Pending(config[1..][i], r, groups, parse) &&
        !Conflicts(r, groups) && c == AuthorizeCall(groups[config[1..][i].0], r, groups);
      assert config[1..][i] == config[i + 1];
    } else {
      var pending := PendingRules(name, spec, groups, parse);
      var first := AuthorizeRules(groups[name], pending, groups);
      assert c in first.calls;
      AuthorizeRulesInOrder(groups[name], pending, groups);
      var j :| 0 <= j < |first.calls| && first.calls[j] == c;
      assert Pending(config[0], pending[j], groups, parse);
    }
  }

  /**
   * Completeness of the authorization pass: a pass that does not raise
   * authorizes every pending rule of every configured group.
   */
  lemma {:induction false} AuthorizeAllComplete<S>(config: Config<S>, groups: map<string, Group>, parse: S -> seq<Rule>, i: nat, r: Rule)
    requires AuthorizeAll(config, groups, parse).outcome == Done
    requires i < |config| && Pending(config[i], r, groups, parse)
    ensures AuthorizeCall(groups[config[i].0], r, groups) in AuthorizeAll(config, groups, parse).calls
  {
    var (name, spec) := config[0];
    var rest := AuthorizeAll(config[1..], groups, parse);
    var run := AuthorizeAll(config, groups, parse);
    var first := if HasRules(spec) then AuthorizeRules(groups[name], PendingRules(name, spec, groups, parse), groups)
                 else Run([], Done);
    assert run == Then(first.calls, rest) && rest.outcome == Done;
    if i == 0 {
      var pending := PendingRules(name, spec, groups, parse);
      AuthorizeRulesInOrder(groups[name], pending, groups);
      var j :| 0 <= j < |pending| && pending[j] == r;
      assert first.calls[j] == AuthorizeCall(groups[name], r, groups);
    } else {
      assert config[1..][i - 1] == config[i];
      AuthorizeAllComplete(config[1..], groups, parse, i - 1, r);
    }
  }

  /** A `KeyError` names a configured group that the second snapshot does not hold. */
  lemma {:induction false} AuthorizeAllKeyError<S>(config: Config<S>, groups: map<string, Group>, parse: S -> seq<Rule>)
    requires AuthorizeAll(config, groups, parse).outcome.Raised?
    ensures match AuthorizeAll(config, groups, parse).outcome.error
      case KeyError(name) => name !in groups && exists i :: 0 <= i < |config| && config[i].0 == name
      case ConflictingGrant(g, r) => Conflicts(r, groups) && exists i :: 0 <= i < |config| && Pending(config[i], r, groups, parse) && groups[config[i].0].name == g
  {
    var (name, spec) := config[0];
    var run := AuthorizeAll(config, groups, parse);
    if name in groups {
      var rest := AuthorizeAll(config[1..], groups, parse);
      if HasRules(spec) {
        var pending := PendingRules(name, spec, groups, parse);
        var first := AuthorizeRules(groups[name], pending, groups);
        AuthorizeRulesInOrder(groups[name], pending, groups);
        if first.outcome.Raised? {
          assert Pending(config[0], pending[|first.calls|], groups, parse);
          return;
        }
      }
      AuthorizeAllKeyError(config[1..], groups, parse);
      match run.outcome.error
      case KeyError(n) =>
        var i :| 0 <= i < |config[1..]| && config[1..][i].0 == n;
        assert config[i + 1].0 == n;
      case ConflictingGrant(g, r) =>
        var i :| 0 <= i < |config[1..]| && Pending(config[1..][i], r, groups, parse) && groups[config[1..][i].0].name == g;
        assert config[1..][i] == config[i + 1];
    }
  }

  /**
   * When the second snapshot holds every configured group and already grants
   * every expanded rule, the authorization pass makes no call and does not raise.
   */
  lemma {:induction false} AuthorizeAllNothingPending<S>(config: Config<S>, groups: map<string, Group>, parse: S -> seq<Rule>)
    requires forall i :: 0 <= i < |config| ==> config[i].0 in groups
    requires forall i, r :: 0 <= i < |config| ==> !Pending(config[i], r, groups, parse)
    ensures AuthorizeAll(config, groups, parse) == Run([], Done)
  {
    if config != [] {
      var (name, spec) := config[0];
      forall i, r | 0 <= i < |config[1..]| ensures !Pending(config[1..][i], r, groups, parse) {
        assert config[1..][i] == config[i + 1];
      }
      AuthorizeAllNothingPending(config[1..], groups, parse);
      if HasRules(spec) {
        var pending := PendingRules(name, spec, groups, parse);
        if pending != [] {
          assert Pending(config[0], pending[0], groups, parse);
        }
      }
    }
  }

  // ---------------------------------------------------------------------------
  // The reconciler object
  // ---------------------------------------------------------------------------

  class SecurityGroupsConfig<S> {
    const config: Config<S>
    var newGroupCount: nat
    var updatedGroupCount: nat
    /** The last snapshot loaded from the provider; `None` before the first reload. */
    var existingGroups: Option<seq<Group>>

    constructor (config: Config<S>)
      requires DistinctNames(config)
      ensures this.config == config
      ensures newGroupCount == 0 && updatedGroupCount == 0
      ensures existingGroups == None
    {
      this.config := config;
      newGroupCount := 0;
      updatedGroupCount := 0;
      existingGroups := None;
    }

    /** `filter_existing_rules`: keeps, in order, the rules no permission of `group` matches. */
    method FilterExistingRules(rules: seq<Rule>, group: Group) returns (tmp: seq<Rule>)
      ensures tmp == Unmatched(rules, group.rules)
    {
      tmp := [];
      for i := 0 to |rules|
        invariant tmp == Unmatched(rules[..i], group.rules)
      {
        var rule := rules[i];
        assert rules[..i + 1] == rules[..i] + [rule];
        UnmatchedAppend(rules[..i], [rule], group.rules);
        if !Matched(rule, group.rules) {
          tmp := tmp + [rule];
        }
      }
      assert rules[..|rules|] == rules;
    }

    /** `_apply_groups`: create each configured group missing from `vpcGroups`, count the rest. */
    method ApplyGroups(vpcGroups: seq<Group>) returns (created: seq<Call>)
      modifies this`newGroupCount, this`updatedGroupCount
      ensures created == CreateCalls(config, Names(vpcGroups))
      ensures newGroupCount == old(newGroupCount) + |created|
      ensures updatedGroupCount == old(updatedGroupCount) + |config| - |created|
    {
      var existingGroupNames := Names(vpcGroups);
      created := [];
      for k := 0 to |config|
        invariant created == CreateCalls(config[..k], existingGroupNames)
        invariant newGroupCount == old(newGroupCount) + |created|
        invariant updatedGroupCount == old(updatedGroupCount) + k - |created|
      {
        var (x, y) := config[k];
        assert config[..k + 1][..k] == config[..k];
        var options := OptionsOf(y);
        var desc := options.description.GetOr(Some(" "));
        if x !in existingGroupNames {
          created := created + [CreateSecurityGroup(x, desc, options.vpc)];
          newGroupCount := newGroupCount + 1;
        } else {
          updatedGroupCount := updatedGroupCount + 1;
        }
      }
      assert config[..|config|] == config;
    }

    /**
     * The rule loop of `apply` for one group: authorize each rule in order,
     * raising at the first one that names a known peer group and an address.
     */
    method AuthorizeGroupRules(group: Group, rules: seq<Rule>, groups: map<string, Group>)
      returns (calls: seq<Call>, outcome: Outcome)
      ensures Run(calls, outcome) == AuthorizeRules(group, rules, groups)
    {
      calls := [];
      var i := 0;
      while i < |rules|
        invariant 0 <= i <= |rules|
        invariant Then(calls, AuthorizeRules(group, rules[i..], groups)) == AuthorizeRules(group, rules, groups)
      {
        var rule := rules[i];
        assert rules[i..][0] == rule && rules[i..][1..] == rules[i + 1..];
        if Lookup(groups, rule.groupName).Some? && Truthy(rule.address) {
          assert AuthorizeRules(group, rules[i..], groups) == Run([], Raised(ConflictingGrant(group.name, rule)));
          assert calls + [] == calls;
          return calls, Raised(ConflictingGrant(group.name, rule));
        }
        var call := Authorize(group, rule.protocol, rule.fromPort, rule.toPort,
                              rule.address, Lookup(groups, rule.groupName));
        ghost var rest := AuthorizeRules(group, rules[i + 1..], groups);
        assert AuthorizeRules(group, rules[i..], groups) == Then([call], rest);
        ThenThen(calls, [call], rest);
        calls := calls + [call];
        i := i + 1;
      }
      outcome := Done;
    }

    /**
     * The loop of `apply` over the configuration after the second reload:
     * look the group up by name, expand and filter its rules, authorize them.
     */
    method AuthorizeConfigured(groups: map<string, Group>, parse: S -> seq<Rule>)
      returns (calls: seq<Call>, outcome: Outcome)
      ensures Run(calls, outcome) == AuthorizeAll(config, groups, parse)
    {
      calls := [];
      var k := 0;
      while k < |config|
        invariant 0 <= k <= |config|
        invariant Then(calls, AuthorizeAll(config[k..], groups, parse)) == AuthorizeAll(config, groups, parse)
      {
        var (x, y) := config[k];
        assert config[k..][1..] == config[k + 1..];
        if x !in groups {
          return calls, Raised(KeyError(x));
        }
        var group := groups[x];
        if HasRules(y) {
          var rules := Expand(parse, y.rules.value);
          rules := FilterExistingRules(rules, group);
          var authorized, raised := AuthorizeGroupRules(group, rules, groups);
          calls := calls + authorized;
          if raised.Raised? {
            return calls, raised;
          }
        }
        k := k + 1;
      }
      outcome := Done;
    }

    /**
     * `apply`: reload, create the missing groups of the VPC, reload, then
     * authorize every configured rule not yet granted. The two reloads read
     * `snapshot1` and `snapshot2`; `parse` is the rule parser.
     */
    method Apply(vpc: Vpc, snapshot1: seq<Group>, snapshot2: seq<Group>, parse: S -> seq<Rule>)
      returns (log: seq<Call>, outcome: Outcome)
      modifies this`existingGroups, this`newGroupCount, this`updatedGroupCount
      ensures existingGroups == Some(snapshot2)
      ensures var created := CreateCalls(config, Names(VpcGroups(snapshot1, vpc)));
        var run := AuthorizeAll(config, GroupsByName(snapshot2), parse);
        && newGroupCount == old(newGroupCount) + |created|
        && updatedGroupCount == old(updatedGroupCount) + |config| - |created|
        && log == created + run.calls
        && outcome == run.outcome
    {
      existingGroups := Some(snapshot1);
      var vpcGroups := VpcGroups(snapshot1, vpc);
      var created := ApplyGroups(vpcGroups);

      existingGroups := Some(snapshot2);
      vpcGroups := snapshot2;
      var groups := GroupsByName(vpcGroups);
      var authorized;
      authorized, outcome := AuthorizeConfigured(groups, parse);
      log := created + authorized;
    }
  }

  /**
   * A run over a snapshot that already holds every configured group of the
   * VPC, each granting all of its expanded rules, creates nothing and
   * authorizes nothing.
   */
  lemma SecondRunIsQuiet<S>(config: Config<S>, vpc: Vpc, snapshot1: seq<Group>, snapshot2: seq<Group>, parse: S -> seq<Rule>)
    requires forall i :: 0 <= i < |config| ==> config[i].0 in Names(VpcGroups(snapshot1, vpc))
    requires forall i :: 0 <= i < |config| ==> config[i].0 in GroupsByName(snapshot2)
    requires forall i, r :: 0 <= i < |config| ==> !Pending(config[i], r, GroupsByName(snapshot2), parse)
    ensures CreateCalls(config, Names(VpcGroups(snapshot1, vpc))) == []
    ensures AuthorizeAll(config, GroupsByName(snapshot2), parse) == Run([], Done)
  {
    CreateCallsNoneMissing(config, Names(VpcGroups(snapshot1, vpc)));
    AuthorizeAllNothingPending(config, GroupsByName(snapshot2), parse);
  }

  lemma ExpandSingle<S>(parse: S -> seq<Rule>, stanza: S)
    ensures Expand(parse, [stanza]) == parse(stanza)
  {
    assert [stanza][1..] == [];
    assert parse(stanza) + [] == parse(stanza);
  }

  lemma GroupsByNameSingle(g: Group)
    ensures GroupsByName([g]) == map[g.name := g]
  {
    assert [g][..0] == [];
  }

  /** A group with no permissions gets exactly one authorize call for a single CIDR rule. */
  lemma SingleRuleOnEmptyGroup<S>(web: Group, stanza: S, parse: S -> seq<Rule>, r: Rule)
    requires web.rules == [] && r.groupName == None
    requires parse(stanza) == [r]
    ensures AuthorizeAll([(web.name, GroupSpec(None, Some([stanza])))], GroupsByName([web]), parse)
      == Run([Authorize(web, r.protocol, r.fromPort, r.toPort, r.address, None)], Done)
  {
    var config := [(web.name, GroupSpec(None, Some([stanza])))];
    var groups := GroupsByName([web]);
    GroupsByNameSingle(web);
    ExpandSingle(parse, stanza);
    UnmatchedNoPermissions([r]);
    assert PendingRules(web.name, config[0].1, groups, parse) == [r];
    var call := Authorize(web, r.protocol, r.fromPort, r.toPort, r.address, None);
    assert [r][1..] == [];
    assert AuthorizeRules(web, [r], groups) == Then([call], Run([], Done));
    assert config[1..] == [];
    assert AuthorizeAll(config, groups, parse) == AndThen(Run([call], Done), Run([], Done));
  }

  /** The same rule is skipped once the group holds a permission granting its CIDR. */
  lemma SingleRuleAlreadyGranted<S>(web: Group, stanza: S, parse: S -> seq<Rule>, r: Rule)
    requires web.rules == [Permission(r.protocol, r.fromPort, r.toPort, [Grant(r.address, None)])]
    requires r.groupName == None
    requires parse(stanza) == [r]
    ensures AuthorizeAll([(web.name, GroupSpec(None, Some([stanza])))], GroupsByName([web]), parse) == Run([], Done)
  {
    var config := [(web.name, GroupSpec(None, Some([stanza])))];
    var groups := GroupsByName([web]);
    GroupsByNameSingle(web);
    ExpandSingle(parse, stanza);
    assert Eq(web.rules[0], r) by {
      assert web.rules[0].grants[0].cidrIp == r.address;
    }
    UnmatchedAllMatched([r], web.rules);
    assert PendingRules(web.name, config[0].1, groups, parse) == [];
    assert config[1..] == [];
  }
}
