# roadhouse security-group reconciler, modelled in Dafny

roadhouse keeps a cloud account's security groups in line with a
declarative configuration. `SecurityGroupsConfig` (in `roadhouse/group.py`)
does this in one `apply` run:

1. It reloads the provider's groups and keeps those of the given VPC.
2. The group pass (`_apply_groups`) creates every configured group missing
   from that VPC. It counts created groups in `new_group_count` and the
   others in `updated_group_count`.
3. It reloads again and maps every group's name to the group.
4. The authorization pass expands each configured group's rule stanzas into
   atomic rules. It drops those some existing permission already grants
   (`filter_existing_rules` and its predicate `eq`). It then authorizes the
   rest in order. It raises when a rule names a known peer group and also
   carries an address.

The model has three modules:

- `Wrappers` (`wrappers.dfy`): `Option`, which stands for Python's `None`
  and `dict.get` with a default.
- `Seqs` (`seqs.dfy`): an order-preserving `Filter` with its lemmas. It is
  the shape of both the list comprehension in `vpc_groups` and the
  append loop in `filter_existing_rules`.
- `SecurityGroups` (`security_groups.dfy`): the provider snapshot types
  (`Grant`, `Permission`, `Group`), the desired state (`Rule`, `GroupSpec`,
  `Config`), the matcher, the specification functions of the two passes,
  the class `SecurityGroupsConfig` and the lemmas.

How the outside world is represented:

- The provider is two immutable snapshots, `snapshot1` and `snapshot2`.
  They stand for the two `reload_remote_groups` calls.
- Every `create_security_group` and `authorize` call goes into a returned
  log (`seq<Call>`).
- A raised exception becomes an `Outcome` returned beside the log. The log
  keeps the calls made before the raise.
- `Rule.parse` is a parameter `parse: S -> seq<Rule>`. It is never looked
  into. `S` is the type of a raw rule stanza.
- The configuration dictionary is the sequence of its items in iteration
  order, with unique keys.

Each method of the class is proved against a specification function:

| method | specification function |
|---|---|
| `FilterExistingRules` | `Unmatched` |
| `ApplyGroups` | `CreateCalls` |
| `AuthorizeGroupRules` | `AuthorizeRules` |
| `AuthorizeConfigured` | `AuthorizeAll` |

`Apply` is proved equal to the group pass followed by the authorization
pass. The lemmas then state what the source promises about these functions.

Python truthiness is modelled where the source relies on it:

- `rule.address` and `rule.group_name` count only when they are present and
  non-empty (`Truthy`).
- `y.get('rules')` counts only when the list is present and non-empty
  (`HasRules`).
- A group object returned by `groups.get` is always truthy.

`not filter(...)` is the Python 2 idiom for "no element satisfies". It is
modelled as a negated existential (`Matched`, `HasCidrGrant`,
`HasNamedGrant`).

Behaviour of `group.py` worth noting:

- The conflicting-grant error is raised inside the rule loop
  (`roadhouse/group.py:80-83`), after the group's earlier rules have been
  authorized. Those calls stay made.
- The conflict is checked only on rules that survive filtering
  (`roadhouse/group.py:78-83`).
- The name map of the authorization pass is built from every group of the
  second snapshot, whatever its VPC (`roadhouse/group.py:65`, `68`). When two
  groups share a name, the later one in the snapshot wins
  (`GroupsByNameLastWins`, `GroupsByNameIgnoresVpc`).
- Nothing forces a rule to carry exactly one of an address and a peer
  group (`roadhouse/group.py:81-91`, `124-134`). The matcher and the
  authorization pass accept any combination.
- A group's description is the configured value, passed on as it is when it
  is null, and `" "` only when the key is absent (`roadhouse/group.py:149-150`, `155`).

## Model

| member | source | states |
|---|---|---|
| `SecurityGroups.EqIsCovers` | roadhouse/group.py:105-138 | `eq` holds exactly when protocol, from-port and to-port are equal, and a grant carries the rule's CIDR if it has an address, and a grant carries the rule's peer name if it has a group name. The order of the early returns does not matter. |
| `SecurityGroups.EqNeedsSameProtocolAndPorts` | roadhouse/group.py:110-120 | A permission that differs from the rule in protocol, from-port or to-port never matches. |
| `SecurityGroups.EqAddressNeedsCidrGrant` | roadhouse/group.py:124-126 | A match for a rule with an address has a grant whose `cidr_ip` equals that address. |
| `SecurityGroups.EqGroupNameNeedsNamedGrant` | roadhouse/group.py:129-134 | A match for a rule with a group name has a grant whose `name` equals it. |
| `SecurityGroups.EqBareRuleOnPortsAlone` | roadhouse/group.py:110-138 | A rule with neither an address nor a group name matches exactly the permissions with the same protocol and ports. |
| `SecurityGroups.EqAddressNotMatchedByPeerGrants` | roadhouse/group.py:124-126 | An address rule is never matched by a permission whose grants are all peer-group grants, whatever its protocol and ports. |
| `SecurityGroups.UnmatchedMember` | roadhouse/group.py:140-141 | A rule is in the filtered list exactly when it is in the input and no permission of the group matches it. |
| `SecurityGroups.UnmatchedAppend` | roadhouse/group.py:102-142 | Filtering distributes over concatenation, so the kept rules stay in input order. |
| `SecurityGroups.UnmatchedMultiplicity` | roadhouse/group.py:102-142 | An unmatched rule occurs in the output as often as in the input (duplicates kept). A matched rule never occurs. |
| `SecurityGroups.UnmatchedNoPermissions` | roadhouse/group.py:140-142 | With an empty permission list the input comes back unchanged. |
| `SecurityGroups.UnmatchedIdempotent` | roadhouse/group.py:96-142 | Filtering the filtered list against the same group changes nothing. |
| `SecurityGroups.UnmatchedAllMatched` | roadhouse/group.py:140-142 | When every rule is already granted the filtered list is empty. |
| `SecurityGroups.SecurityGroupsConfig.FilterExistingRules` | roadhouse/group.py:96-142 | The append loop returns exactly `Unmatched(rules, group.rules)`, the order-preserving filter described by the lemmas above. |
| `SecurityGroups.VpcGroupsMember` | roadhouse/group.py:39-40 | `vpc_groups` keeps exactly the snapshot's groups whose `vpc_id` equals the VPC's id. |
| `SecurityGroups.VpcGroupsAppend` | roadhouse/group.py:39-40 | `vpc_groups` distributes over concatenation of snapshots, so snapshot order is kept. |
| `SecurityGroups.GroupsByNameLastWins` | roadhouse/group.py:68 | The name map has a key for exactly the snapshot's names. Each key holds the last group of the snapshot with that name. |
| `SecurityGroups.GroupsByNameIgnoresVpc` | roadhouse/group.py:60-68 | Example: with a `web` group in two VPCs, the map holds the one outside the applied VPC, while `vpc_groups` keeps only the other. |
| `SecurityGroups.CreateCallsBound` | roadhouse/group.py:148-160 | The group pass makes at most one create call per configured group. |
| `SecurityGroups.CreateCallsSound` | roadhouse/group.py:147-157 | Every create call is for a configured name missing from the VPC's groups. It carries that group's configured description (`None` when it is null, `" "` when the key is absent) and its `options['vpc']`. |
| `SecurityGroups.CreateCallDescription` | roadhouse/group.py:149-155 | An absent description, or absent options, gives `" "`. A null description is passed on as `None`. |
| `SecurityGroups.CreateCallsComplete` | roadhouse/group.py:149-157 | Every configured name missing from the VPC's groups gets its create call. |
| `SecurityGroups.CreateCallsOncePerName` | roadhouse/group.py:148-157 | With unique configured names, no two create calls share a name. With the two lemmas above: exactly one call per missing group. |
| `SecurityGroups.CreateCallsNoneMissing` | roadhouse/group.py:152-160 | Once every configured group exists in the VPC, nothing is created. |
| `SecurityGroups.SecurityGroupsConfig.constructor` | roadhouse/group.py:27-33 | A new reconciler holds the configuration, both counters at zero and no snapshot. |
| `SecurityGroups.SecurityGroupsConfig.ApplyGroups` | roadhouse/group.py:146-160 | The calls made are `CreateCalls` for the VPC's names. `new_group_count` grows by their number. `updated_group_count` grows by the rest, so their sum grows by the number of configured groups. |
| `SecurityGroups.ExpandMember` | roadhouse/group.py:75-76 | A rule is in the flattened list exactly when some stanza's parse yields it. |
| `SecurityGroups.PendingMeansUnmatched` | roadhouse/group.py:75-78 | A rule left to authorize on a group is one of its expanded rules that no existing permission of the group matches. |
| `SecurityGroups.AuthorizeRulesInOrder` | roadhouse/group.py:80-91 | A group's authorize calls follow its filtered rules in order, one per rule. Each passes the rule's protocol, ports and address, and the peer `groups.get(group_name)`, which is `None` for an unknown name. The calls stop at the first rule with a known peer and an address. That rule raises, no call is made for it, and the earlier calls stay. |
| `SecurityGroups.SecurityGroupsConfig.AuthorizeGroupRules` | roadhouse/group.py:80-91 | The rule loop of one group returns exactly the calls and outcome of `AuthorizeRules`. |
| `SecurityGroups.AuthorizeAllSound` | roadhouse/group.py:70-91 | Every authorize call is for a configured group of the second snapshot. Its rule is one no existing permission of that group grants, and it does not mix an address with a known peer. |
| `SecurityGroups.AuthorizeAllComplete` | roadhouse/group.py:70-91 | When the pass does not raise, every rule still missing on every configured group is authorized. |
| `SecurityGroups.AuthorizeAllKeyError` | roadhouse/group.py:70-83 | A raised `KeyError` names a configured group absent from the second snapshot. A raised conflict names a pending rule with a known peer and an address, on the group it was raised for. |
| `SecurityGroups.AuthorizeAllNothingPending` | roadhouse/group.py:70-91 | When every configured group exists and already grants all its expanded rules, the pass makes no call and does not raise. |
| `SecurityGroups.SecurityGroupsConfig.AuthorizeConfigured` | roadhouse/group.py:70-92 | The loop over the configuration returns exactly the calls and outcome of `AuthorizeAll`. |
| `SecurityGroups.SecurityGroupsConfig.Apply` | roadhouse/group.py:53-94 | The log is the group pass's create calls followed by the authorization pass over the name map of the second snapshot. The outcome is that pass's outcome. The counters move as in `ApplyGroups`. The second snapshot is the one kept. |
| `SecurityGroups.SecondRunIsQuiet` | roadhouse/group.py:53-91 | A run whose snapshots already hold every configured group, each granting all its rules, creates nothing, authorizes nothing and does not raise. |
| `SecurityGroups.SingleRuleOnEmptyGroup` | roadhouse/group.py:70-142 | A group with no permissions and a single CIDR rule gets exactly one authorize call, with that rule's protocol, ports and address and no peer. |
| `SecurityGroups.SingleRuleAlreadyGranted` | roadhouse/group.py:70-142 | The same rule makes no call once the group holds a permission granting its CIDR on those ports. |

## Left out

- `load` (YAML file reading) is not modelled: the configuration is taken as an already-built mapping.
- `configure` and the `ec2` connection are not modelled. `reload_remote_groups` becomes the two snapshot parameters of `Apply`.
- Provider failures of `create_security_group` and `authorize` are not modelled: every call is assumed to succeed and is only logged.
- The `SecurityGroup` value that `create_security_group` returns is not modelled; the source does not use it.
- boto's own update of a group's local permission list after `authorize` is not modelled. The source filters each group's rules once, before its loop, so that update does not change which calls are made.
- `Rule.parse` and its errors are left out: the parser is not part of this model, so it is an uninterpreted parameter that always succeeds.
- `sync` is left out: it is a wrapper that calls `apply` without its required `vpc` argument.
- Logging calls and the `isinstance` assertion on boto's permission type are left out; they have no other effect.
- Ports are compared as integers on both sides. Whatever types the provider library and the parser actually produce is not modelled.
- A configured group whose body, or whose `options` value, is `null` in YAML would crash the source on `.get`. The model assumes a mapping, possibly with absent keys; values inside `options` may be null.
- Python 2's dictionary iteration order is not fixed: the model takes the configuration in whatever order its sequence lists it.
