# Suite Cloud, verified

Suite Cloud is a control plane: it keeps records and makes outside systems agree with them in spite of
crashes, retries and concurrent work. This project models its state machines and small compilers in
Dafny and proves what they are for. `dafny verify dfyconfig.toml` checks everything.

| files | what they model |
|---|---|
| `Json`, `Paths`, `PlanApplier`, `Convergence`, `Separation`, `PlanRuns`, `PlanTheorems`, `MatchKeys`, `Delivery`, `Drift`, `DriftExactly` | applying a plan to a Stalwart server, and the drift check that compares the two |
| `IndexedList`, `Egress`, `EgressTheorems` | the compiler of a cluster's outbound route expression |
| `SendingLimits`, `LimitsProtocol` | recipient counters in Redis, seeded from and flushed to stored rows |
| `ConfigPush`, `ConfigPushTheorems` | queued configuration pushes: mark, hook, job, lock, snapshot |
| `Metrics`, `MetricTotals` | the changes of running totals, per chunk and over the whole table |
| `Staging`, `Shipping`, `ShippingTheorems` | telemetry batches: shipper, staging directory, loader |
| `DnsRecords`, `DnsTheorems` | DNS Records of several owners and the provider's records |
| `Credentials`, `CredentialTheorems` | an account's app passwords and API keys, and the rows that mirror them |
| `Spf`, `SpfEvaluation` | splitting SPF, and evaluating the include chain (RFC 7208) |
| `Zone`, `ZoneTheorems`, `ZoneReading` | logical lines and records of a zone file (RFC 1035, section 5.1) |
| `Hosting`, `Progress` | the life of a hosted site; the steps of a tenant request |
| `Strings`, `Wrappers` | Python string methods; option and result types |

A class or method runs a piece of the program step by step and is proved equal to a function, or to state
a relation between old and new state; the lemmas prove what the program promises about that function or
relation. A protocol is a set of atomic actions that may interleave in any order, and its theorems hold
after every run.

Where the code does less than its documentation says, the exact condition is proved:

* `egress.py` says a foreign fallback of the route strategy is preserved. It is, until a push had a default
  pool or could not read the strategy; after that a cluster without a default pool delivers directly
  (`EgressTheorems.FallbackOverHistory`). Foreign rules survive if and only if every push could read them
  (`EgressTheorems.ForeignRulesSurvive`).
* Two values of one type that no shared match key tells apart may disturb each other: a plan of two is a no-op
  the second time on every server if and only if the later value neither moves another object to where the
  earlier one looks nor overwrites it (`MatchKeys.IdempotentExactly`).
* The drift check misses what it compares loosely: a reference shown with another id, a key beyond the wanted
  ones, a secret inside a value, and nothing else (`DriftExactly.ChangeIsReportedExactly`).
* A second apply reports as updated exactly the objects whose visible properties hold a nested secret
  (`PlanTheorems.ApplyTwice`), since a read never echoes those.
* `load_pending` says a backlog drains in one run. It does if and only if no damaged file lies in a chunk
  with more files behind it: the chunk comes out short, which reads as the last one
  (`Staging.DrainsInOneRun`).
* A split SPF list passes exactly the listed addresses if and only if it has at most nine children: section
  4.6.4 of RFC 7208 allows ten lookups, one of which reaches the list. The check on the parent's length
  lets ten children through for a short zone name: forty-six IPv6 addresses are enough
  (`SpfEvaluation.TenChildrenGoThrough`). A domain with lookups of its own leaves fewer to the children
  (`SpfEvaluation.IncluderPassesExactlyListed`).
* A restart whose first total is not below the last one loses that last total, unless it was zero
  (`MetricTotals.IncreasesAreGrowth`).
* Two values a provider does not tell apart share one provider record: removing one takes the other's
  (`DnsTheorems.SharedPlaceIsLost`, `DnsTheorems.KeptRowStaysPublished`).
* A push that meets its record with another TTL deletes it before it creates it. When the create fails, a row
  of another owner stays confirmed without a record (`DnsTheorems.ConfirmedGoesMissing`,
  `DnsTheorems.ConfirmedWithoutRecord`).
* A failed delete of a removed row's record is swallowed: the record stays, and nothing knows of it
  (`DnsTheorems.RecordIsOrphaned`). A reconciliation that rolls back does not undo its deletes at the
  provider: its rows are there again, confirmed, without their records
  (`DnsTheorems.RecordIsLostByRollback`). Apart from these and the pushes that break off the provider holds
  exactly what the rows want (`DnsTheorems.ProviderHoldsTheUnion`).
* A configuration push that is killed leaves its changes to nobody, unless a later job, a hook or a failure
  stands for them; killed before it clears its mark it also hides the next change
  (`ConfigPushTheorems.LosesNothingExactly`, `ConfigPushTheorems.KilledJobLosesChange`).
* A rolled back save leaves the credentials it had created when the revoke fails too
  (`CredentialTheorems.Save`, `CredentialTheorems.FailedRevokeLeavesCredential`).
* An account made again under a name whose counters live is forgotten by the flush, unless each counter ahead
  of its row is touched or still to be flushed (`LimitsProtocol.RecreationIsSafeExactly`). The loss of one of the
  two sets of members alone has conditions of the same kind (`LimitsProtocol.TouchedLossIsSafeExactly`,
  `LimitsProtocol.FlushingLossIsSafeExactly`).
* Enabling an account mints no login: an account adopted while disabled stays without one until its next
  save (`CredentialTheorems.EnablingMintsNothing`).
* A rotation of a tenant's secret writes to the site as it first read it, and pushes the secret before it
  commits. It can end in an active site without the current secret if and only if the site has changed since
  in one of three ways when it commits, or holds the new secret when it dies
  (`Hosting.RotationGoesStaleExactly`, `Hosting.RotationReadTooEarly`, `Hosting.RotationDiesAfterPush`). It can
  bring a dropped site back, and so can a retry (`Hosting.DroppedComesBackExactly`, `Hosting.RotationRevives`,
  `Hosting.RetryRevives`). A site resumed after its activation failed is active without an activation time
  (`Hosting.ActiveWithoutActivation`).
* A parenthesis that is never closed loses the rest of the zone file without a word
  (`ZoneReading.UnclosedIsLost`).
* Runs of whitespace inside a quoted string collapse when the line holds a parenthesis, even a quoted one
  (`ZoneTheorems.QuotedParenCollapses`).

## Model

| member | source | states |
|---|---|---|
| PlanTheorems.ApplyTwice | suite_cloud/mail/stalwart/client.py:145-231 | For any start state and any plan of upserts and singleton updates with unique labels in which no value disturbs an earlier one of its type (in particular when a shared match key tells them apart): applying twice leaves the server exactly as once, binds every label to the same id, and reports as updated the singletons and exactly the objects a read does not echo |
| PlanTheorems.ApplyIsRunSteps | suite_cloud/mail/stalwart/client.py:162-194 | Matching against one list read per operation and patched locally gives the same result as reading the server again before every value, when the values of one operation do not share its match keys |
| PlanTheorems.ApplyLeavesAlone | suite_cloud/mail/stalwart/client.py:162-207 | For a plan with unique labels: no object is lost or moved, an object no label is bound to is left as it was, and credentials an object has are never overwritten |
| MatchKeys.IdempotentExactly | suite_cloud/mail/stalwart/client.py:162-194 | For two values of one type without references and secrets: applying the plan twice is applying it once on every server if and only if the later value does not disturb the earlier one |
| MatchKeys.ApartIsUndisturbed | suite_cloud/mail/stalwart/client.py:162-194 | Two values that a match key of both tells apart never disturb each other |
| MatchKeys.TwoKeyListsAreNotIdempotent | suite_cloud/mail/stalwart/client.py:162-194 | A plan with unique labels and two match-key lists for one type, and a server on which applying it again binds a label to another object |
| Separation.UndisturbedStaysSettled | suite_cloud/mail/stalwart/client.py:170-194 | On any collection, a later value that does not disturb a settled one leaves it settled on the same object |
| PlanApplier.Applier.Apply | suite_cloud/mail/stalwart/client.py:145-160 | The applier object, operation by operation, ends in the state, report and error of the plan's meaning |
| PlanApplier.Applier.ApplyUpsert | suite_cloud/mail/stalwart/client.py:162-194 | The upsert loop over its list of existing objects equals the plan's meaning of an upsert, whose effect Delivery.PutMeans and Delivery.ApplyDelivers state |
| Delivery.PutMeans | suite_cloud/mail/stalwart/client.py:162-194 | One value against the server: an unbound reference stops it; otherwise it goes to the first object a read shows with its match properties, or a new one; there every secret is sent, any other property where it looks changed, credentials never, and all else stays; the object counts as updated if and only if a property looked changed |
| Delivery.UpsertSteps | suite_cloud/mail/stalwart/client.py:162-194 | The values of an upsert in order, matched on the given properties or else the name |
| Delivery.ApplyDelivers | suite_cloud/mail/stalwart/client.py:145-194 | After an apply of any readable plan with unique labels, each upserted value is on the object its label is bound to, every secret as it was sent, except for properties a later value has for that object; a new object holds its value's properties and no others |
| Delivery.ApplyHoldsAll | suite_cloud/mail/stalwart/client.py:145-194 | If no value disturbs an earlier one, every value of the plan is on its object in full after the apply, every secret as it was sent |
| Delivery.ApplyWrites | suite_cloud/mail/stalwart/client.py:196-207 | After an apply a singleton's property is what the last update that has it sent, or what it was if none has |
| Delivery.UpdateMeans | suite_cloud/mail/stalwart/client.py:196-203 | An update by id sends its whole value to the object of that id and no other, and fails where there is none |
| Delivery.NeedsAnId | suite_cloud/mail/stalwart/client.py:203-207 | An update without an id goes through exactly for a singleton type |
| Delivery.DestroyMeans | suite_cloud/mail/stalwart/client.py:210-217 | A destroy deletes exactly the objects its filter selects, in order, and reports them |
| Paths.ResolvesExactly | suite_cloud/mail/stalwart/client.py:219-231 | Place by place, resolving replaces each reference by its label's id and nothing else |
| Paths.KeyResolves | suite_cloud/mail/stalwart/client.py:219-231 | A key that is a reference becomes its label's id and keeps its value |
| Paths.ResolvableExactly | suite_cloud/mail/stalwart/client.py:219-231 | A tree without references in its keys resolves if and only if every reference in it is bound |
| Paths.ReadShowsExactly | suite_cloud/mail/stalwart/client.py:111-122 | A read shows exactly the places no secret leads to, as they are |
| Drift.NoDriftAfterApply | suite_cloud/mail/cluster/plan.py:566-616 | Right after a plan is applied the drift check finds no difference, though it compares unresolved refs, parts of objects and no secrets; `#` keys and refs in match keys aside |
| Drift.DriftIsSent | suite_cloud/mail/cluster/plan.py:589-599 | Every property the drift check reports of an object is one the next apply sends |
| Drift.DriftReport | suite_cloud/mail/cluster/plan.py:566-586 | The report loops find exactly the differences of the plan, which DriftExactly.DriftIsExactly states |
| DriftExactly.DriftIsExactly | suite_cloud/mail/cluster/plan.py:566-616 | The report holds a difference if and only if an upserted value matches no object shown, or a property of the first object it matches or of a singleton, no secret, does not agree place by place with what is shown |
| DriftExactly.ChangeIsReportedExactly | suite_cloud/mail/cluster/plan.py:589-616 | Of what the next apply would change visibly the report misses exactly the properties that agree at every place and hide something at one: a reference with another id, a key beyond the wanted ones, or a secret |
| Paths.SameValueExactly | suite_cloud/mail/cluster/plan.py:602-616 | The comparison holds if and only if at every place of the wanted value no secret leads to the shown one has an equal leaf, any text for a reference, a list as long, or an object |
| Paths.IsResolvedExactly | suite_cloud/mail/cluster/plan.py:602-616 | A shown value is the resolved one if and only if the comparison holds and nothing is hidden at any place |
| Drift.AssertUniqueLabels | suite_cloud/mail/cluster/plan.py:482-494 | None is returned exactly when no two values of the whole plan share a label |
| Json.SentValueIsSame | suite_cloud/mail/cluster/plan.py:602-616 | The drift comparison accepts what the server shows of a resolved value against the unresolved one, for every JSON tree |
| Json.StripIsIdempotent | suite_cloud/mail/stalwart/client.py:113-117 | Reading what was read changes nothing, at any depth |
| IndexedList.ListRoundTrip | suite_cloud/mail/cluster/egress.py:190-196 | A list of any length keyed by decimal indices comes back as written, in whatever order the server returns the keys |
| EgressTheorems.CompiledRouteIsIntended | suite_cloud/mail/cluster/egress.py:147-187 | First-match evaluation of the compiled expression gives every message the intended route: local when held here or its local domain does not relay; else the pool the sender's enabled domain leaves through (its own, else its tenant's, else the cluster's, with an address), unless that is the cluster's; else the first rule that holds of those the strategy had with neither a local nor an egress target; else the default pool or the kept fallback |
| EgressTheorems.RecompileIsFixpoint | suite_cloud/mail/cluster/egress.py:147-170 | Compiling from the written form, read back in any key order, writes it again |
| EgressTheorems.ForeignRulesSurvive | suite_cloud/mail/cluster/egress.py:147-196 | Over any history in which every push could read the strategy, what stands behind the last push's own rules are exactly the starting rules whose target is missing or neither local nor an egress route, each in its place among them; after an unread push none of them is left |
| EgressTheorems.FallbackOverHistory | suite_cloud/mail/cluster/egress.py:147-170 | The fallback after any history: the default pool's route; else the one at the start if no push replaced it and it was no pool's; else direct delivery |
| EgressTheorems.EveryEgressRouteIsUpserted | suite_cloud/mail/cluster/egress.py:97-140 | No rule and no fallback names an egress route the same push does not upsert |
| EgressTheorems.RoutedPoolsAre | suite_cloud/mail/cluster/egress.py:97-140 | A route is upserted exactly for the pools an enabled domain leaves through and the populated default pool |
| Egress.BuildRouteExpression | suite_cloud/mail/cluster/egress.py:147-170 | The loop that appends local, pool and kept rules builds the compiled expression, whose meaning EgressTheorems states |
| Egress.GroupDomains | suite_cloud/mail/cluster/egress.py:60-80 | The loop that groups enabled domains by populated pool builds the grouping the compiler uses |
| LimitsProtocol.NoRecipientIsForgotten | suite_cloud/mail/sending_limits.py:164-203 | Under any interleaving of checks, seeds, losses of counters and sets and one flusher that may crash anywhere, with accounts deleted, made again over ready counters, and sets lost only where their counters are ready without them: a reportable counter of an existing account ahead of its row is in one of the two sets, and once both are empty every row holds its counter |
| LimitsProtocol.StoredNeverDecreases | suite_cloud/mail/doctype/mail_send_usage/mail_send_usage.py:122-179 | Over any run stored counts never decrease unless the row is deleted or pruned |
| LimitsProtocol.AcceptedIsCounted | suite_cloud/mail/sending_limits.py:35-64 | Conservation: recipients accepted in a period equal the counter's growth plus what losses forgave, whatever happens in between |
| LimitsProtocol.AcceptedWithinLimit | suite_cloud/mail/sending_limits.py:35-64 | With a constant limit, accepted recipients never pass it by more than the count at each Redis loss less the seed it restarted from |
| LimitsProtocol.LimitHoldsWithoutLosses | suite_cloud/mail/sending_limits.py:83-96 | Without losses the limit is never exceeded, however many workers race to seed a counter |
| LimitsProtocol.AttemptIsAcceptedExactly | suite_cloud/mail/sending_limits.py:35-64 | With both counters there a recipient is accepted if and only if both are below their limits, whatever seed a worker brings |
| LimitsProtocol.AcceptsUpToTheLimit | suite_cloud/mail/sending_limits.py:35-64 | Without losses and with the month's limit not reached, exactly as many of a day's attempts are accepted as its limit leaves, whatever happens in between |
| LimitsProtocol.SeedIsStored | suite_cloud/mail/sending_limits.py:132-142 | A seed is what the stored rows hold |
| LimitsProtocol.PrunedStaysPruned | suite_cloud/mail/doctype/mail_send_usage/mail_send_usage.py:192-210 | A row pruned once its period is no longer reportable never comes back, over any run |
| LimitsProtocol.RecreationIsSafeExactly | suite_cloud/mail/doctype/mail_account/mail_account.py:198-203 | An account made under a name used before: nothing is forgotten afterwards, over any run, if and only if every live reportable counter of the name that is ahead of its row is touched, or being flushed by a flusher that has neither read past it nor taken its snapshot of the accounts without the name |
| LimitsProtocol.SafeExactly | suite_cloud/mail/sending_limits.py:164-203 | From any state: nothing is forgotten over any later run if and only if every live reportable counter of an existing account that is ahead of its row is touched, or being flushed and sure to be stored |
| LimitsProtocol.TouchedLossIsSafeExactly | suite_cloud/mail/sending_limits.py:35-64 | When Redis loses the touched set alone, nothing is forgotten afterwards if and only if each of its outstanding counters is also being flushed and sure to be stored |
| LimitsProtocol.FlushingLossIsSafeExactly | suite_cloud/mail/sending_limits.py:164-181 | When Redis loses the set being flushed alone, nothing is forgotten afterwards if and only if each of its outstanding counters is also touched |
| LimitsProtocol.RecreatedAfterItsFlush | suite_cloud/mail/sending_limits.py:164-203 | A run in which the account is deleted during its flush and made again, and its counters are forgotten |
| LimitsProtocol.RecreatedWhileIdle | suite_cloud/mail/sending_limits.py:164-203 | The same with everything flushed and both sets empty at the deletion |
| SendingLimits.Cache.RunCheck | suite_cloud/mail/sending_limits.py:121-125 | The atomic check counts on from the counters or the seed: sent if and only if both counts are below their limits, the day's limit reported before the month's, both counters one higher as sent or refused, nothing else changed |
| SendingLimits.Usage.UpsertUsage | suite_cloud/mail/doctype/mail_send_usage/mail_send_usage.py:122-179 | A written row of an existing account ends up as the least counts no smaller than its old and its written ones; no other row is made, lost or changed |
| SendingLimits.CountRecipient | suite_cloud/mail/sending_limits.py:83-96 | A recipient is sent if and only if the day's and the month's counts, cached or else stored, are below their limits; refused for the day when its count is not, for the month when only that is not; counted exactly once |
| SendingLimits.FlushUsage | suite_cloud/mail/sending_limits.py:164-181 | An undisturbed flush leaves in each reportable member's row of an existing account the least counts over row and counter, and every other row as it was, and empties the set it flushed; an interrupted flush's members come first |
| SendingLimits.ReportableWhile | suite_cloud/mail/doctype/mail_send_usage/mail_send_usage.py:65-69 | A day and a month are reportable while current and through the day after their last, and no longer |
| ConfigPushTheorems.NoChangeIsLost | suite_cloud/mail/cluster/push.py:20-80 | Over every run in which whoever is killed leaves its changes to another: whenever the cluster is behind the committed configuration a hook, an unread job, the lock's holder with everything committed or a failure stands for it; when all is quiet without a failure they are equal |
| ConfigPushTheorems.LosesNothingExactly | suite_cloud/mail/cluster/push.py:33-54 | After any run, whatever hooks and jobs were killed in it: no later change is lost if and only if no mark is left that stands for no job, and the newest change is covered |
| ConfigPushTheorems.CanCatchUp | suite_cloud/mail/cluster/push.py:20-80 | After any run whose kills leave their changes to another, one more change can bring everything: a run without further changes or failures ends quiet, with no failure and the cluster at the committed configuration |
| ConfigPushTheorems.KilledJobLosesChange | suite_cloud/mail/cluster/push.py:43-54 | A run in which a job is killed after it cleared its mark: all is quiet, no failure shows, and the change is not on the cluster |
| ConfigPushTheorems.NeverBackwards | suite_cloud/mail/doctype/stalwart_cluster/stalwart_cluster.py:301-314 | The version of the snapshot the cluster runs on never decreases over any run, whoever is killed |
| ConfigPushTheorems.NextCovers | suite_cloud/mail/cluster/push.py:33-54 | Every action but a kill hands the duty for a committed version on to someone |
| Metrics.ChunksAreOneBackfill | suite_cloud/telemetry/warehouse.py:245-291 | Loading any number of chunks in time order stores the deltas one backfill of the whole table computes |
| Metrics.ChunkPreviousIs | suite_cloud/telemetry/warehouse.py:262-286 | The point a chunk subtracts is the whole table's previous point exactly when that came with the chunk or lies within a day before it |
| Metrics.LoadKeepsBackfill | suite_cloud/telemetry/warehouse.py:125-140 | One more chunk keeps the table equal to its backfill, including the rows already there |
| Metrics.StoredChangesAre | suite_cloud/telemetry/__init__.py:331-362 | Each row's stored changes: none for a gauge; unknown at the host's first push, the whole total where the series is new or fell, else the difference to the newest point before it; a histogram's sum and count restart together |
| MetricTotals.LoadedIncreasesTelescope | suite_cloud/telemetry/warehouse.py:217-291 | What the loader stored for a whole series adds up to the last total of each restart-free segment, less the baseline at the host's first push |
| MetricTotals.IncreasesTelescope | suite_cloud/telemetry/__init__.py:331-362 | The same of a backfill, for counters, sums and sample counts |
| MetricTotals.IncreasesAreGrowth | suite_cloud/telemetry/__init__.py:331-362 | For totals that really grew and restarted: the changes never exceed the growth, and equal it if and only if every restart shows as a fall or followed a total of zero |
| Staging.Warehouse.Load | suite_cloud/telemetry/warehouse.py:217-243 | The table gains exactly the parsing records of the files no row of it came from, and exactly those files are gone from the directory |
| Staging.Warehouse.GetLoadable | suite_cloud/telemetry/warehouse.py:197-215 | The readable files of the oldest chunk are returned in order and the damaged ones are moved aside, no others |
| Staging.Warehouse.LoadPending | suite_cloud/telemetry/warehouse.py:142-174 | One run loads chunk by chunk until a short one |
| Staging.Spool.Write | suite_cloud/telemetry/spool.py:28-41 | However often a batch is written it is staged once, as the newest file, and no other file is lost |
| Staging.DrainsInOneRun | suite_cloud/telemetry/warehouse.py:142-174 | A run drains a backlog if and only if every damaged file is among the last chunk's |
| Staging.LoadedOnce | suite_cloud/telemetry/warehouse.py:217-243 | After a load every row is in the table once |
| Staging.SecondLoadAddsNothing | suite_cloud/telemetry/warehouse.py:217-243 | Files left behind by a run that died after its commit add nothing the second time |
| ShippingTheorems.AtMostOnce | suite_cloud/provisioning/rspamd/ship_outbound_scans.py:26-65 | Over any interleaving of taking, sending, resending from the start, staging, loading, crashing and pruning no record is in the table twice |
| ShippingTheorems.NothingIsLost | suite_cloud/telemetry/spool.py:28-60 | Every record that parses of a file the shipper finished is staged, rejected, in the table or expired, unless the backlog limit dropped the file |
| ShippingTheorems.ExactlyOnce | suite_cloud/telemetry/outbound_scans.py:26-30 | Once all is sent and loaded, the table holds exactly the records that parse, each once |
| ShippingTheorems.OneBatchPerRecord | suite_cloud/provisioning/rspamd/ship_outbound_scans.py:60-65 | A record belongs to one batch, since a file is always cut at the same places |
| ShippingTheorems.EverythingCanArrive | suite_cloud/telemetry/outbound_scans.py:26-30 | From every reachable state a run without drops, rejections or pruning brings every parsing record of every file that was not dropped into the table, unless its batch was rejected or its row expired before |
| ShippingTheorems.SlicesAreTheFile | suite_cloud/provisioning/rspamd/ship_outbound_scans.py:60-65 | A file is cut into batches of two thousand records, the last taking the rest; in order they are the file |
| ShippingTheorems.NothingEmptyIsStaged | suite_cloud/telemetry/outbound_scans.py:33-48 | Over any run every staged file has a record that parses |
| Shipping.TrimBacklog | suite_cloud/provisioning/rspamd/ship_outbound_scans.py:50-57 | The oldest files go until the rest fits the limit, and no fewer drops would do |
| DnsTheorems.ProviderHoldsTheUnion | suite_cloud/suite_cloud/doctype/dns_record/dns_record.py:104-145 | Over any run of reconciliations and pushes by any owners, with any request of a push or a removal failing and any reconciliation rolled back: the foreign records no row was ever for all stay; a managed record no row wants is there exactly where a delete failed when its last row went; a confirmed row's record is there exactly unless a push that broke off or a rolled back removal took it; and once the pushes went through the provider holds exactly the union, less the missing and with the orphaned |
| DnsTheorems.ConfirmedGoesMissing | suite_cloud/dns/provider.py:175-188 | A push takes a confirmed row's record away if and only if it is for the same record with another TTL, its delete goes through and its create does not |
| DnsTheorems.ConfirmedWithoutRecord | suite_cloud/dns/provider.py:175-188 | A run of two owners with different TTLs that ends in a confirmed row without a record |
| DnsTheorems.RecordIsOrphaned | suite_cloud/dns/provider.py:190-215 | A run that ends without any row and with a record that was created for one: its delete failed |
| DnsTheorems.RecordIsLostByRollback | suite_cloud/suite_cloud/doctype/dns_record/dns_record.py:187-216 | A run that ends in a confirmed row without its record, with no push waiting or failed: the reconciliation that deleted it was rolled back |
| DnsTheorems.OwnerHasExactlyDesired | suite_cloud/suite_cloud/doctype/dns_record/dns_record.py:187-216 | After a reconciliation the owner's keys are exactly the desired ones and no other owner's row changed |
| DnsTheorems.OwnerHasExactlyAsked | suite_cloud/suite_cloud/doctype/dns_record/dns_record.py:187-216 | After a committed reconciliation the owner has exactly the records asked for, hosts in small letters and values stripped; a new one has the TTL of the last row that asks for it and waits for its push |
| DnsTheorems.NormalizeIgnores | suite_cloud/dns/provider.py:212-215 | Case, quotes around a value and a dot at the end of an unquoted one do not tell values apart |
| DnsTheorems.NormalizeKeeps | suite_cloud/dns/provider.py:212-215 | A value in small letters without whitespace, quotes or a dot at its ends is kept as it is |
| Strings.StripMeans | suite_cloud/dns/provider.py:212-215 | Stripping takes the whitespace at both ends and nothing else |
| Strings.LowerMeans | suite_cloud/dns/provider.py:212-215 | Lowering turns capital letters into small ones in their places |
| DnsTheorems.SecondReconcileChangesNothing | suite_cloud/suite_cloud/doctype/dns_record/dns_record.py:187-216 | Reconciling the same records again changes no row, no queue and no provider record, also where a delete of the first failed |
| DnsTheorems.KeptRowStaysPublished | suite_cloud/suite_cloud/doctype/dns_record/dns_record.py:131-145 | A row that stays keeps its provider record if and only if no row removed for good, with its record deleted, has the same zone, host, type and normalized value |
| DnsTheorems.SharedPlaceIsLost | suite_cloud/dns/provider.py:190-215 | Two owners' values that differ in a trailing dot: the first one's removal takes the second's confirmed record |
| DnsRecords.DnsTable.ReconcileManagedRecords | suite_cloud/suite_cloud/doctype/dns_record/dns_record.py:187-216 | The loops over the wanted dict, the existing rows and the missing ones establish the whole relation between old and new rows, queue and provider; says exactly when it commits, and what a rollback leaves |
| DnsRecords.DnsTable.DeleteRow | suite_cloud/suite_cloud/doctype/dns_record/dns_record.py:131-145 | The provider's records of the place go exactly when no other row wants the very same record and the delete goes through; the row goes unless the list raises; no other provider record or row goes |
| DnsRecords.EnsuredIs | suite_cloud/dns/provider.py:175-188 | A push that finds or creates the record leaves it with the row's TTL, one that breaks off between delete and create takes it away, any other leaves all places; records of other places are never touched |
| DnsRecords.DnsTable.PushToProvider | suite_cloud/suite_cloud/doctype/dns_record/dns_record.py:122-129 | A queued push with its list, delete and create answered or failing, on a row that may be gone: an error leaves the row's confirmation, otherwise it is confirmed exactly when the record was there or is created, and then it is there; every other row stays |
| CredentialTheorems.Save | suite_cloud/mail/tenancy/account_credentials.py:47-212 | A save that starts with the mirror equal to the cluster: refused, nothing changed; rolled back, by a failed call or by the rest of the save, the mirror is as before and the cluster's ids are if and only if nothing had been created or the revoke went through, else exactly the created ones are left; committed, both are equal in ids and contents once the revoke went through, an enabled account has exactly one login, first and within the limit; nothing is revoked before the commit |
| CredentialTheorems.FailedRevokeLeavesCredential | suite_cloud/mail/tenancy/account_credentials.py:178-212 | A save after which the cluster holds a credential no row mirrors |
| CredentialTheorems.CommitMirrors | suite_cloud/mail/tenancy/account_credentials.py:164-188 | Until the revoking hook runs the cluster holds the new mirror and everything it held before, after it the mirror exactly |
| CredentialTheorems.LoginIsPlaced | suite_cloud/mail/tenancy/account_credentials.py:86-121 | The login left is the one there was or one minted now, never made up by a caller; only the oldest others make room, and no more than needed |
| CredentialTheorems.RefusedExactly | suite_cloud/mail/tenancy/account_credentials.py:47-76 | An enabled account's rows are refused for the first that renames the login or makes one up, else for a second login, else if they do not fit the limit, after everything on the cluster has made room where a login is minted; with the error of each case, and accepted otherwise |
| CredentialTheorems.PlacedWithoutRoom | suite_cloud/mail/tenancy/account_credentials.py:86-113 | The login that is there comes first and nothing else moves; a minted one is put in front of rows that fit with it |
| CredentialTheorems.DisabledRefusedExactly | suite_cloud/mail/tenancy/account_credentials.py:79-83 | A disabled account's rows are accepted if and only if they are the rows before in id, description, expiry and addresses |
| CredentialTheorems.RotationReplacesLogin | suite_cloud/mail/tenancy/account_credentials.py:142-154 | A rotation leaves a login with a new id; the previous one is on the cluster until the commit and gone after it |
| CredentialTheorems.EnablingMintsNothing | suite_cloud/mail/tenancy/account_credentials.py:79-83 | A save that enables a disabled account leaves a login if and only if there was one |
| Credentials.Account.Push | suite_cloud/mail/tenancy/account_credentials.py:164-212 | Creates, updates, commit and both revokes, with a failure possible at every cluster call and after them; says when it commits, every cluster state before that holds all former credentials, and what a rollback leaves |
| Credentials.Account.Validate | suite_cloud/mail/tenancy/account_credentials.py:47-113 | The checks in their order, the login's place and the loop that makes room, equal to the validation CredentialTheorems.RefusedExactly and LoginIsPlaced describe |
| SpfEvaluation.ChainPassesExactlyListed | suite_cloud/mail/cluster/dns.py:75-98 | A domain that includes the target passes exactly the listed addresses and fails all others, if and only if one text or at most nine children list them |
| SpfEvaluation.IncluderPassesExactlyListed | suite_cloud/mail/cluster/dns.py:75-98 | A domain with terms of its own before the include: of the addresses those do not match exactly the listed ones pass and all others fail, if and only if the lookups they leave reach the target and each of its children |
| SpfEvaluation.IncludedVerdict | suite_cloud/mail/cluster/dns.py:75-98 | What the target gives every address with any number of lookups left |
| SpfEvaluation.CustomerVerdict | suite_cloud/mail/cluster/dns.py:75-98 | The verdict for every address, lookups counted: beyond nine children a permanent error |
| SpfEvaluation.TenChildrenGoThrough | suite_cloud/mail/cluster/dns.py:89-94 | Forty-six IPv6 addresses of a cluster with a zone name of up to ten characters: the split is accepted with ten children, and other addresses get a permanent error |
| SpfEvaluation.HostsDiffer | suite_cloud/mail/cluster/dns.py:89-98 | No two records of the split share a host |
| Spf.SplitIsSound | suite_cloud/mail/cluster/dns.py:79-98 | Every text fits 255 characters if and only if each mechanism fits one alone; the children concatenate to the list in order, in the fewest texts of any order-preserving split |
| Spf.RefusedExactly | suite_cloud/mail/cluster/dns.py:75-98 | One text if and only if it has at most 255 characters; else refused without a zone to name the children in, or if the parent is longer than that |
| Spf.SpfTexts | suite_cloud/mail/cluster/dns.py:75-98 | The greedy loop, its single-text shortcut and its errors |
| ZoneTheorems.WrappingIsInvisible | suite_cloud/mail/cluster/zone.py:195-249 | Data wrapped in parentheses over any number of lines, with a comment after any, parses to the records of the line with the same words |
| ZoneTheorems.FileIsItsFlatForm | suite_cloud/mail/cluster/zone.py:89-105 | A whole file of wrapped and plain records, blank lines and comments parses to the records of its one-line form |
| ZoneTheorems.RecordReadsBack | suite_cloud/mail/cluster/zone.py:16-105 | A record written as a line, with or without its TTL and class, parses back to the record |
| ZoneReading.RecordHasForm | suite_cloud/mail/cluster/zone.py:16-105 | A line that gives a record is a name, a number and the class where they are there, a type in capital letters and data, with whitespace between, and the record is made of just these |
| ZoneReading.DirectiveIsSkipped | suite_cloud/mail/cluster/zone.py:89-105 | A directive gives no record |
| ZoneReading.UnclosedIsLost | suite_cloud/mail/cluster/zone.py:195-213 | Lines give nothing if and only if each that is not blank leaves a parenthesis open: what follows an unclosed one is lost |
| ZoneTheorems.QuotedParenCollapses | suite_cloud/mail/cluster/zone.py:229-237 | A line with a quoted parenthesis is kept as it is if and only if its words are one space apart |
| Zone.ParseZoneFile | suite_cloud/mail/cluster/zone.py:89-105 | The parsing loops, down to quotes, comments and parentheses |
| Hosting.LifecycleHolds | suite_cloud/hosting/sites.py:48-152 | Over every run whose rotations and retries end on what they read or left: Ready means created and unclaimed, Assigned, Configuring and Active created with a tenant, Active configured and, at rest, with the current secret, and no server holds more sites than its slots |
| Hosting.RotationGoesStaleExactly | suite_cloud/suite_cloud/doctype/suite_tenant/suite_tenant.py:147-164 | A rotation that commits or dies can end in an active site without the current secret, with no other write at fault, if and only if the site is no longer as the rotation read or left it when it commits, or holds the new secret when it dies |
| Hosting.RotationReadTooEarly | suite_cloud/suite_cloud/doctype/suite_tenant/suite_tenant.py:445-459 | A reachable run: the rotation reads the site before its job pushes the secret and commits after the activation |
| Hosting.RotationDiesAfterPush | suite_cloud/suite_cloud/doctype/suite_tenant/suite_tenant.py:147-164 | A reachable run: the rotation pushes its secret to an active site and dies before its commit, and the site keeps a secret that was never the tenant's |
| Hosting.DroppedComesBackExactly | suite_cloud/suite_cloud/doctype/suite_tenant/suite_tenant.py:445-459 | A dropped site leaves that status if and only if a rotation that read it as active, and could not reach it, commits, or a retry that read it as failed writes |
| Hosting.RotationRevives | suite_cloud/suite_cloud/doctype/suite_tenant/suite_tenant.py:445-459 | A reachable run in which a dropped site is set up again by the commit of a rotation that read it as active |
| Hosting.RetryRevives | suite_cloud/hosting/sites.py:302-308 | A reachable run in which a dropped site is set up again by a retry that read it as failed |
| Hosting.ActiveWithoutActivation | suite_cloud/hosting/sites.py:302-318 | A site becomes Active without an activation time if and only if a retry resumes it after that activation failed |
| Hosting.FailedActivationResumes | suite_cloud/hosting/sites.py:142-152 | A reachable run to an active site without its activation time |
| Hosting.DroppedIsFinal | suite_cloud/hosting/sites.py:325-352 | A dropped site no rotation or retry is under way for is never changed again |
| Hosting.ProvisionEnds | suite_cloud/hosting/sites.py:48-53 | A site's job advances at most eight times between two operator actions, whatever else happens meanwhile |
| Hosting.CanBecomeActive | suite_cloud/hosting/sites.py:48-152 | From every state of the invariant a site that has a server and is not being dropped can become active with the current secret, by its job's steps, a claim and a retry |
| Hosting.RerollsFourTimes | suite_cloud/hosting/sites.py:114-127 | A hostname another server holds is rolled again four times; the fifth fails the site, any other error at once |
| Hosting.RerollsAreCounted | suite_cloud/hosting/sites.py:114-127 | Over any run a site's attempts are the hostnames rolled again since it was inserted |
| Hosting.InsertedAsNew | suite_cloud/hosting/capacity.py:71-81 | A new site is pending, without attempts, without a task and not created |
| Hosting.DeletedOnlyWhenGone | suite_cloud/hosting/doctype/suite_site/suite_site.py:86-90 | A site leaves the table only when it was dropped, or was neither created nor begun on its server |
| Hosting.CanBeDropped | suite_cloud/hosting/sites.py:325-352 | From every state a site can be dropped once its job is over |
| Hosting.PlacedWhereAllowed | suite_cloud/hosting/capacity.py:37-53 | A site is placed only on a server of its region that takes sites and has a slot left, and stays without one only where there is none |
| Hosting.PickVirtualMachine | suite_cloud/hosting/capacity.py:37-53 | The first server with the most free slots of those of the region that take sites and hold fewer than their slots, or none when there is none |
| Hosting.FillPool | suite_cloud/hosting/capacity.py:71-81 | The unclaimed sites on the way or ready reach the target exactly, or no server of the region has a free slot; no placement passes a server's slots |
| Hosting.RunFollowUps | suite_cloud/hosting/sites.py:236-262 | Exactly which follow-ups a run tries, in which order, and what each outcome leaves: mail, the invite in the run that verified mail, then the domain, each once |
| Progress.DoneStaysDone | suite_cloud/hosting/progress.py:76-90 | Over any syncs, however the records change, a done step keeps its whole row and the progress count never falls |
| Progress.RequestIsClosed | suite_cloud/hosting/progress.py:104-210 | After any syncs the done steps of a request have their prerequisites done if and only if it was verified by a code or one sync succeeded |
| Progress.SecondSyncChangesNothing | suite_cloud/hosting/progress.py:195-210 | A second sync on unchanged records changes nothing: one pass in the steps' order is enough |
| Progress.NotDoneMeans | suite_cloud/hosting/progress.py:76-90 | After a sync a step that is not done is pending exactly while its prerequisite is not done; else nothing skips it and the records do not hold, and it is failed exactly when the request failed or expired |
| Progress.RowSays | suite_cloud/hosting/progress.py:76-191 | After a sync every row says what its own record says: which record completes each step, which skips it, which step it waits for, what it shows, and whose errors it shows |
| Progress.RaisesExactly | suite_cloud/hosting/progress.py:76-90 | A sync raises for a step if and only if the step is due and the site, or the mail domain it asks for, is gone |
| Progress.TimesStayRight | suite_cloud/hosting/progress.py:218-228 | Over any syncs a step keeps its first start, a finished row has the time between its start and its end, a running one none |
| Progress.Request.Sync | suite_cloud/hosting/progress.py:195-228 | The loop saves what changed, or raises and saves nothing |

## Left out

- HTTP, JMAP, Lexicon, DuckDB, Redis and Pilot as libraries: each call is one atomic action, with failure as an outcome where the property needs it.
- Lock, mark, limit and counter timeouts; a Redis loss is an action of its own.
- Permissions, translations, API payloads, patches, configuration content (listeners, ACME, Rspamd files), report parsing and status indicators: wiring without deep state.
- Objects as maps: the order of JSON keys is lost; two keys of one object that resolve to the same id are an error here, while Python keeps the later one; Python's `True == 1` is not modelled.
- The applier's `id` property, properties the server sets itself, JSON pointer patches and null as a reset; the server's choice of a new id.
- A plan's destroy filter is an exact property match; a server may refuse filters it does not support.
- Conditions of route rules are trees rather than text; `int()` of a list key accepts plain decimal digits only.
- PlanTheorems.ApplyTwice: destroys and updates by id are not declarations of a state and are left out; a top-level property name is no reference (deeper keys may be), and values are matched on properties a read shows. Values with references or secrets have to be told apart by a shared match key; for values without them the exact condition is MatchKeys.IdempotentExactly.
- MatchKeys.IdempotentExactly: two values; with more, pairs that do not disturb each other are enough (PlanTheorems.ApplyTwice), and a third value could undo what a second one disturbed.
- Drift.NoDriftAfterApply: `#` keys at no depth, no reference in match keys and one operation per singleton property, since the drift check compares keys and match keys unresolved.
- ConfigPushTheorems.NoChangeIsLost: the lock does not expire under a live holder, and the cluster stays Active; a kill that leaves its change to nobody is excluded, and ConfigPushTheorems.LosesNothingExactly says which those are. The direct `push_config` path is not a job of the model.
- LimitsProtocol.NoRecipientIsForgotten: one flusher at a time, whose transaction reads nothing before its members; no account made over counters, and no set lost with counters, that no flush will store: LimitsProtocol.SafeExactly shows that this is exactly what it takes.
- Metrics.ChunksAreOneBackfill: each host's chunks come in time order with gaps under a day, and a series has one point per time; late files are not covered, as the code promises less for them.
- Counts and sums are real numbers: no floating-point rounding.
- ShippingTheorems.AtMostOnce: a file does not grow once taken, no record occurs twice in the spool, and a batch id is taken to identify its records; one server and one of the two scan tables are modelled.
- The order of staged files by write time matters to the loader only, so the protocol lets the loader choose any of them.
- DnsTheorems.ProviderHoldsTheUnion: reconciliations and pushes come one after the other, every zone has a provider, no two keys normalize to one value, and several records of one place are deleted together or not at all. The missing and the orphaned places are not repaired by anything in the model but a later push or removal of a row for them.
- A DNS Record's default zone, default TTL, priority, category and the resolver's own verification.
- DnsRecords.DnsTable.ReconcileManagedRecords: hosts come without surrounding whitespace, as callers build them from validated names.
- CredentialTheorems.Save: one kind of credential at a time; edited rows are previous rows or new ones; a failed call has no effect on the cluster; address syntax of allowed IPs and the first load of an unmirrored account are not modelled.
- Spf.SpfTexts: records of nodes and pools, which only collect the addresses, are not part of the model.
- SpfEvaluation.ChainPassesExactlyListed: an address matches a mechanism when their texts are equal, so addresses are in one canonical form; an including domain has `include`, `ip4` and `ip6` terms, the target last; void lookups and DNS errors are not modelled.
- Strings.StripMeans: whitespace is the space, the tab, the line feed and the carriage return, and letters are ASCII.
- Zone.ParseZoneFile: a text is given as its lines, digits and letters are ASCII, and the later mapping of records to groups is not modelled.
- Hosting.LifecycleHolds: server slots are constant, a server chosen by hand in the desk is not counted, and no rotation or retry writes to a site that changed since it was read, or dies with its secret on the site; Hosting.RotationGoesStaleExactly and Hosting.DroppedComesBackExactly say what happens otherwise. One rotation of a tenant at a time.
- Hostnames and labels of sites, Pilot's task output, and the retry of the tenant request beside its site.
- Progress timestamps beyond each row's own, the request's processing time and the event sent to the desk.
