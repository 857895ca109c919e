# CloudNet, verified

CloudNet takes a small network description (nodes, links with CIDR subnets, firewall rules),
compiles it into a deployment plan, deploys the plan through a provider, and then observes,
breaks, repairs and judges the deployment.  This project models that logic in Dafny and proves
what it keeps.  `dafny verify dfyconfig.toml` checks everything.

The modules follow the program:

- **Compiling.**  `Topology`, `TopologyCompiler`, `Cidr`, `ChainGraph`, `CycleSearch` and
  `ChainCover` cover `compile_topology`.  The depth-first search is proved exact on multigraphs:
  a link set is accepted if and only if its nodes line up in disjoint chains.  Accepted address
  blocks are pairwise disjoint and fit the address space (section 3.1 of RFC 4632).
- **Three stores.**  `Providers`, `ProviderRetry`, `LocalState` and `Deployment` are the
  provider, the `state.json` snapshot and the database session as classes, with deploy, redeploy,
  hydration, cleanup and roll-back as methods over all three.  Each method is proved equal to a
  function on a `World` (provider, rows, statuses, snapshot entries); `Rollback`, `Janitor`,
  `Lifecycle`, `Placement` and `MockDeploy` prove theorems about that function: a failed deploy
  gives back what it took, any run keeps the stores in agreement, the janitor removes exactly the
  orphans.
- **Observe, repair, judge.**  `Observers` holds fault injection, drift, validation and
  reconcile.  `Validations` says exactly when a validation passes, including the ping failures a
  mock still has to give, one ping at a time.  `ParallelPings` is the thread pool as a state
  machine, `SharedPings` lets its jobs share a state, and `PooledValidations` shows what a validation
  by the pool comes to although workers race for the failure counter.  `StoppedSet` shows that all
  services see one abstract state: the stopped hosts and those failures.  `Scenario` is
  `ScenarioRunner.run` against arbitrary answers and clocks; `ScenarioRuns` joins it to the mock
  provider, the deployment and the pool: every script on every topology the mock can deploy, for
  every schedule and time-out of its pings, is judged as a small abstract machine says, down to the
  availability requirement.
- **Smaller parts.**  `Fingerprint` (topology identity), `PingMetrics` (95th percentile),
  `Requirements` (thresholds), `ScenarioPlan` (the dry-run plan against the deploy) and
  `VpcTeardown` (deleting an AWS VPC).  `Wrappers`, `Arithmetic`, `Text`, `Sorting` and
  `ResourceTypes` support the rest; `Selections` says what it means for a list to pick entries of
  another one in order, which is how lookups, filters and reports are pinned to the lists they come from.

What comes from outside is a parameter.  The reader of CIDR texts is a function; a cloud's answers
are a script (`Providers.State.answers`), so a lemma about all scripts is about all behaviours; the
answers and clock readings of a scenario run are a list; EC2 faults are a list; the janitor's visiting
order is any order; the pool's schedule is any sequence of enabled events.

Two oddities of the code are kept as they are.  The runner would record an implicit deploy that comes
back with a status other than `ACTIVE` as failed without failing the run (`Scenario.VerdictAccounting`);
`Lifecycle.DeployReturnsActive` shows that no deploy does, and `ScenarioRuns.VerdictIsTheRecords` states
the verdict without that exception.  A mock subnet counts as gone exactly when the topology's name
contains "missing" (`StoppedSet.SubnetGoneIffNamedMissing`), so drift theorems carry that condition or
say what happens without it.

## Model

| member | source | states |
|---|---|---|
| TopologyCompiler.CompileTopology | backend/app/topology_compiler.py:10-128 | Succeeds on exactly the acceptable topologies (declared independently of the code) with the plan they denote; every refusal names the first fault of the first phase that has one |
| TopologyCompiler.CheckNodes | backend/app/topology_compiler.py:23-40 | Passes if and only if names are present and distinct and kinds are supported; otherwise blames the first offending node by its first failed check, a duplicate only if the name occurred before |
| TopologyCompiler.CheckLinks | backend/app/topology_compiler.py:43-62 | Passes if and only if every link joins known nodes and carries a readable subnet; the networks returned are the masked blocks of the links in order |
| TopologyCompiler.CheckOverlaps | backend/app/topology_compiler.py:64-70 | Passes if and only if all blocks of one IP version are disjoint; otherwise reports the first clashing pair in combination order |
| TopologyCompiler.CheckRules | backend/app/topology_compiler.py:84-121 | Passes if and only if rule names are present and distinct, protocols supported and both ends known; blames the first offending rule |
| TopologyCompiler.PlanNetworks | backend/app/topology_compiler.py:74-82 | Network i is named after link i, carries its stripped subnet and attaches its two ends |
| TopologyCompiler.AcceptedTopologiesAreChains | backend/app/topology_compiler.py:10-128 | What acceptance buys: links thread the nodes into disjoint chains, no address lies in two link subnets, block sizes of each IP version sum to at most its address space, network names differ |
| TopologyCompiler.PlanFollowsLinks | backend/app/topology_compiler.py:62-82 | Planned network i carries link i's own subnet text without outer white space, that text reads as link i's block, the number in its name reads as i + 1, and it attaches link i's two ends; servers and rules are the topology's |
| TopologyCompiler.PlannedNetworksAreDisjoint | backend/app/topology_compiler.py:64-82 | No address lies in the blocks of two planned networks of one IP version, so what is deployed does not overlap |
| TopologyCompiler.AcceptedLinksThread | backend/app/topology_compiler.py:131-166 | In terms of the links alone: the graph check passes iff disjoint chains exist in which each link between different nodes is one step and the only link there, and each step is a link |
| Topology.HostsInOrder | backend/app/services/deployment_service.py:351-353 | The hosts are the names of the host nodes, each once, in node order |
| Text.StripIsExact | backend/app/topology_compiler.py:57-62 | Stripping removes white space at both ends, all of it and nothing else |
| Text.DecimalReads | backend/app/services/local_state_store.py:118-119 | Reading a number's numeral gives the number back, and there are no leading zeros |
| Text.AtMostIsLexicographic | backend/app/topology_compiler.py:144 | The order of node names is dictionary order: a prefix first, else the first different character decides |
| Cidr.AddressSpaces | backend/app/topology_compiler.py:56-70 | The address spaces have 2^32 and 2^128 addresses, in figures, and a prefix of length p holds one part in 2^p |
| Topology.NetworkNamesDiffer | backend/app/topology_compiler.py:74-82 | Two links of one topology never compile to the same network name |
| CycleSearch.RejectCycles | backend/app/topology_compiler.py:131-166 | Accepts if and only if every node ends at most two links and the multigraph (parallel links counted, self-links ignored) has no cycle; an overloaded node reported is alphabetically first with its exact link count, a cycle report is a walk that closes up |
| CycleSearch.FirstOverloaded | backend/app/topology_compiler.py:144-149 | Reports a node if and only if some node ends more than two links: the alphabetically first one with its exact count |
| CycleSearch.Search.constructor | backend/app/topology_compiler.py:135-142 | The two dictionaries end up tabulating far ends (in link order, parallel links repeated) and link counts of exactly the touched names |
| CycleSearch.Search.Visit | backend/app/topology_compiler.py:154-162 | Either a real cycle is exhibited, or everything reachable away from the callers has joined the search forest below the parent; terminates on the unvisited names |
| CycleSearch.RepeatMakesCycle | backend/app/topology_compiler.py:156-161 | A visited neighbour other than the parent always closes a ring or doubles a link, whatever the search has seen |
| ChainGraph.ForestHasNoCycle | backend/app/topology_compiler.py:151-166 | A link set covered by a finished search forest has no closed trail (the soundness half of the search) |
| ChainGraph.RingMakesCycle | backend/app/topology_compiler.py:156-161 | Distinct nodes adjacent all the way round give a closed trail that uses no link twice |
| ChainGraph.TwoEdgesMakeCycle | backend/app/topology_compiler.py:135-142 | Two links between the same nodes are a cycle |
| ChainCover.AcceptedGraphsAreChains | docs/topology-support.md:10-26 | Degree at most two and no cycle is equivalent to the existence of a set of disjoint chains whose consecutive nodes are joined by exactly one link each and which use up all links |
| ChainCover.ChainsExist | backend/app/topology_compiler.py:131-166 | From degrees at most two and no cycle, such chains are constructed |
| ChainCover.CoverIsForest | backend/app/topology_compiler.py:131-166 | Conversely any chain cover is a forest, so it has no cycle |
| ChainCover.CoverBoundsDegree | backend/app/topology_compiler.py:144-149 | Conversely in any chain cover no node ends more than two links |
| Cidr.OverlapIsNesting | backend/app/topology_compiler.py:64-70 | Two masked blocks of one version overlap if and only if one contains the other, and if and only if they share an address |
| Cidr.MaskIsBlock | backend/app/topology_compiler.py:56-57 | Masking host bits gives an aligned block inside the address space that contains the written address |
| Cidr.MeetingBlocksNest | backend/app/topology_compiler.py:64-70 | If two blocks share any address, the longer prefix lies entirely inside the shorter |
| Cidr.AddressHasOneOwner | backend/app/topology_compiler.py:64-70 | Among disjoint blocks an address lies in at most one |
| Cidr.OccupiedSize | backend/app/topology_compiler.py:64-70 | The addresses covered by disjoint blocks number exactly the sum of the block sizes |
| Cidr.BlocksFit | backend/app/topology_compiler.py:64-70 | Disjoint blocks of a version sum to at most 2^32 or 2^128 addresses |
| Fingerprint.FingerprintIsCanonical | backend/app/services/deployment_service.py:102-131 | The form that is hashed is equal for two topologies if and only if nodes, links and rules are equal as multisets |
| Fingerprint.SortingNeverRaises | backend/app/services/deployment_service.py:118-127 | In an accepted topology no comparison made while sorting rules reaches the port, so a missing port never meets a number |
| Fingerprint.Catalogue.Persist | backend/app/services/scenario_service.py:140-195 | Stores or reuses exactly when the compiler accepts; a refused topology leaves the catalogue alone |
| Fingerprint.RearrangedRunReusesRow | backend/app/services/scenario_service.py:149-157 | Running any rearrangement of a stored topology reuses its row and stores nothing |
| Fingerprint.FoundRowHasShape | backend/app/services/scenario_service.py:149-157 | A reused row has the same name and the same contents: a different shape never takes over a row |
| Fingerprint.FindsNewestSame | backend/app/services/scenario_service.py:149-157 | The search finds the newest row of that name with equal contents, and fails only if there is none |
| Fingerprint.PersistKeepsIds | backend/app/services/scenario_service.py:149-195 | Ids stay increasing, no row is lost, and the id answered is that of a row of the topology's own shape |
| ProviderRetry.MaxRetries | backend/app/services/provider_retry.py:23-29 | The default when nothing usable is configured; otherwise the limit in 0..10 closest to the configured number, so below 0 gives 0 and above 10 gives 10 |
| ProviderRetry.RetryClosedForm | backend/app/services/provider_retry.py:32-85 | Against n throttling failures and limit L: success iff n <= L, min(n, L) + 1 attempts, max(0, n - L - 1) failures left, total sleep 2^r - 1 up to three retries and 7 + 4(r - 3) beyond, at most 35 s under the clamp |
| ProviderRetry.RetryEndsAtFirstFinal | backend/app/services/provider_retry.py:45-85 | Any operation: the call ends with the first answer that is not a retryable fault or with the fault of the last attempt allowed, returns that answer, and sleeps Backoff of the retries |
| ProviderRetry.AttemptRunExists | backend/app/services/provider_retry.py:45-85 | Every call is such a run of attempts |
| ProviderRetry.PermanentFaultEndsCall | backend/app/services/provider_retry.py:61-63 | A fault that is not retryable ends the call after one attempt, without sleep |
| Providers.Provider.CreateWithRetry | backend/app/services/provider_retry.py:45-85 | The attempt loop has the result, the provider state and the total sleep of the recursive specification that the closed forms are about |
| Providers.Provider.BeforeOp | backend/app/providers/mock_provider.py:58-65 | A positive budget is spent by one and raises a retryable fault; otherwise nothing changes |
| Providers.Provider.CreateResource | backend/app/providers/mock_provider.py:101-162 | One create changes exactly what the create specification says: budgets, running servers and log on the mock; live set and script on a cloud |
| Providers.Provider.DeleteResource | backend/app/providers/mock_provider.py:172-177 | The mock deletes nothing and always succeeds; a cloud refuses while something live depends on the resource, and then changes nothing |
| Providers.Provider.StopServer | backend/app/providers/mock_provider.py:164-166 | Exactly this server becomes stopped |
| Providers.Provider.StartServer | backend/app/providers/mock_provider.py:168-170 | Exactly this server becomes running |
| Providers.Provider.GetServerStatus | backend/app/providers/mock_provider.py:179-180 | A server never heard of counts as running |
| Providers.Provider.RunPing | backend/app/providers/mock_provider.py:219-224 | A budgeted failure is spent first, whatever runs; otherwise the ping passes iff the source runs, and nothing changes |
| Providers.MockRetryFrom | backend/app/providers/mock_provider.py:58-65 | A retried mock create succeeds iff its remaining budget is within the retries left, with the closed forms for attempts, sleep and left-over budget; it touches no other budget and starts a server only when it succeeds |
| Providers.CloudRetryFrom | backend/app/services/provider_retry.py:32-85 | However an honest cloud answers, a retried create adds exactly one fresh resource or leaves the live set unchanged, and the cloud stays honest |
| Providers.CloudRetryExactly | backend/app/services/provider_retry.py:45-85 | k retryable refusals and then another answer, k within the limit: exactly k + 1 create calls, that answer, Backoff(k) of sleep |
| Providers.CloudRetriesRunOut | backend/app/services/provider_retry.py:45-85 | Retryable refusals throughout: limit + 1 create calls and the last fault |
| Providers.DependentsHoldNetworks | backend/app/services/deployment_service.py:661-698 | On the modelled cloud a network cannot be deleted while a subnet or server granted on it is there |
| Deployment.DeployTopology | backend/app/services/deployment_service.py:235-447 | The whole deploy: hydrate if there are no rows, finish at once if there are any, else compile, provision in plan order, and record or roll back; equal to the deploy function on all three stores at once |
| Deployment.HydrateFromLocalState | backend/app/services/deployment_service.py:138-162 | Rows are appended for the readable handles of an ACTIVE entry, in order, and the status becomes ACTIVE only if there are any |
| Deployment.ProvisionNetworks | backend/app/services/deployment_service.py:293-349 | Networks and subnets are created and recorded in plan order, the id dictionary maps each network name to its id; a failure leaves exactly the rows created so far |
| Deployment.ProvisionServers | backend/app/services/deployment_service.py:351-386 | Each host is created on the first network that attaches it; an unattached host or a failed create stops there with the rows created so far |
| Deployment.NetworkIdForNode | backend/app/services/deployment_service.py:579-588 | The id of the first network in plan order that attaches the node, or nothing |
| Deployment.CreateAndRecord | backend/app/services/deployment_service.py:294-311 | A create that succeeds adds one row after the earlier ones; one that fails adds none |
| Deployment.RecordActive | backend/app/services/deployment_service.py:421-438 | Status ACTIVE and a snapshot of exactly the topology's rows |
| Deployment.RollBackDeploy | backend/app/services/deployment_service.py:387-419 | FAILED status and entry, then cleanup if any row was written |
| Deployment.TeardownProviderResources | backend/app/services/deployment_service.py:683-698 | Deletes in tier order, newest first within a tier, and stops at the first refusal |
| Deployment.CleanupTopologyDeployment | backend/app/services/deployment_service.py:701-747 | Rows, entry and status are cleared whether or not the teardown went through; without rows the provider is not called |
| Deployment.Session.ListTopologyResources | backend/app/services/deployment_service.py:88-95 | Exactly the rows of the topology, in id order |
| Deployment.RowsOfInOrder | backend/app/services/deployment_service.py:88-95 | The rows listed are all rows with the topology's id, each once, in table order |
| Deployment.Session.DeleteResources | backend/app/services/deployment_service.py:731-733 | Exactly the rows of the topology disappear |
| Deployment.Session.AddResource | backend/app/services/deployment_service.py:302-310 | One row with the next id is appended |
| LocalState.Store.RecordDeploySnapshot | backend/app/services/local_state_store.py:100-128 | Only this topology's entry changes; it lists the given rows in order, with their ids classified |
| LocalState.Store.RecordDeployFailed | backend/app/services/local_state_store.py:131-173 | A FAILED entry that keeps the earlier run id and name where it has none of its own; no other entry changes |
| LocalState.Store.RemoveLocalDeployment | backend/app/services/local_state_store.py:176-182 | Exactly this topology's entry disappears |
| LocalState.Store.ResourcesFromLocalState | backend/app/services/local_state_store.py:235-262 | The readable items of an ACTIVE entry in order, nothing for any other entry |
| LocalState.ClassifyIds | backend/app/services/local_state_store.py:69-84 | The three id groups are the ids of network, subnet and instance items, in item order |
| LocalState.ClassifyIsByType | backend/app/services/local_state_store.py:69-84 | Each group is the non-empty ids of the items of its own resource types (named), in item order |
| LocalState.ReadItemsInOrder | backend/app/services/local_state_store.py:247-262 | The handles read are those of the items with a type, a name (even an empty one) and an id, in item order |
| LocalState.FailedEntryKeeps | backend/app/services/local_state_store.py:142-173 | A failed deploy's entry takes its run id and name if it has them and the earlier entry's if not |
| LocalState.SnapshotRoundTrip | backend/app/services/local_state_store.py:100-128 | Writing an ACTIVE snapshot and reading it back is the identity, and every other topology reads what it read before |
| LocalState.ReadUndoesWrite | backend/app/services/local_state_store.py:87-97 | Every readable handle survives serialisation unchanged and in order |
| LocalState.KeysDiffer | backend/app/services/local_state_store.py:118-119 | Distinct topology ids have distinct keys |
| Rollback.FailedDeployRollsBack | backend/app/services/deployment_service.py:387-419 | Wherever a deploy on an honest cloud fails, live set and rows are as before; status is CREATED without an entry if anything had been created, else FAILED with an empty FAILED entry; no other topology changes |
| Rollback.FailedDeployRestoresStores | backend/app/services/deployment_service.py:387-419 | The database and snapshot half of this on any provider, the mock included |
| Rollback.TeardownEmpties | backend/app/services/deployment_service.py:661-698 | Tearing down rows whose resources depend only on rows of higher tiers succeeds without refusal and leaves exactly the earlier live set |
| Rollback.OrderedTeardownEmpties | backend/app/services/deployment_service.py:683-698 | The same, one deletion at a time, for any list in delete order |
| Rollback.ProvisionTakes | backend/app/services/deployment_service.py:291-386 | Every prefix of a deploy is closed under dependency: what was created depends only on created resources that are torn down later |
| Rollback.ProvisionFollowsPlan | backend/app/services/deployment_service.py:291-386 | What was created is always an initial part of the plan, with planned types and names, complete iff provisioning succeeded |
| Placement.ProvisionAsksRightly | backend/app/services/deployment_service.py:291-386 | However far a deploy gets and however often it retries, every create call is for a planned network, a subnet on its own network with the link's CIDR, or a host on the network of the first link that attaches it |
| Rollback.DeleteOrder | backend/app/services/deployment_service.py:661-680 | The delete order is total and transitive, so sorting by it is meaningful |
| Rollback.TeardownOrder | backend/app/services/deployment_service.py:661-698 | Instances go before subnets, these before attachments, networks last (types named); of one type the newest first; rows without ids in their old order |
| Rollback.DeleteAllStopsAtRefusal | backend/app/services/deployment_service.py:695-698 | Deletes are made in order up to and including the first one refused; success means that all were made and none refused |
| Rollback.TeardownIffNeverRefused | backend/app/services/deployment_service.py:683-698 | A teardown succeeds iff deleting the sorted resources one after another is never refused |
| Sorting.SortIsStable | backend/app/services/deployment_service.py:695 | Elements that compare equal keep their order |
| Janitor.RunCleanupJanitor | backend/app/services/cleanup_janitor.py:39-83 | The run visits every entry once, in some order, and does to all three stores what the sweep function says |
| Janitor.SweepEntry | backend/app/services/cleanup_janitor.py:49-81 | One entry: nothing unless ACTIVE, with a readable handle and no rows; the entry goes only if the teardown went through |
| Janitor.JanitorRemovesExactlyOrphans | backend/app/services/cleanup_janitor.py:49-81 | If keys match ids, the entry at a key goes iff its status is ACTIVE, it names a topology, no row has that topology's id, some item has type, name and id, and deleting its handles in order was never refused; all other entries and all rows are unchanged; exactly the removed ones are reported cleaned and set back to CREATED; a later run cleans none of those again |
| Janitor.EachOrphanIsReported | backend/app/services/cleanup_janitor.py:49-81 | The report has one line for each such orphan, in visiting order: cleaned if no delete was refused, failed otherwise |
| Janitor.JanitorDeletesOnlyOrphans | backend/app/services/cleanup_janitor.py:65-73 | Whatever fails on the way, every provider call of a run deletes a handle of a rowless ACTIVE entry |
| Janitor.UnsavedGoDependentsFirst | backend/app/services/cleanup_janitor.py:15-36 | Handles without primary keys are all deleted, dependents first, those of one type in snapshot order |
| Lifecycle.NextKeepsAgreement | backend/app/services/deployment_service.py:235-447 | Each deploy (new, repeated, failed at any point), cleanup, janitor pass or provider event keeps: ACTIVE iff an ACTIVE entry, that entry lists the rows in order, rows imply ACTIVE |
| Lifecycle.RunsKeepAgreement | backend/app/services/deployment_service.py:235-747 | Over any run on any number of topologies all states agree, and no janitor pass along the way changed anything |
| Lifecycle.JanitorIdle | backend/app/services/cleanup_janitor.py:49-67 | In an agreeing state the janitor finds nothing to do |
| Lifecycle.FreshStart | backend/app/services/local_state_store.py:41-57 | Empty stores agree, so runs have a place to start |
| Lifecycle.DeployIsIdempotent | backend/app/services/deployment_service.py:244-252 | After a successful deploy any number of further ones makes no provider call and changes neither rows nor the recorded resources, nor any other topology |
| Lifecycle.LostRowsAreRestored | backend/app/services/deployment_service.py:138-162 | If all rows of a deployed topology are lost, the next deploy restores the same resources in the same order from the snapshot, without a provider call |
| Lifecycle.DeploysSurviveLostRows | backend/app/services/deployment_service.py:138-212 | Both together: deploys, loss of all rows, more deploys; same resources in rows and snapshot, no provider call after the first success |
| Lifecycle.DeployedIsReadable | backend/app/services/local_state_store.py:252-261 | Every row a successful deploy leaves can be rebuilt from a snapshot, provided no granted id is empty |
| Lifecycle.RedeployChangesNothing | backend/app/services/deployment_service.py:165-212 | A deploy of a deployed topology answers with its rows and changes nothing but the run id |
| Lifecycle.DeployReturnsActive | backend/app/services/deployment_service.py:165-447 | On any provider and from any state, a deploy that returns answers ACTIVE, and status column and snapshot say so too |
| Lifecycle.DeployedEntryIs | backend/app/services/deployment_service.py:165-447 | The entry of a deploy that returns has this run's id, the topology's name and its rows in order; nothing else in status and snapshot changes; it is idempotent iff rows or a readable ACTIVE entry were there |
| Lifecycle.DeployRefusesIff | backend/app/services/deployment_service.py:244-254 | A deploy is refused before any change iff nothing is recorded and the topology does not compile |
| Lifecycle.CleanUpClears | backend/app/services/deployment_service.py:701-747 | After a cleanup, refused deletes or not: status CREATED, no rows, no entry, every other topology as before; without rows the provider is untouched |
| Lifecycle.OneTopologyAtATime | backend/app/services/local_state_store.py:100-128 | A step that touches one topology's records, and leaves those in agreement, keeps the agreement of all |
| MockDeploy.MockDeployActiveIff | backend/app/services/deployment_service.py:291-386 | A mock deploy with a link, a host and every host linked reaches ACTIVE iff its network, subnet and server budgets are each within the retry limit |
| MockDeploy.MockDeployEffect | backend/app/providers/mock_provider.py:101-162 | A successful one leaves exactly the planned rows with name-derived ids and every host running |
| MockDeploy.MockHandlesAre | backend/app/providers/mock_provider.py:101-162 | The resources of a complete mock deployment spelled out: types, names and ids |
| MockDeploy.MockDeployStopsAt | backend/app/services/deployment_service.py:291-386 | How far a mock deploy gets: nowhere if the network budget exceeds the limit, one network if the subnet budget does, all networks and subnets if the server budget does, else to the end |
| MockDeploy.GrantedDeployCompletes | backend/app/services/deployment_service.py:291-386 | On a cloud that grants everything each planned resource gets the next granted id, in plan order, with one call each |
| MockDeploy.CloudPlanIs | backend/app/services/deployment_service.py:293-377 | The planned types and names of such a deployment spelled out |
| MockDeploy.MockProvision | backend/app/providers/mock_provider.py:58-65 | From any point of the plan provisioning completes iff no budget still to be met exceeds the limit |
| MockDeploy.LinkedIsPlaced | backend/app/services/deployment_service.py:579-588 | A host can be placed iff it is an end of some link |
| Observers.RecordNodeAction | backend/app/services/failure_service.py:77-137 | Stops or starts exactly the server of the first instance row with that name; an unknown host or missing row changes nothing and says which |
| Observers.ServerResourceByName | backend/app/services/failure_service.py:147-157 | The first row of any instance type with the name |
| Observers.FirstServerIsFirst | backend/app/services/failure_service.py:147-157 | In any list of rows: an instance row of the name with none before it, or there is none |
| Observers.FaultsExactly | backend/app/services/failure_service.py:77-137 | In every state: an unknown host or one without an instance row is refused, and otherwise exactly the first such row's server is stopped or started |
| Observers.DetectTopologyDrift | backend/app/services/drift_service.py:39-121 | Missing and stopped hosts in node order, then vanished subnets in row order, and nothing else |
| Observers.FindRow | backend/app/services/drift_service.py:29-36 | The first row of the given type and name |
| Observers.FindInstanceResource | backend/app/services/drift_service.py:24-36 | Canonical mock instances before legacy ones: the first row of the first type that has one of that name |
| Observers.FirstRowIsFirst | backend/app/services/drift_service.py:29-36 | In any list of rows: a row of the type and name with none before it, or there is none |
| Observers.InstanceRowPrefersCanonical | backend/app/services/drift_service.py:24-36 | Legacy rows are looked at only if there is no canonical one |
| Observers.HostsDriftInOrder | backend/app/services/drift_service.py:68-107 | In every state: one item for each host without an instance row ("missing", critical) or with a stopped server ("stopped", warning), in node order, and no other |
| Observers.SubnetsDriftInOrder | backend/app/services/drift_service.py:109-121 | In every state: one critical item for each subnet row whose id contains "missing", in row order, and no other |
| Observers.DetectHostDrift | backend/app/services/drift_service.py:68-107 | One item for each host without a row or not running, in node order, by the instance row found for it |
| Observers.DetectSubnetDrift | backend/app/services/drift_service.py:109-121 | One item for each subnet row whose id looks gone, in row order |
| Observers.ResourceExists | backend/app/providers/mock_provider.py:199-200 | False iff the id contains "missing" |
| Observers.ExecutePing | backend/app/services/connectivity_service.py:69-117 | Passes iff both hosts exist, have rows (the last one of a name counts), both servers run and no budgeted ping failure is left; only a ping whose target runs spends that budget |
| Observers.LastServerIsLast | backend/app/services/connectivity_service.py:489-496 | In any list of rows: an instance row of the name with none after it, or there is none |
| Observers.ChecksAreLinksOrRules | backend/app/services/connectivity_service.py:240-334 | Check i pings link i from its source to its target, or is about rule i |
| Observers.ValidateTopologyLinks | backend/app/services/connectivity_service.py:201-237 | With rules only those are checked, without rules every link; the pings spend the budget one after another |
| Observers.ValidateFirewallRules | backend/app/services/connectivity_service.py:314-394 | Only ICMP rules are pinged, the others are skipped, and no result may be FAILED |
| Observers.ValidatePlainLinks | backend/app/services/connectivity_service.py:240-311 | Every link is pinged in order; all must pass and there must be one |
| Observers.ReconcileTopology | backend/app/services/control_plane_service.py:63-150 | Starts exactly the stopped instances among the rows, or among the snapshot handles when there are no rows, in order, then validates the repaired deployment |
| Observers.RepairStartsEachOnce | backend/app/services/control_plane_service.py:89-122 | For any list of resources: one start call, in order, for each distinct id of a mock server that was stopped; afterwards these all run and no other server's state has moved |
| StoppedSet.ReconcileByRows | backend/app/services/control_plane_service.py:84-122 | In every state with rows: exactly the stopped servers the rows list are started, each once, in row order |
| StoppedSet.ReconcileBySnapshot | backend/app/services/control_plane_service.py:84-113 | Without rows but with an ACTIVE entry: the same for the readable items of that entry, in entry order |
| StoppedSet.ReconcileNothing | backend/app/services/control_plane_service.py:84-113 | Without rows and without an ACTIVE entry nothing is started |
| Validations.PingExactly | backend/app/services/connectivity_service.py:88-117 | After any number of pings that reached the budget: the verdict of one more, and whether it reaches the budget too |
| Validations.ValidateExactly | backend/app/services/connectivity_service.py:201-395 | In every state, deployed or not: PASSED iff there is a rule or link, every pinged pair is up and, if anything is pinged, no ping failure is left; the budget falls by the pings whose target runs and nothing else changes |
| Validations.NothingToCheckFails | backend/app/services/connectivity_service.py:275-279 | With neither rules nor links the validation fails and touches nothing |
| PooledValidations.HalvesMakePing | backend/app/providers/mock_provider.py:58-65 | A worker that reads the failure counter stores it less one later: undisturbed, the two halves make up exactly one ping |
| PooledValidations.StepRaces | backend/app/providers/mock_provider.py:58-65 | Under any interleaving of reads and stores: the counter never rises above its start, falls at most once per reader, has fallen once a charged ping has ended, and the first reader saw it whole; no other state moves; every answer is right |
| PooledValidations.GatheredState | backend/app/services/connectivity_service.py:397-443 | At the end of any schedule at least one failure is used up if any was left and any ping reached the counter, and no more than one by one |
| PooledValidations.ParallelAsSequential | backend/app/services/connectivity_service.py:240-443 | Under every schedule of the pool, with rules or without, workers racing for the counter or not: the verdict is that of the pings one by one if no job was given up on and FAILED otherwise; without failures left each single result is theirs and the provider untouched, else at least as many are left as one by one |
| PooledValidations.ParallelAccounts | backend/app/services/connectivity_service.py:446-479 | Under every schedule, with rules or without: result i is about link or rule i, tests_total = passed + failed = number of ping jobs, latencies are those of the jobs that passed in time |
| PooledValidations.SlotsFollowTopology | backend/app/services/connectivity_service.py:240-443 | Under every schedule slot i is about link i, from source to target, or about rule i, skipped iff that is not ICMP |
| ParallelPings.RepliesInSlotOrder | backend/app/services/connectivity_service.py:446-479 | Each result that passed contributes all its latencies, in slot order, and no other result any |
| PooledValidations.OutcomeExactly | backend/app/services/connectivity_service.py:201-479 | In every state and for every schedule: PASSED iff what is checked holds and nothing was given up on; tests_total is the number of pings; without failures left and time-outs tests_passed is the number of pairs that are up |
| PooledValidations.OutcomeExists | backend/app/services/connectivity_service.py:397-443 | Every state has a validation without a time-out |
| StoppedSet.LookupsAgree | backend/app/services/connectivity_service.py:489-496 | On a mock deployment the first match, the last match and the typed match all find the row of the host's own server |
| StoppedSet.NodeDownStops | backend/app/services/failure_service.py:77-137 | Failing a host adds exactly it to the stopped set; failing anything else is refused |
| StoppedSet.RecoverStarts | backend/app/services/failure_service.py:62-74 | Recovering a host removes exactly it |
| StoppedSet.DriftIsStoppedHosts | backend/app/services/drift_service.py:68-121 | Drift is exactly the stopped hosts in node order as warnings, and clean iff none is stopped (name without "missing") |
| StoppedSet.SubnetGoneIffNamedMissing | backend/app/providers/mock_provider.py:199-200 | A mock subnet looks gone iff the topology's name contains "missing" |
| StoppedSet.SubnetsLookGone | backend/app/services/drift_service.py:109-121 | With such a name and a link, drift is never clean |
| StoppedSet.ReconcileEmptiesStopped | backend/app/services/control_plane_service.py:89-147 | Reconcile starts exactly the stopped hosts, each once, in node order, and leaves none stopped; its last action is the verdict on the repaired deployment with the ping failures left |
| StoppedSet.RepairEmptiesStopped | backend/app/services/control_plane_service.py:89-122 | The repair alone: one start call per stopped host in node order, nobody stopped afterwards, nothing else changed |
| StoppedSet.SecondReconcileIdle | backend/app/services/control_plane_service.py:89-122 | A second reconcile starts nothing and only validates |
| StoppedSet.ValidationOfDeployed | backend/app/services/connectivity_service.py:201-395 | On every mock deployment, routers and rules included, the verdict and its cost are functions of the stopped set and the ping failures left |
| StoppedSet.OutcomeOfDeployed | backend/app/services/connectivity_service.py:201-479 | The same for every schedule of the pool on a deployment: verdict, totals and what is left of the failures, from the stopped set and the failures before |
| StoppedSet.ValidationIffNoneStopped | backend/app/services/connectivity_service.py:275-279 | For linked hosts without rules validation is PASSED iff there is a link, nothing is stopped and the ping budget is at most 0 |
| StoppedSet.RuleValidationIff | backend/app/services/connectivity_service.py:358-362 | With firewall rules validation is PASSED iff no ICMP rule names a stopped host and, if there is an ICMP rule, the ping budget is at most 0 |
| StoppedSet.LinksThatReach | backend/app/services/connectivity_service.py:88-117 | Without rules, the pings that can use up a failure are those of links whose ends are hosts and whose target runs |
| StoppedSet.FreshMockForgetsFaults | backend/app/providers/mock_provider.py:179-180 | A mock that was started afresh has every server of a deployment running |
| StoppedSet.RunsRefineStoppedSet | backend/app/services/control_plane_service.py:63-150 | Over any sequence of faults, recoveries, reconciles and validations (pings one after another), the stopped set evolves as a plain set and the ping failures as a counter; drift and validation report exactly these two |
| ParallelPings.StepKeepsInv | backend/app/services/connectivity_service.py:397-443 | Every scheduling step keeps: jobs start in order, read the failure counter once, then end once, at most min(cap, jobs) run at a time; collected slots hold their answers, all other slots are untouched |
| ParallelPings.PoolAdvances | backend/app/services/connectivity_service.py:409-443 | With at least one worker the pool is never stuck before it is done, and takes at most five steps a job |
| ParallelPings.ParallelRefinesSequential | backend/app/services/connectivity_service.py:397-443 | A finished validation under any schedule of independent jobs filled the slots as the sequential loop would, with timed-out jobs FAILED, in exactly five steps a job, with never more jobs running than the cap |
| SharedPings.SchedulesAreIndependent | backend/app/services/connectivity_service.py:397-443 | Jobs that look at a shared state and later act on it, with anything in between: each result, once there, stays, and the schedule is one of independent jobs with those answers |
| SharedPings.SharedGathers | backend/app/services/connectivity_service.py:425-443 | Once everything is done each job finished exactly once, its slot holds its answer or a time-out, and prefilled slots are untouched |
| SharedPings.ScheduleExists | backend/app/services/connectivity_service.py:409-443 | From any point of a validation the pool can be run to its end without giving up on a job |
| ParallelPings.CollectAnswers | backend/app/services/connectivity_service.py:425-443 | The collecting loop fills each job's slot in place with its answer, or FAILED on time-out, and records results in submission order |
| ParallelPings.CollectedIsSequential | backend/app/services/connectivity_service.py:425-443 | With the pool's answers that loop stores exactly the sequential result |
| ParallelPings.RuleJobsFit | backend/app/services/connectivity_service.py:322-334 | ICMP rules get distinct empty slots at their own positions, all others are prefilled |
| ParallelPings.LinkJobsAre | backend/app/services/connectivity_service.py:248-252 | Plain links get one job each, in link order, and no slot is prefilled |
| ParallelPings.ValidationAccounts | backend/app/services/connectivity_service.py:446-479 | Each link or rule has one result about itself, SKIPPED iff it is not pinged; tests_total = passed + failed = number of ping jobs; the latencies are those of the jobs that passed in time, in order |
| PingMetrics.P95IsNearestRank | backend/app/services/ping_metrics.py:36-42 | The value is the least sample x with 20 * (number of samples at most x) >= 19 * n |
| PingMetrics.P95IgnoresOrder | backend/app/services/ping_metrics.py:36-42 | It depends only on the multiset of samples |
| PingMetrics.RankInRange | backend/app/services/ping_metrics.py:40-41 | The index clamp never changes the index |
| PingMetrics.MeanIsBalanced | backend/app/services/ping_metrics.py:30-33 | The mean is the one value from which the samples deviate by nothing on balance |
| Requirements.EvaluateRequirements | backend/app/services/requirements_evaluation.py:39-108 | all_ok iff every given threshold is met, iff every reported category passed; a category is reported iff it has a threshold, and passes iff its own measurements are there and within it |
| Requirements.ParseSpec | backend/app/services/requirements_evaluation.py:17-36 | The thresholds are passed on as given; none at all is no specification |
| Scenario.Run | backend/app/services/scenario_service.py:545-965 | The loop computes the judged run; PASSED iff all steps held and the requirement gates hold; a failed run names the first record that failed, all earlier ones having passed; a passed one names none |
| Scenario.FirstFailedFindsFailure | backend/app/services/scenario_service.py:252-261 | The label is the name of a failed record before which all passed; there is none only if all passed |
| Scenario.RecordsSay | backend/app/services/scenario_service.py:227-247 | Name, action, expected and actual label of every kind of record; it passed iff the two labels agree, except that a skipped cleanup passes and a crashed validation fails |
| Scenario.EndsAtFirst | backend/app/services/scenario_service.py:621-673 | The first turn that comes too late, or whose deploy does not answer ACTIVE, ends the run: its record, the quota's or the deploy's, is the last |
| Scenario.NotYetEnded | backend/app/services/scenario_service.py:619-673 | Until then every step has its record and none is about the quota |
| Scenario.EndedBefore | backend/app/services/scenario_service.py:562-617 | The same for an implicit deploy that comes too late or raises: one record and no step |
| Scenario.GatesExactly | backend/app/services/scenario_service.py:872-888 | Each threshold is compared with its own measurement: success rate, mean, 95th percentile, recovery time |
| Scenario.ExecuteStep | backend/app/services/scenario_service.py:640-870 | One turn: record, verdict, abort flag, failure clock, reconcile flag, recovery and totals change as the step specification says and nothing else does |
| Scenario.VerdictAccounting | backend/app/services/scenario_service.py:562-633 | The runner against arbitrary answers: records are one per executed step in order, after one implicit deploy if none is written; an abort ends with a failed deploy or quota record; the verdict is PASSED iff gates hold and every record passed, leaving out only an implicit deploy whose answer is a status other than ACTIVE |
| ScenarioRuns.VerdictIsTheRecords | backend/app/services/scenario_service.py:562-633 | The runner with the real deploy, on any provider and from any state: PASSED iff every record passed and the gates hold, without exception |
| Scenario.QuietDeployFailureExample | backend/app/services/scenario_service.py:574-604 | About the runner alone: nothing in it rules out a PASSED verdict over a FAILED implicit deploy record; only the deploy service does |
| Scenario.RecordsAccount | backend/app/services/scenario_service.py:619-870 | The same accounting after every turn |
| Scenario.AbortStops | backend/app/services/scenario_service.py:619-621 | Nothing runs after an abort |
| Scenario.RecoveryMeasured | backend/app/services/scenario_service.py:727-734 | recovery_seconds is set at most once: at the first expected-pass validation that passed after a successful fault and a later successful reconcile, measured from the latest fault before it |
| Scenario.TotalsAggregate | backend/app/services/scenario_service.py:710-713 | The totals and latencies the gates see are those of the executed validations that returned, each once and in order, whether or not the step met its expectation |
| Scenario.EachTurnAdds | backend/app/services/scenario_service.py:710-713 | Turn by turn: a validation that returned adds its tests and all its latencies, nothing else adds any |
| ScenarioRuns.StepMatches | backend/app/services/scenario_service.py:640-870 | Every step on the mock, validations and the one inside reconcile run by any schedule of the pool, keeps the three stores matched to the abstract machine (down or up, stopped hosts, ping failures left); it is judged met iff the machine expects so and, for a validation, no ping was given up on; its tests_total and, without failures left, tests_passed are the machine's |
| ScenarioRuns.ScriptsAreJudgedExactly | backend/app/services/scenario_service.py:486-965 | Every script on every topology the mock can deploy (accepted, a host, every host linked; rules, routers and any name allowed), with any ping failures left, any schedules, races and time-outs of its pings, with its own or an implicit deploy: overall ok iff its expectations are those of the abstract machine along its run, a given-up validation counting as failed; each record is right about its own |
| ScenarioRuns.FailedStepIsFirstWrong | backend/app/services/scenario_service.py:946-950 | On the mock, for every script, schedule and time-out: the step a run names is the first one whose expectation is not the abstract machine's, and it names none iff all are right |
| ScenarioRuns.AvailabilityIsExact | backend/app/services/scenario_service.py:872-888 | Without ping failures and time-outs the machine is deterministic and so are the totals: with an availability requirement a run is PASSED iff the script's expectations are right and the share of pings between running hosts reaches the threshold |
| ScenarioRuns.RecoveryScenarioExactly | docs/topology-support.md:13 | On every topology the mock can deploy, for every host, any ping failures left and any schedules, that scenario passes iff validation passes on the running deployment, no ping of its first and last validation is given up on, and the middle one pings the host or gives up |
| ScenarioRuns.RecoveryScenarioPasses | docs/topology-support.md:13 | Deploy, validate, fail a host, validate expecting failure, drift, reconcile, validate: where the exact condition holds, all seven records passed and recovery time is last validation minus fault |
| ScenarioRuns.LinkedHostsRecover | docs/topology-support.md:13 | On linked hosts without rules that condition holds for every host iff no ping failure is left |
| ScenarioRuns.ReconcileLiesBetween | backend/app/services/scenario_service.py:727-734 | On the mock without cleanup steps, whatever the schedules and time-outs, a validation that passes after a successful fault on a host it pings (without rules, any host) has a successful reconcile strictly between |
| ScenarioRuns.RunMatches | backend/app/services/scenario_service.py:619-870 | Each run follows a run of the abstract machine turn by turn; after any number of turns world and machine still match |
| ScenarioRuns.JudgeAll | backend/app/services/scenario_service.py:619-870 | When no deploy fails and time suffices, everything is executed and the verdict is the conjunction of the steps |
| ScenarioRuns.FreshMockIsDown | backend/app/providers/mock_provider.py:14-31 | An unused mock with empty stores is a state the theorems start from |
| ScenarioRuns.TwoHostsAreSuitable | backend/app/topology_compiler.py:10-128 | Two hosts on one link make a topology that the scenario theorems are about |
| ScenarioRuns.RunExists | backend/app/services/scenario_service.py:486-965 | Every script on a compiled topology has a run from every state, without a time-out, so the theorems are not about nothing |
| ScenarioPlan.BuildExpectedRows | backend/app/services/scenario_plan.py:24-49 | The planned titles and names, per provider kind, in deploy order |
| ScenarioPlan.ExpectedRowsAre | backend/app/services/scenario_plan.py:24-49 | Titles and names of a non-AWS plan spelled out |
| ScenarioPlan.AwsExpectedRowsAre | backend/app/services/scenario_plan.py:24-49 | Titles and names of an AWS plan spelled out |
| ScenarioPlan.IdempotencyPlanLines | backend/app/services/scenario_plan.py:52-88 | One line per planned name, SKIP iff it is recorded, and a final DELETE line iff a recorded name is not planned |
| ScenarioPlan.PlanLinesExactly | backend/app/services/scenario_plan.py:52-88 | Against any entry or none: line i is SKIP with the expected title and name if that name is recorded and CREATE if not; a DELETE line follows iff a recorded name is not planned, with exactly these names |
| ScenarioPlan.FindActiveDeployment | backend/app/services/local_state_store.py:189-208 | Some ACTIVE entry of that name with the greatest topology id, or none exists |
| ScenarioPlan.DeployedNamesArePlanned | backend/app/services/scenario_plan.py:24-49 | A complete non-AWS deployment has exactly the planned names in order |
| ScenarioPlan.PlanAfterDeploySkipsAll | backend/app/services/scenario_plan.py:52-88 | The snapshot a fresh deploy wrote, taken by its key, plans as SKIP lines only, one for each planned name |
| ScenarioPlan.NewestPlanSkipsAll | backend/app/services/scenario_plan.py:52-88 | After a fresh deploy and any number of further ones, planning against the entry the lookup by name returns gives only SKIP lines, one for each planned name, unless a newer namesake is ACTIVE |
| ScenarioPlan.NewestEntryIsOwn | backend/app/services/local_state_store.py:189-208 | The entry consulted is the topology's own iff no ACTIVE namesake has a greater id |
| ScenarioPlan.DeployAwsResources | backend/app/services/deployment_service.py:450-570 | What a successful AWS deploy records: VPC, subnets with whatever attachments are new, then hosts by name with the shared security group once |
| ScenarioPlan.AwsPlanNeverDeletes | backend/app/services/deployment_service.py:591-658 | Whatever optional resources AWS reports, recorded names are planned names, so no DELETE line appears |
| ScenarioPlan.AwsRecordsEveryId | backend/app/services/deployment_service.py:450-658 | Everything AWS reports is recorded: the VPC first, each subnet with the attachments it came with, each host in alphabetical order after its security group |
| VpcTeardown.DeleteNetwork | backend/app/providers/aws_provider.py:463-506 | Wherever it stops, everything changed was CloudNet-tagged and inside the VPC, in the order instances, groups, tables, gateways, subnets, VPC, which goes last, after every subnet; a VPC that is default or has no tag Project=CloudNet and no Name starting with "cloudnet-" sees no change; success means nothing of ours is left inside; without failing calls a removable VPC is always removed |
| VpcTeardown.TagValueIsFirst | backend/app/providers/aws_provider.py:894-898 | The value of the first tag of the key, or nothing if no tag has it |
| VpcTeardown.CloudNetNeedsTag | backend/app/providers/aws_provider.py:900-904 | Nothing counts as CloudNet's without a tag Project=CloudNet or a Name that starts with "cloudnet-"; with one it does, if no key is repeated |
| VpcTeardown.CloudNetInstanceIds | backend/app/providers/aws_provider.py:940-968 | All live instances of the VPC, or a refusal iff one of them is not CloudNet's |
| VpcTeardown.DeleteSecurityGroups | backend/app/providers/aws_provider.py:1105-1122 | Every cloudnet-sg group of the VPC is deleted; one that is not tagged stops the teardown |
| VpcTeardown.DeleteRouteTables | backend/app/providers/aws_provider.py:1124-1141 | Every tagged table is deleted, after its non-main associations are released; untagged tables and main associations are left alone |
| VpcTeardown.DeleteInternetGateways | backend/app/providers/aws_provider.py:1143-1158 | Every tagged gateway attached to the VPC is detached and then deleted, no other |
| VpcTeardown.DeleteSubnets | backend/app/providers/aws_provider.py:480-491 | Subnets go only if all of them are tagged, and only those of this VPC |
| VpcTeardown.DeleteInside | backend/app/providers/aws_provider.py:469-478 | Success means that instances, groups, tables and gateways of ours are all gone, in that order; nothing else was touched, no subnet and not the VPC |
| VpcTeardown.FindVpc | backend/app/providers/aws_provider.py:906-910 | The described VPC, or none of that id exists |
| VpcTeardown.RefusedVpcIsUntouched | backend/app/providers/aws_provider.py:917-938 | A missing, default or untagged VPC, or one with a foreign live instance, sees no mutation at all |
| VpcTeardown.UntaggedSubnetKeepsVpc | backend/app/providers/aws_provider.py:480-485 | One untagged subnet keeps every subnet and the VPC in place |

## Left out

- Reading CIDR text: `ipaddress.ip_network` is the parameter `CidrReader`; everything after it (masking, overlap) is modelled.
- Unicode white space, non-string JSON fields and missing keys other than the ones a topology's defaults turn into empty strings; JSON and SHA-256 themselves.
- Python's recursion limit: the depth-first search of a very long chain would hit it, the model's does not.
- FastAPI routes, CLI, logging, traces, events, connectivity and failure rows: rows are written but nothing modelled reads them.
- The database as more than rows with increasing ids per session; failures while writing `state.json` (the source logs and ignores them).
- The topology DELETE endpoint; "rows lost" in `Lifecycle.LoseRows` is the closest thing.
- `parse_scenario_steps`, quotas other than the duration quota, `_attempt_scenario_cleanup` and `cleanup_after_run` (they act after the verdict), the Terraform text.
- OpenStack, SSH and SSM details.
- Providers.Provider.BeforeOp: simulated latency and random errors, which are off unless failures are simulated, are left out; they are draws of a random generator.
- The AWS branches of drift, reconcile, validation and failed deploys; AWS firewall rules, the instance limit and the refusal to place a host; of a successful AWS deploy only what is recorded is modelled.
- `multi_homed_warnings`, pure reporting.
- Isolation of topologies at the mock provider: its ids come from names, so two topologies with a host of the same name share a server there.
- Exactly-once creation on AWS under retry, and absence of leaks when a teardown raises: the source does not provide either (cleanup ignores the error and drops the rows).
- Observers.ExecutePing: simulated packet loss is 0, its default; with a positive rate a ping is a random draw. Providers other than the mock ping over SSH or SSM.
- Observers.ReconcileTopology: the plan that the source recompiles here is used for AWS only; stored topologies were accepted, so its compile error is not modelled. The drift report it also returns is `Observers.DetectTopologyDrift` of the state before.
- Observers.ValidateTopologyLinks: one ping after another, statuses only, and no result rows; the pool and the metrics are `PooledValidations` and `PingMetrics`.
- Observers.RecordNodeAction: a stop or start that raises, which the mock's never does, is left out; the source records it as a FAILED event.
- Requirements.ParseSpec: starts from the four optional thresholds, not from the nested dictionary they are looked up in.
- ScenarioPlan.PlanAfterDeploySkipsAll: takes the entry by its key; `ScenarioPlan.NewestPlanSkipsAll` takes it by name as the source does.
- ScenarioRuns.AvailabilityIsExact: latency and recovery thresholds depend on the provider's latencies and the clock; with ping failures left the schedule decides which pings fail.
- Observers.DetectTopologyDrift: the mock branch; a status call that raises, which the mock's never does, is left out.
- Deployment.DeployTopology: non-AWS providers; the warnings about hosts on several links are left out.
- Deployment.TeardownProviderResources: non-AWS providers; on AWS the source deletes the VPC, which is `VpcTeardown.DeleteNetwork`, and refuses rows without one.
- ScenarioPlan.DeployAwsResources: the rows of a deploy in which every call succeeds and every host is on a subnet; firewall rules record nothing.
- Deployment.CreateAndRecord: providers echo the name they were given; the source records the name in the answer.
- Rollback.FailedDeployRollsBack: about providers that are honest (fresh non-empty ids, failed creates leave no trace, deleting is refused while something live depends on the resource); the mock deletes nothing and has no live set.
- Lifecycle.LostRowsAreRestored: asks that every lost row can be read back; `Lifecycle.DeployedIsReadable` shows that a deploy leaves only such rows.
- Janitor.RunCleanupJanitor: entries that are not dictionaries are skipped by the source and absent from the model.
- VpcTeardown.DeleteNetwork: listings are those of the account when the teardown starts; someone else's changes during it are not modelled.
- PingMetrics.P95IsNearestRank: exact arithmetic instead of doubles. The double nearest to 0.95 lies below 19/20 and rounding is monotone, so `ceil(0.95 * n)` is the same index for any list that fits in memory.
- Requirements.EvaluateRequirements: thresholds and measurements are reals; the rounded figures in the report are left out.
- Scenario.Run: exceptions that escape `run` (it then returns nothing to judge) are not modelled.
- Providers.Provider.CreateResource: the provider's three creates are one method over a request datatype.
