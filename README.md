# externalip-manager address resolution, modelled in Dafny

externalip-manager is a Kubernetes controller. For every Service annotated with
`externalip.spacebird.dev/cluster-external-ip-source` it looks up the named
`ClusterExternalIPSource` custom resource and resolves that source's solvers to a list of
external IP addresses. This project models the resolution engine in both of the code
base's generations:

- **The newer tree** (`external_ip_source`). Solvers live in a shared registry keyed by
  `(SolverKind, AddressKind)`. A source holds an optional IPv4 and an optional IPv6
  solver list. Each list is queried in `firstFound` or `all` mode. A merge solver
  assembles one address bit by bit from the registry's other solvers.
- **The older tree** (`ip_source`). The merge solver owns its sub-solvers. The IP-API
  solver has a different cache and backoff policy.

Both trees share one set of datatypes:

- `Ip`: an address is a family tag plus an integer below 2^32 or 2^128.
- `Crd`: the custom-resource configuration.
- `Kube`: the slice of the Kubernetes object model the core reads.

The rest of the project:

- Pure code is modelled as functions with lemmas.
- An object whose fields the source updates is a class:
  - the two IP-API solvers (`cache` field);
  - the two source registries (`ceips` map and the published events).
- A loop in the source is a method with loop invariants. Each method is proved equal to
  a specification function, and the properties the source promises are lemmas about
  that function:
  - the merge loops;
  - the solver-list loop;
  - the registry's partition, index and publish loops.

Boundaries:

- Time is an explicit `now: nat` in milliseconds. It replaces `Instant::now()`, and one
  value is used per query pass.
- Each provider's HTTP exchange is an oracle, indexed by provider, family and call
  number. It replaces reqwest and the tests' `MockSolver`.
- DNS lookups and IP-string parsing are function parameters.
- A lock that cannot be acquired within its timeout is membership of the registry key in
  a set of contended keys.
- The listing of custom resources or services is an input `Result<seq<_>, KubeError>`.
- A Rust panic is the error value `Panicked`. Lemmas show it cannot happen for a merge
  that construction accepted, or for a list built by validation.

Module layout (one file each):

- Shared data: `Wrappers`, `Ip`, `Bits`, `Kube`, `Http`, `Crd`, `MergeMasks`,
  `StaticSolver`, `LbIngress`, `SourceIndex`.
- Newer tree: `ExtIpApi`, `ExtErrors`, `ExtIpApiSolver`, `ExtSolverCells`, `ExtMerge`,
  `ExtSolvers`, `ExtSource`, `ExtRegistry`.
- Older tree: `LegacyErrors`, `LegacyIpApiSolver`, `LegacyMerge`, `LegacyRegistry`.
- The services: `Svc`.
- The unit tests of both IP-API solvers, restated as scenarios: `IpApiScenarios`.

Where the code is inconsistent (it does not compile as written), the model follows the code that uses a
declaration rather than the declaration itself:

- `crd/v1alpha1/mod.rs` shows neither `Static` nor `Merge` in `SolverKind`, nor
  `PartialSolver`, nor the `Ipify` provider. Both trees' solvers match on all of them,
  for example `external_ip_source/solvers/mod.rs:64-71` and
  `ip_source/solvers/ip_api/solver.rs:62`. The model therefore adds
  `Static(addresses)`, `Merge(partialSolvers)`, `PartialSolver(mask, solver)` with a
  `PartialSolverKind` that has no merge variant, and `Ipify`.
- `IpProviderError::RateLimited` is declared with a `remaining` field but matched
  without one. It is a plain classification here.
- The older `my_ip.rs` does not implement the older provider trait as declared: it has
  the wrong receiver and the wrong error type. The older tree's HTTP classification
  follows `ipify.rs`: 429 is a rate limit, and any other failure is `Other`.

## Model

In the source column, every path is relative to the repository root.

| member | source | states |
|---|---|---|
| Ip.ToU128 | crates/manager/src/external_ip_source/solvers/merge.rs:49-54 | `ip_to_u128` widens an address to its integer; an IPv4 address maps below 2^32 |
| Ip.FromBits | crates/manager/src/external_ip_source/solvers/merge.rs:115-119 | `from_bits` builds an address of the requested family whose integer is the given value |
| Ip.ToU128RoundTrip | crates/manager/src/ip_source/solvers/merge.rs:81-86 | rebuilding an address from its family and `ip_to_u128` value gives the address back |
| Ip.ToU128Injective | crates/manager/src/ip_source/solvers/merge.rs:81-86 | within one family `ip_to_u128` is injective |
| Ip.OfFamily | crates/manager/src/external_ip_source/solvers/static.rs:34-49 | the family filter keeps exactly the addresses of the requested family and never grows the list |
| Ip.OfFamilyAppend | crates/manager/src/external_ip_source/solvers/static.rs:37-49 | filtering a concatenation is the concatenation of the filtered parts, so order is kept |
| Ip.OfFamilyPartition | crates/manager/src/ip_source/solvers/static.rs:34-42 | the IPv4 and the IPv6 filtered lists are a permutation split of the input, and their lengths add up to its length |
| Ip.OfFamilyKeepsPure | crates/manager/src/ip_source/solvers/static.rs:29-44 | a list that is all of one family passes the filter unchanged |
| Ip.OfFamilyIdempotent | crates/manager/src/external_ip_source/solvers/static.rs:34-49 | filtering twice is filtering once, so repeated queries agree |
| Ip.ParseAs | crates/manager/src/external_ip_source/solvers/load_balancer_ingress.rs:44-51 | a string parsed as a family yields, when it parses, an address of that family |
| Bits.AndBound | crates/manager/src/external_ip_source/solvers/merge.rs:110 | `x & m` is at most `x` and at most `m` |
| Bits.MaskedDisjoint | crates/manager/src/external_ip_source/solvers/merge.rs:110 | parts taken under disjoint masks are disjoint |
| Bits.DisjointSumIsOrAll | crates/manager/src/external_ip_source/solvers/merge.rs:114 | the sum of pairwise disjoint values equals their bitwise OR |
| Bits.AndLowMask | crates/manager/src/external_ip_source/solvers/merge.rs:110 | ANDing with the low mask `2^k-1` is `x mod 2^k` |
| Bits.AndHighMask | crates/manager/src/external_ip_source/solvers/merge.rs:110 | ANDing an n-bit value with the high mask `2^n-2^k` clears its low k bits |
| Crd.FromPartial | crates/manager/src/external_ip_source/solvers/merge.rs:97 | `SolverKind::from(&PartialSolverKind)` never yields a merge |
| Crd.ToPartial | crates/manager/src/external_ip_source/solvers/merge.rs:97 | the partial configuration of a solver kind exists exactly when it is not a merge |
| Crd.FromPartialRoundTrip | crates/manager/src/external_ip_source/solvers/merge.rs:97 | `FromPartial` and `ToPartial` are inverse on non-merge kinds |
| Crd.ObjectRef | crates/manager/src/external_ip_source/registry.rs:41 | the reference of a resource carries the resource kind `ClusterExternalIPSource`, its name and its namespace |
| Crd.WireTag | crates/manager/src/crd/v1alpha1/mod.rs:45-55 | every solver kind has a non-empty serialised tag (`ipAPI`, `dnsHostname`, `loadBalancerIngress`, plus `static` and `merge`) |
| Crd.WireTagsDistinct | crates/manager/src/crd/v1alpha1/mod.rs:45-55 | two solver kinds share a tag exactly when they are the same variant |
| Crd.QueryModeTag | crates/manager/src/crd/v1alpha1/mod.rs:37-43 | the query modes serialise to non-empty tags (`firstFound`, `all`) |
| Crd.QueryModeTagsDistinct | crates/manager/src/crd/v1alpha1/mod.rs:37-43 | the two query-mode tags differ |
| StaticSolver.Static.GetAddresses | crates/manager/src/external_ip_source/solvers/static.rs:28-50 | the static solver never fails and answers exactly the configured addresses of the requested family; the older `ip_source/solvers/static.rs:24-45` is the same filter |
| StaticSolver.GetAddressesPartition | crates/manager/src/external_ip_source/solvers/static.rs:39-47 | the IPv4 answer and the IPv6 answer together are the configured list, as multisets |
| StaticSolver.GetAddressesKeepsOrder | crates/manager/src/external_ip_source/solvers/static.rs:34-49 | the answer keeps the configured order: it distributes over concatenation |
| StaticSolver.GetAddressesSingleFamily | crates/manager/src/ip_source/solvers/static.rs:34-42 | a single-family list is answered whole for its family and as the empty list for the other |
| LbIngress.IngressAddresses | crates/manager/src/external_ip_source/solvers/load_balancer_ingress.rs:42-53 | every address kept from the ingress list is of the requested family, at most one per entry |
| LbIngress.GetAddresses | crates/manager/src/external_ip_source/solvers/load_balancer_ingress.rs:28-53 | a missing `status`, `status.loadBalancer` or `status.loadBalancer.ingress` field is each its own error, exactly then; an answer holds only addresses of the requested family; the older `ip_source/sources/load_balancer_ingress.rs:23-52` is the same chain |
| LbIngress.IngressAddressesAppend | crates/manager/src/external_ip_source/solvers/load_balancer_ingress.rs:42-53 | the ingress filter distributes over concatenation, so ingress order is kept |
| LbIngress.IngressAddressesSingle | crates/manager/src/external_ip_source/solvers/load_balancer_ingress.rs:44-51 | an entry without `ip` contributes nothing; one with `ip` contributes its parse in the requested family, or nothing |
| LbIngress.IngressAddressesMembers | crates/manager/src/external_ip_source/solvers/load_balancer_ingress.rs:43-52 | an address is answered exactly when some ingress entry's `ip` parses to it |
| LbIngress.EmptyIngressIsEmptyAnswer | crates/manager/src/ip_source/sources/load_balancer_ingress.rs:36-51 | an empty ingress list is answered with the empty list, not an error |
| MergeMasks.FirstMismatch | crates/manager/src/external_ip_source/solvers/merge.rs:67-91 | the `find` is none exactly when every mask has the requested family; otherwise it is the first mask of the wrong family |
| MergeMasks.Parts | crates/manager/src/external_ip_source/solvers/merge.rs:110-112 | part i is the last address of partial solver i ANDed with mask i |
| MergeMasks.PartsPush | crates/manager/src/ip_source/solvers/merge.rs:131-133 | pushing one address and its part extends the parts of the prefix by that part |
| MergeMasks.PartsSumBound | crates/manager/src/external_ip_source/solvers/merge.rs:110-114 | the sum of parts never exceeds the sum of masks |
| MergeMasks.IPv4MaskSumBound | crates/manager/src/external_ip_source/solvers/merge.rs:32-38 | n IPv4 masks sum to at most n times `u32::MAX` |
| MergeMasks.ValidIPv4MasksSumToU32Max | crates/manager/src/external_ip_source/solvers/merge.rs:39-44 | accepted all-IPv4 masks (fewer than 2^96 of them) sum to exactly `u32::MAX` |
| MergeMasks.MergedValueFits | crates/manager/src/external_ip_source/solvers/merge.rs:114-119 | for accepted masks of the requested family the summed parts fit the family, so `u32::try_from(...).expect` cannot panic |
| MergeMasks.DisjointMergeIsOr | crates/manager/src/external_ip_source/solvers/merge.rs:110-114 | under pairwise disjoint masks the summed parts are the bitwise OR of the parts |
| MergeMasks.PrefixAndHostMaskSum | crates/manager/src/external_ip_source/solvers/merge.rs:39 | a prefix mask and its host mask sum to `u32::MAX`, so construction accepts them |
| MergeMasks.PrefixAndHostMerge | crates/manager/src/external_ip_source/solvers/merge.rs:110-120 | merging under a prefix and host mask pair is the network part of the first address plus the host part of the second |
| MergeMasks.NetworkPart | crates/manager/src/external_ip_source/solvers/merge.rs:110 | ANDing with a prefix mask clears the host bits |
| MergeMasks.HostPart | crates/manager/src/external_ip_source/solvers/merge.rs:110 | ANDing with a host mask keeps only the host bits |
| MergeMasks.ExampleMerge | crates/manager/src/external_ip_source/solvers/merge.rs:110-120 | masks 255.255.255.0 and 0.0.0.255 are accepted, and over 10.0.0.1 and 203.0.113.77 they give 10.0.0.77 |
| ExtIpApi.FromReqwest | crates/manager/src/external_ip_source/solvers/ip_api/mod.rs:42-50 | a reqwest error becomes `InvalidResponse` exactly when it is a decode error, else `RequestFailed`; never a rate limit |
| ExtIpApi.NewResponse | crates/manager/src/external_ip_source/solvers/ip_api/mod.rs:60-71 | a new response is stamped now, with the given timeout and response, and expires at now plus the timeout |
| ExtIpApi.Remaining | crates/manager/src/external_ip_source/solvers/ip_api/mod.rs:75-77 | the saturating remaining time lies within the timeout, and is zero exactly when the elapsed time reaches the timeout |
| ExtIpApi.NewResponseLifetime | crates/manager/src/external_ip_source/solvers/ip_api/mod.rs:60-77 | a response made at t0 is unexpired exactly until t0 plus the timeout, inclusive, because the comparison is strict; meanwhile the remaining time counts down to that instant |
| ExtIpApi.RemainingAgreesWithExpiry | crates/manager/src/external_ip_source/solvers/ip_api/mod.rs:66-77 | time remaining implies unexpired; an expired response has zero remaining; the two disagree only at the exact expiry instant |
| ExtIpApi.ProviderRespond | crates/manager/src/external_ip_source/solvers/ip_api/provider_myip.rs:40-65 | the provider's classification: success exactly on a non-error, non-429 reply with a body, answering that one address; 429 is a rate limit; a decode failure or missing body is an invalid response; the response lives for the provider's cache duration (900 s for my-ip, 300 s for ipify) |
| ExtIpApiSolver.CachedAnswer | crates/manager/src/external_ip_source/solvers/ip_api/solver.rs:62-80 | the cache alone answers exactly when it is unexpired and holds addresses or a rate limit; it answers those addresses, or the rate-limit error |
| ExtIpApiSolver.CachedAnswerNeverPanics | crates/manager/src/external_ip_source/solvers/ip_api/solver.rs:62-106 | every error of a query is a provider error |
| ExtIpApiSolver.CacheHit | crates/manager/src/external_ip_source/solvers/ip_api/solver.rs:62-72 | unexpired cached addresses are returned, the cache is kept, and the provider is not called |
| ExtIpApiSolver.RateLimitHit | crates/manager/src/external_ip_source/solvers/ip_api/solver.rs:73-77 | an unexpired cached rate limit is returned as an error, the cache is kept, and the provider is not called |
| ExtIpApiSolver.CalledIffUnusable | crates/manager/src/external_ip_source/solvers/ip_api/solver.rs:62-84 | over a well-shaped cache, the provider is called exactly when the cache is empty or expired; a successful call is returned and cached |
| ExtIpApiSolver.RepeatedRateLimitBacksOff | crates/manager/src/external_ip_source/solvers/ip_api/solver.rs:85-98 | a rate limit over an expired cached rate limit caches a rate limit stamped now, timing out after min(2 x previous, 2 h) |
| ExtIpApiSolver.FirstRateLimitCachesResponse | crates/manager/src/external_ip_source/solvers/ip_api/solver.rs:99-101 | a rate limit over no cache or expired addresses caches the provider's response as it came |
| ExtIpApiSolver.OtherFailureClearsCache | crates/manager/src/external_ip_source/solvers/ip_api/solver.rs:103-106 | a request failure or invalid response clears the cache and is returned as an error |
| ExtIpApiSolver.StepKeepsCacheShape | crates/manager/src/external_ip_source/solvers/ip_api/solver.rs:83-105 | after every call, whatever the cache held before and whatever the provider said, the cache holds nothing, addresses or a rate limit; a well-formed cache stays well formed |
| ExtIpApiSolver.CachedAnswerIsStable | crates/manager/src/external_ip_source/solvers/ip_api/solver.rs:62-80 | a query answered from the cache answers the same again at the same instant |
| ExtIpApiSolver.BackoffClosedForm | crates/manager/src/external_ip_source/solvers/ip_api/solver.rs:22 | n back-to-back doublings with the cap give min(t x 2^n, 2 h) |
| ExtIpApiSolver.BackoffBounded | crates/manager/src/external_ip_source/solvers/ip_api/solver.rs:22 | however often the rate limit repeats, the backoff never exceeds 2 hours |
| ExtIpApiSolver.IpApiSolver.constructor | crates/manager/src/external_ip_source/solvers/ip_api/solver.rs:32-42 | `new` starts with an empty cache, over the configured provider's HTTP classification |
| ExtIpApiSolver.IpApiSolver.WithTestProvider | crates/manager/src/external_ip_source/solvers/ip_api/solver.rs:43-50 | `with_test_provider` starts with an empty cache over the given provider |
| ExtIpApiSolver.IpApiSolver.GetAddresses | crates/manager/src/external_ip_source/solvers/ip_api/solver.rs:56-107 | the answer, the new cache and the provider call count are those of the cache-and-backoff step from the old cache |
| ExtSolverCells.DnsLookup | crates/manager/src/external_ip_source/solvers/dns_hostname.rs:40-61 | a DNS answer holds only addresses of the requested family; a resolver failure is a DNS error |
| ExtSolverCells.Acquire | crates/manager/src/external_ip_source/source.rs:146-157 | a cell is obtained exactly when its key is registered and its lock is free; a missing key is `NotFound` and a held lock `LockTimeout` |
| ExtSolverCells.ResolveLeaf | crates/manager/src/external_ip_source/solvers/mod.rs:28-38 | querying a non-merge solver keeps its configuration, never panics and changes only an IP-API solver; the load-balancer and static answers are those solvers' functions |
| ExtSolvers.SolverFrom | crates/manager/src/external_ip_source/solvers/mod.rs:47-75 | every non-merge configuration builds a solver of that configuration; a merge builds exactly when `Merge::new` accepts it, and its error is passed on unchanged; an IP-API solver starts with an empty cache |
| ExtSolvers.AddBuiltSolver | crates/manager/src/external_ip_source/solvers/mod.rs:47-75 | adding a built solver keeps the registry built: consistent, with every merge accepted |
| ExtSolvers.QueriesKeepBuilt | crates/manager/src/external_ip_source/solvers/merge.rs:96-106 | queries, which keep keys and consistency, keep the registry built |
| ExtSolvers.Dispatch | crates/manager/src/external_ip_source/solvers/mod.rs:28-38 | `get_addresses` of a cell is the merge query for a merge and the leaf answer otherwise, and only that cell changes |
| ExtSolvers.DispatchNeverPanics | crates/manager/src/external_ip_source/solvers/merge.rs:114-118 | in a built registry, no solver's query panics |
| ExtSolvers.GetAddresses | crates/manager/src/external_ip_source/solvers/mod.rs:33-38 | the dispatching method computes the dispatch function |
| ExtMerge.New | crates/manager/src/external_ip_source/solvers/merge.rs:26-46 | construction succeeds exactly when the widened masks sum to `u32::MAX` or `u128::MAX`, keeps the partial solvers unchanged and in order, and otherwise fails as malformed with that sum |
| ExtMerge.WrappedMaskSumRejected | crates/manager/src/external_ip_source/solvers/merge.rs:32-44 | masks `ffff:…:ffff` and `::1:0:0`, whose `u128` sum wraps around to `u32::MAX`, are rejected with their true sum |
| ExtMerge.PartialKey | crates/manager/src/external_ip_source/solvers/merge.rs:97 | a partial solver is looked up under a non-merge kind and the queried family |
| ExtMerge.Visit | crates/manager/src/external_ip_source/solvers/merge.rs:96-113 | one partial solver: a missing cell, a lock timeout and a solver error each end the merge; an empty answer is `NoPartialAddresses`; otherwise the last address is taken and only that cell changes |
| ExtMerge.Collect | crates/manager/src/external_ip_source/solvers/merge.rs:95-113 | the part loop keeps the registry consistent; on success it has one address per partial solver, each found with its lock free; it never panics |
| MergeMasks.Assemble | crates/manager/src/external_ip_source/solvers/merge.rs:114-120 | the summed parts become one address of the family exactly when they fit, with that integer; otherwise, for IPv4, the panic of `u32::try_from(..).expect`, and for IPv6 the overflow of the `u128` parts sum (a debug-build panic); an accepted merge reaches neither (`MergedValueFits`); the older `ip_source/solvers/merge.rs:135-141` is the same |
| ExtMerge.Query | crates/manager/src/external_ip_source/solvers/merge.rs:59-127 | a mask of the wrong family fails before any partial solver is consulted, leaving the registry untouched; success is exactly one address of the requested family |
| ExtMerge.QuerySuccessValue | crates/manager/src/external_ip_source/solvers/merge.rs:110-126 | a successful merge's address is the sum of each last address ANDed with its mask, and is at most the mask sum |
| ExtMerge.AcceptedMergeNeverPanics | crates/manager/src/external_ip_source/solvers/merge.rs:114-118 | a merge accepted by construction never reaches the `expect` panic |
| ExtMerge.CollectLeavesOtherCells | crates/manager/src/external_ip_source/solvers/merge.rs:95-113 | only the partial solvers' cells can change during the loop |
| ExtMerge.QueryNeedsEveryPartial | crates/manager/src/external_ip_source/solvers/merge.rs:96-105 | a merge fails when any partial solver is missing or locked, and cells outside the merge are never changed |
| ExtMerge.EmptyPartialFails | crates/manager/src/external_ip_source/solvers/merge.rs:107-109 | a partial solver that answers nothing fails the merge |
| ExtMerge.Turn | crates/manager/src/external_ip_source/solvers/merge.rs:96-113 | one loop iteration as a method computes `Visit` |
| MergeMasks.Convert | crates/manager/src/ip_source/solvers/merge.rs:136-141 | the conversion method computes `Assemble`, in both trees |
| ExtMerge.Gather | crates/manager/src/external_ip_source/solvers/merge.rs:93-114 | the loop computes `Collect`, and the pushed parts are the parts of the collected addresses |
| ExtMerge.GetAddresses | crates/manager/src/external_ip_source/solvers/merge.rs:59-127 | the merge method computes `Query`, registry included |
| ExtSource.QueryModeFrom | crates/manager/src/external_ip_source/source.rs:231-238 | query modes convert one to one |
| ExtSource.ListTurn | crates/manager/src/external_ip_source/source.rs:146-192 | one solver of a list: a missing cell or a lock timeout aborts; an error or an empty answer skips; a non-empty answer is taken |
| ExtSource.Trace | crates/manager/src/external_ip_source/source.rs:145-193 | the outcomes of a list query are in order, at most one per solver; if it stops early, its last outcome is the abort |
| ExtSource.ListFrom | crates/manager/src/external_ip_source/source.rs:145-206 | the list loop keeps the registry's keys and consistency |
| ExtSource.FirstFoundIsFirstHit | crates/manager/src/external_ip_source/source.rs:169-177 | `firstFound` returns the first answer of the trace, or the trace's abort, or no addresses |
| ExtSource.AllIsEveryAnswer | crates/manager/src/external_ip_source/source.rs:178-206 | `all` returns the in-order concatenation of every answer, unless the trace aborts |
| ExtSource.NothingFoundIffAllSkipped | crates/manager/src/external_ip_source/source.rs:194-206 | both modes fail with "no addresses" exactly when every queried solver was skipped |
| ExtSource.AllSkippedHasNoAnswers | crates/manager/src/external_ip_source/source.rs:159-167 | a trace of skips has no answers, and an answerless trace holds no answered step |
| ExtSource.FirstFoundLeadsAll | crates/manager/src/external_ip_source/source.rs:169-206 | without an abort, `firstFound` succeeds exactly when `all` does, and its answer is a prefix of the answer of `all` |
| ExtSource.FirstHitIsFirstAnswer | crates/manager/src/external_ip_source/source.rs:145-177 | `firstFound` succeeds exactly when some solver answers after only skips, and then returns that answer |
| ExtSource.FirstFoundStopsAtAnswer | crates/manager/src/external_ip_source/source.rs:169-177 | once a solver answers, `firstFound` returns and no later solver is queried or changed |
| ExtSource.SolverList.Query | crates/manager/src/external_ip_source/source.rs:127-207 | the list-query method computes the list answer, registry included |
| ExtSource.ListAnswer | crates/manager/src/external_ip_source/source.rs:133-137 | an empty list is the assertion panic, and the registry keeps its keys |
| ExtSource.SolverListFrom | crates/manager/src/external_ip_source/source.rs:210-224 | list conversion fails exactly on an empty solver list; it keeps the solvers and defaults the mode to `firstFound` |
| ExtSource.ListOf | crates/manager/src/external_ip_source/source.rs:79-88 | a block is kept exactly when present with solvers; an invalid block becomes absent |
| ExtSource.SourceFrom | crates/manager/src/external_ip_source/source.rs:68-91 | source conversion fails as malformed exactly when both blocks are absent; the source is named after the resource, or "" |
| ExtSource.InvalidBlocksAreDropped | crates/manager/src/external_ip_source/source.rs:79-88 | present but invalid blocks are dropped instead of rejecting the source |
| ExtSource.ConvertedListsAreNonEmpty | crates/manager/src/external_ip_source/source.rs:133-137 | every list of a converted source is non-empty, so the query's assertion holds |
| ExtSource.SourceAnswer | crates/manager/src/external_ip_source/source.rs:43-56 | a source query keeps the registry's keys and consistency |
| ExtSource.ExternalIpSource.Query | crates/manager/src/external_ip_source/source.rs:43-56 | the source-query method computes the source answer |
| SourceIndex.Sources | crates/manager/src/external_ip_source/registry.rs:40-48 | every kept source is the conversion of some listed resource |
| SourceIndex.Failures | crates/manager/src/external_ip_source/registry.rs:40-50 | every failure is the conversion error of some listed resource, with that resource's reference |
| SourceIndex.FailuresComplete | crates/manager/src/external_ip_source/registry.rs:40-50 | every listed resource that does not convert is among the failures, with its error and its reference |
| SourceIndex.FailuresCount | crates/manager/src/external_ip_source/registry.rs:40-50 | there are exactly as many failures as listed resources that do not convert |
| SourceIndex.PartitionCounts | crates/manager/src/external_ip_source/registry.rs:44 | the partition loses no resource and counts none twice |
| SourceIndex.AllConvertedNoFailures | crates/manager/src/external_ip_source/registry.rs:40-49 | a listing that converts entirely gives every source, in order, and no failure |
| SourceIndex.FailureOnlyAddsEvent | crates/manager/src/external_ip_source/registry.rs:40-50 | a resource that fails to convert leaves the sources as they are and adds exactly its failure |
| SourceIndex.SourcesComplete | crates/manager/src/external_ip_source/registry.rs:44-49 | every resource that converts is among the kept sources |
| SourceIndex.Index | crates/manager/src/external_ip_source/registry.rs:45-49 | the map holds every source under its own name, and only names of sources |
| SourceIndex.LastWins | crates/manager/src/external_ip_source/registry.rs:45-49 | when names repeat, the map keeps the last source of that name, as collecting into a `HashMap` does |
| SourceIndex.LastConvertedWins | crates/manager/src/external_ip_source/registry.rs:40-49 | the last converted resource of a name is the one registered |
| SourceIndex.IndexedIffConverted | crates/manager/src/external_ip_source/registry.rs:40-49 | a name is registered exactly when some listed resource converts to a source of that name |
| SourceIndex.FailureEvents | crates/manager/src/external_ip_source/registry.rs:51-62 | one event per failure, in order |
| SourceIndex.EventsReportFailures | crates/manager/src/external_ip_source/registry.rs:51-62 | every event is an `InvalidIPSource` warning about a listed resource that failed, carrying its error |
| SourceIndex.EventsComplete | crates/manager/src/external_ip_source/registry.rs:51-62 | every listed resource that does not convert gets an `InvalidIPSource` warning regarding it and carrying its error |
| SourceIndex.Partition | crates/manager/src/external_ip_source/registry.rs:35-50 | the partition loop computes the sources and the failures |
| SourceIndex.Collect | crates/manager/src/external_ip_source/registry.rs:45-49 | the collecting loop computes the index |
| ExtRegistry.RegisteredIffConverts | crates/manager/src/external_ip_source/registry.rs:40-49 | after a refresh, a name is registered exactly when some listed resource of that name converts; the old map plays no part |
| ExtRegistry.LastResourceRegistered | crates/manager/src/external_ip_source/registry.rs:45-49 | the last converting resource of a name is the source registered under it |
| ExtRegistry.IPSourceRegistry.constructor | crates/manager/src/external_ip_source/registry.rs:25-29 | a registry starts with no sources and no events |
| ExtRegistry.IPSourceRegistry.Refresh | crates/manager/src/external_ip_source/registry.rs:34-64 | a failed listing is returned and changes nothing; otherwise the map is replaced by the index of the converted sources and one warning per failure is appended |
| ExtRegistry.IPSourceRegistry.Publish | crates/manager/src/external_ip_source/registry.rs:51-62 | the publish loop appends the failures' events and leaves the map alone |
| ExtRegistry.IPSourceRegistry.GetCluster | crates/manager/src/external_ip_source/registry.rs:66-68 | the lookup finds exactly the registered names, and each source found bears the name asked for |
| ExtRegistry.New | crates/manager/src/external_ip_source/registry.rs:21-32 | a registry is built exactly when the first refresh lists; it then holds that refresh's sources and events |
| LegacyIpApiSolver.Remaining | crates/manager/src/ip_source/solvers/ip_api/solver.rs:41-43 | the saturating remaining time never exceeds the timeout |
| LegacyIpApiSolver.FreshIffYoungerThanTimeout | crates/manager/src/ip_source/solvers/ip_api/solver.rs:41-43 | the cache is fresh exactly when the elapsed time is below the timeout |
| LegacyIpApiSolver.CacheHit | crates/manager/src/ip_source/solvers/ip_api/solver.rs:98-101 | fresh cached addresses are returned without calling the provider |
| LegacyIpApiSolver.RateLimitHit | crates/manager/src/ip_source/solvers/ip_api/solver.rs:92-97 | a fresh cached rate limit returns "still backing off" with the remaining whole seconds, without calling the provider |
| LegacyIpApiSolver.CalledIffStale | crates/manager/src/ip_source/solvers/ip_api/solver.rs:88-105 | the provider is called exactly when the cache is empty or stale |
| LegacyIpApiSolver.SuccessIsCached | crates/manager/src/ip_source/solvers/ip_api/solver.rs:105-114 | a successful call is returned and cached at now for `CACHE_TIMEOUT` |
| LegacyIpApiSolver.RateLimitArmsBackoff | crates/manager/src/ip_source/solvers/ip_api/solver.rs:115-131 | a rate limit caches a marker at now: min(2 x previous, 1 h) after a cached rate limit, the base backoff otherwise |
| LegacyIpApiSolver.OtherFailureKeepsCache | crates/manager/src/ip_source/solvers/ip_api/solver.rs:139 | any other provider error is returned wrapped and leaves the cache untouched |
| LegacyIpApiSolver.StepKeepsInvariant | crates/manager/src/ip_source/solvers/ip_api/solver.rs:105-131 | cached addresses always live for `CACHE_TIMEOUT`, and a cached rate limit's timeout always lies between the base and the maximum |
| LegacyIpApiSolver.TimingsAreValid | crates/manager/src/ip_source/solvers/ip_api/solver.rs:16-25 | both the production constants and the test constants put the base at or below the maximum |
| LegacyIpApiSolver.ProviderRespond | crates/manager/src/ip_source/solvers/ip_api/ipify.rs:32-50 | the older providers' classification: success on a non-error, non-429 reply with a body; 429 exactly is the rate limit |
| LegacyIpApiSolver.IpSolver.constructor | crates/manager/src/ip_source/solvers/ip_api/solver.rs:59-69 | `new` uses the production constants and starts with an empty cache |
| LegacyIpApiSolver.IpSolver.WithIpProvider | crates/manager/src/ip_source/solvers/ip_api/solver.rs:70-77 | `with_ip_provider` uses the test constants and starts with an empty cache |
| LegacyIpApiSolver.IpSolver.GetAddresses | crates/manager/src/ip_source/solvers/ip_api/solver.rs:83-141 | the answer, the new cache and the call count are those of the older cache-and-backoff step |
| LegacyMerge.SubSolverFrom | crates/manager/src/ip_source/solvers/merge.rs:52-74 | each partial configuration becomes the sub-solver of that configuration; an IP-API one starts with an empty cache |
| LegacyMerge.New | crates/manager/src/ip_source/solvers/merge.rs:28-78 | construction succeeds exactly on a valid mask sum, otherwise it reports the sum; on success it builds one part per configuration, in order, with its mask and a matching fresh sub-solver |
| LegacyMerge.NewKeepsMasks | crates/manager/src/ip_source/solvers/merge.rs:49-53 | the built parts carry the configured masks |
| LegacyMerge.SubQuery | crates/manager/src/ip_source/solvers/merge.rs:127 | a sub-solver query keeps the sub-solver's configuration and changes only IP-API state; a static part answers its family filter |
| LegacyMerge.Collect | crates/manager/src/ip_source/solvers/merge.rs:124-134 | the part loop keeps every mask and configuration, has one address per part on success, and never panics |
| LegacyMerge.Query | crates/manager/src/ip_source/solvers/merge.rs:91-148 | a mask of the wrong family fails before any sub-solver is asked; success is exactly one address of the requested family |
| LegacyMerge.QuerySuccessValue | crates/manager/src/ip_source/solvers/merge.rs:131-147 | a successful merge's address is the sum of the parts, at most the mask sum |
| LegacyMerge.AcceptedMergeNeverPanics | crates/manager/src/ip_source/solvers/merge.rs:136-141 | a merge accepted by construction never reaches the `expect` panic |
| LegacyMerge.EmptyPartialFails | crates/manager/src/ip_source/solvers/merge.rs:128-130 | a sub-solver with no addresses fails the merge |
| LegacyMerge.Turn | crates/manager/src/ip_source/solvers/merge.rs:126-133 | one loop iteration as a method: its failure ends the loop, and its address continues it |
| LegacyMerge.Gather | crates/manager/src/ip_source/solvers/merge.rs:124-135 | the loop computes `Collect`, and the pushed parts are the parts of the collected addresses |
| LegacyMerge.GetAddresses | crates/manager/src/ip_source/solvers/merge.rs:91-148 | the merge method computes `Query`, sub-solver state included |
| LegacyRegistry.IPSourceRegistry.constructor | crates/manager/src/ip_source/registry.rs:26-30 | a registry starts with no sources and no events |
| LegacyRegistry.IPSourceRegistry.Refresh | crates/manager/src/ip_source/registry.rs:35-68 | a failed listing is wrapped as a list error and changes nothing; otherwise the map is replaced by the index of the converted sources and one warning per failure is appended |
| LegacyRegistry.IPSourceRegistry.Publish | crates/manager/src/ip_source/registry.rs:55-66 | the publish loop appends the failures' events and leaves the map alone |
| LegacyRegistry.IPSourceRegistry.GetCluster | crates/manager/src/ip_source/registry.rs:70-72 | a plain lookup by name |
| LegacyRegistry.New | crates/manager/src/ip_source/registry.rs:22-33 | a registry is built exactly when the first refresh lists |
| Svc.AnnotatedSource | crates/manager/src/svc/mod.rs:36-39 | the source annotation is found exactly when the service has annotations holding the key, and is that value |
| Svc.FindAnnotated | crates/manager/src/svc/mod.rs:34-55 | the filter yields only `Ok` entries, at most one per service, each an annotated service with source `Cluster(value)` |
| Svc.FindAnnotatedSingle | crates/manager/src/svc/mod.rs:35-53 | an unannotated service contributes nothing, and an annotated one contributes exactly its entry |
| Svc.FindAnnotatedAppend | crates/manager/src/svc/mod.rs:34-55 | the filter distributes over concatenation, so listing order is kept |
| Svc.AnnotatedServicesFound | crates/manager/src/svc/mod.rs:42-52 | every annotated service is found |
| Svc.FindAnnotatedSvcs | crates/manager/src/svc/mod.rs:26-56 | a listing failure is passed on unchanged; a listing is answered with exactly the annotated-service filter of its services, all `Ok` and no more than the services |
| IpApiScenarios.UsesCache | crates/manager/src/external_ip_source/solvers/ip_api/solver.rs:145-162 | calls within the cache timeout return the first answer both times |
| IpApiScenarios.CacheInvalidates | crates/manager/src/external_ip_source/solvers/ip_api/solver.rs:164-181 | a call after the timeout returns the provider's second answer |
| IpApiScenarios.ErrorsOnRateLimit | crates/manager/src/external_ip_source/solvers/ip_api/solver.rs:183-193 | a rate-limited answer is an error |
| IpApiScenarios.WaitsAfterRateLimit | crates/manager/src/external_ip_source/solvers/ip_api/solver.rs:195-218 | after a rate limit the next immediate call is still an error without a provider call, and after the timeout the next answer comes through |
| IpApiScenarios.ExponentialBackoff | crates/manager/src/external_ip_source/solvers/ip_api/solver.rs:220-242 | a second rate limit after expiry doubles the cached timeout |
| IpApiScenarios.LegacyUsesCache | crates/manager/src/ip_source/solvers/ip_api/solver.rs:178-195 | the older solver reuses its cached answer within 2 s |
| IpApiScenarios.LegacyCacheInvalidates | crates/manager/src/ip_source/solvers/ip_api/solver.rs:197-214 | after 3 s the older solver asks again and returns the second answer |
| IpApiScenarios.LegacyErrorsOnRateLimit | crates/manager/src/ip_source/solvers/ip_api/solver.rs:216-226 | a rate limit is "backing off for 5 seconds" |
| IpApiScenarios.LegacyWaitsAfterRateLimit | crates/manager/src/ip_source/solvers/ip_api/solver.rs:228-252 | the immediate retry is "still backing off", and the call after the backoff succeeds |
| IpApiScenarios.LegacyExponentialBackoff | crates/manager/src/ip_source/solvers/ip_api/solver.rs:254-279 | a second rate limit after the base backoff backs off for 10 s, twice the base |

## Left out

- Networking, DNS and parsing:
  - HTTP (reqwest, the provider URLs and the 10 s request timeout) is an oracle returning classified replies.
  - The DNS resolver (`dns_hostname.rs` in both trees) is an oracle of A and AAAA answers. The newer solver maps its failure to an error, and the older one propagates it.
  - IP-string parsing is a pair of functions.
- Concurrency: the tokio `RwLock`s of the registry cells and the 5 s and 10 s lock timeouts are modelled only as a set of keys whose lock acquisition fails.
- Time: `Instant::now()` and the tests' `sleep` are the `now` parameter. One query pass reads one instant.
- ExtMerge.New: the `u128` `sum()` of the masks (`merge.rs:32-38` in both trees) is a sum over unbounded naturals. The program's sum overflows as soon as IPv6 masks add up past `u128::MAX`; two masks suffice, such as `ffff:…:ffff` and `::1:0:0`. A debug build then panics, and a release build wraps, accepting the configuration when the wrapped sum is `u32::MAX` or `u128::MAX`. The model rejects every such configuration as malformed with its true sum (`ExtMerge.WrappedMaskSumRejected`). For all-IPv4 masks the sum overflows only with more than 2^96 of them, and the no-panic lemmas assume fewer.
- MergeMasks.Assemble: the `u128` sum of the masked parts (`merge.rs:114` in the newer tree, `merge.rs:135` in the older) is also taken over unbounded naturals. An IPv6 total above `u128::MAX` is reported as the panic a debug build raises; a release build would wrap it instead. For an accepted merge the parts sum never exceeds the mask sum (`MergeMasks.PartsSumBound`), so neither happens.
- LegacyMerge.New: the same unbounded mask sum as `ExtMerge.New`, with the same divergence from the program on overflowing IPv6 masks.
- Event recording: `events.rs` is not part of this model. An event is the value handed to the recorder. Its note is the conversion error itself, not its formatted `Display` string.
- Other text: log messages and error `Display` strings are not modelled. Error variants carry the data those strings would show.
- Outside the core: `lib.rs` reconciliation, `crates/bin/src/main.rs` and `crates/crd-exporter/src/main.rs` are not part of this model.
- The older `ExternalIpSource` and its conversion (`ip_source/source.rs`) are not modelled. The older registry therefore takes the resource conversion and the naming of sources as constructor parameters.
- The Kubernetes list call is the listing passed in. `Api::all` and the client are not modelled.
- No `SolverRegistry` type is modelled. The registry is the value `Cells`, threaded through queries. Building it is modelled by `ExtSolvers.SolverFrom` and `ExtSolvers.AddBuiltSolver`.
- Converting a solver configuration from a reference is the same as converting a clone (`solvers/mod.rs:77-83`). With value semantics there is nothing to state.
- The `ExternalIpSvc` accessors `svc()` and `ip_source()` (`svc/mod.rs:64-71`) are the datatype's fields.
- An absent `solvers` field deserialising to the empty list (`crd/v1alpha1/mod.rs:33-34`) is not modelled, because serde is outside the model. The empty list's rejection is modelled.
- The older tree's IP-API solver (`ip_source/solvers/ip_api/solver.rs:83-84`) and static solver take `&mut self`, while the older `Source` trait (`ip_source/solvers/mod.rs:19-20`) and the older merge (`merge.rs:92`, `merge.rs:127`) call through `&self`. The model resolves this by keeping each IP-API sub-solver's cache inside its merge part: `LegacyMerge.SubQuery` returns the updated sub-solver, and `LegacyMerge.Query` returns the merge with its updated parts. The static sub-solver has no state, so its query changes nothing.
- IpApiScenarios.UsesCache: with one instant per query, "within the timeout" is stated with both calls at or before the 500 ms expiry, rather than with the real time the tests take.
- IpApiScenarios.ErrorsOnRateLimit: the newer rate-limit tests are stated on the cache-and-backoff step of `ExtIpApiSolver`, which the class's `GetAddresses` is proved to follow. The class method itself is not re-run call by call for them.
- IpApiScenarios.WaitsAfterRateLimit: stated on the step function, as for `ErrorsOnRateLimit`.
- IpApiScenarios.ExponentialBackoff: stated on the step function, as for `ErrorsOnRateLimit`.
- IpApiScenarios.Mock: the tests' `MockSolver` would panic when indexed past its list. No test does that, and the model repeats the last answer instead.
