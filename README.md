# nscale-boot2docker-analyzer: a Dafny model of the discovery probe

This project models the logic of the local Docker discovery probe in `index.js`.
The probe takes the caller's configuration and the last known system, and it works in
three steps:

1. It builds a fresh result. The result holds one Machine definition and one root
   machine node. The root node's id comes from the prior topology, or is `"10"`.
2. It extends `config.dockerFilters` in place (`initFilters`). It adds the system's
   name when it is set and not yet a filter. When the system has a name, it also adds
   the names of its docker definitions that do not start with that name and are not
   yet filters. Without a system name, no definition name is added.
3. It runs three discovery stages in a fixed order: image discovery, container
   discovery and post-processing. The first error ends the run.

The modules follow those pieces:

- `Wrappers` (`wrappers.dfy`): `Option` and `Result`.
- `Topology` (`topology.dfy`): container definitions, topology nodes, the prior system,
  the result, and the `Config` object, a class because its filter list is updated in
  place. It also models JavaScript truthiness: a missing string and `""` are both false,
  and `a || b` is `Or`.
- `Filters` (`filters.dfy`): `initFilters`. `InitFilters` is a method with a loop. It
  is proved against the function `DeriveFilters`, and the lemmas about the filter list
  are stated for that function.
- `RootResolver` (`root_resolver.dfy`): `findRootId`, a first-match search over the
  prior containers in iteration order.
- `Analyzer` (`analyzer.dfy`): the result scaffold, the sequential stage runner
  (`RunStages`, proved against `Run`) and `Analyze`. The three stages are parameters,
  typed as functions from the configuration and the result to a new result or an error.

## Model

| member | source | states |
|---|---|---|
| `Filters.DockerNames` | index.js:25-26 | a name is listed exactly when some definition of type `docker` carries it |
| `Filters.InitFilters` | index.js:24-43 | the filter list becomes `DeriveFilters` of the old list (absent reads as empty); name, namespace and systemId are unchanged |
| `Filters.DeriveAppendOnly` | index.js:28-42 | the incoming list, or `[]` when absent, is a prefix of the result: entries are only appended and keep their order (for both membership tests) |
| `Filters.DeriveFiltersSystemName` | index.js:30-34 | a set system name that is not yet a filter is appended right after the old entries and nowhere else; one already present is not appended again; with no name, nothing at all is added |
| `Filters.DeriveFiltersMembership` | index.js:24-43 | a name is a filter afterwards iff it was one before, or it is the set system name, or the system has a name and a `docker` definition carries the name and it does not start with the system name |
| `Filters.DeriveFiltersNoDuplicates` | index.js:31-41 | a duplicate-free list stays duplicate-free |
| `Filters.DeriveFiltersIdempotent` | index.js:24-43 | a second call with the same prior system leaves the list unchanged |
| `Filters.DefinitionNamesShape` | index.js:36-42 | the definition loop only appends, appends only eligible names from its input, and every eligible input name ends up in the list |
| `Filters.DefinitionNamesFresh` | index.js:36-42 | with strict membership, each name the loop appends is not already in the list |
| `Filters.DefinitionNamesStable` | index.js:36-42 | when every name is already present or not eligible, the loop changes nothing |
| `Filters.DefinitionNamesLookupsAgree` | index.js:37 | without `""` among the names, the `_.find` test and strict membership give the same loop result |
| `Filters.LodashFindDuplicatesEmptyName` | index.js:37-39 | with the test as written, filters `[""]`, system name `"web"` and one docker definition named `""` give `["", "web", ""]`, which has a duplicate, and a second call grows it again |
| `Filters.LodashFindAgreesWithoutEmptyName` | index.js:31-37 | when no docker definition is named `""`, the code as written gives the same filter list as strict membership |
| `RootResolver.FirstBlankId` | index.js:47-50 | the result is the `id` of the first `blank-container` node in iteration order; with no such node it is `"10"` |
| `RootResolver.RootIdIsFirstBlank` | index.js:47-50 | the root id of a prior system is the id of the first `blank-container` among its containers, else `"10"`; absent containers count as none |
| `RootResolver.RootIdAgreesWithAsWritten` | index.js:47-50 | when the prior system has a topology, `findRootId` as written returns the same root id |
| `RootResolver.MissingSystemRootId` | index.js:64-72 | for the `{}` that replaces a missing system, the code as written fails with a TypeError; the corrected root id is `"10"` |
| `Analyzer.Scaffold` | index.js:73-92 | name, namespace and id come from the prior system when set (the id from `systemId`), else from config; the only definition is the fixed Machine `blank-container`; the only node is keyed by the root id, with `id = containedBy = rootId`, `contains = []` and `specific.ipaddress = "localhost"` |
| `Analyzer.RunStages` | index.js:95-109 | the loop's outcome is `Run`: the stages applied in order, stopping at the first error |
| `Analyzer.Analyze` | index.js:68-110 | the filters are derived first; then the outcome is the three stages `fetchImages`, `fetchContainers`, `postProcessing` run in that order on the scaffold, and each stage sees the updated filters |
| `Analyzer.RunAppend` | index.js:95-109 | running `a + b` runs `a`, then runs `b` on its result only if `a` succeeded |
| `Analyzer.RunStopsAtFirstError` | index.js:99-107 | if stage `k` is the first to fail, its error is the outcome, and any list that agrees on the stages up to `k` has the same outcome, so no later stage runs |
| `Analyzer.RunFailureIsFirstError` | index.js:100-106 | a reported error is the error of a stage that ran after every earlier stage succeeded |
| `Analyzer.RunSuccessRanEveryStage` | index.js:95-109 | a successful run ran every stage, and each of them succeeded |
| `Analyzer.PipelineOrder` | index.js:95-98 | image discovery runs first, container discovery runs on its result, and post-processing runs last; an error from any of them is the outcome |

## Findings

| source | as written | input that shows it | evidently intended | confidence | as-written member | corrected member |
|---|---|---|---|---|---|---|
| index.js:37 | `!_.find(filters, f => f === name)` is the test for "not yet a filter". `_.find` returns the matching element, and `!` reads a found `""` as "not found" | `dockerFilters = [""]`, system name `"web"`, one docker definition named `""`: the result is `["", "web", ""]`, and each further call appends another `""` | a membership test, keeping the list duplicate-free and the call idempotent | high; not executed | `Filters.LodashFindDuplicatesEmptyName` | `Filters.DeriveFiltersNoDuplicates` |
| index.js:48 | `system.topology.containers` is read without checking `topology`. `analyze` replaces a missing system by `{}` (line 69), and the doc comment (line 64) allows the system to be null | `analyze(config, null, cb)`: `findRootId({})` throws a TypeError before the callback is called | a system without a topology has no root node, so the default id `"10"` applies | high; not executed | `RootResolver.MissingSystemRootId` | `RootResolver.RootIdIsFirstBlank` |

The rest of the model uses the corrected behaviour. `InitFilters` and `DeriveFilters`
use strict membership. `Analyze` uses `RootId`, which treats a missing topology as an
empty one. The code as written is kept beside each: the `LodashFind` lookup in
`Filters`, and `FindRootIdAsWritten` in `RootResolver`.

## Left out

- The discovery stages (`fetchImages` and `fetchContainers` of `nscale-docker-analyzer`
  over `./lib/local-docker`, and `./lib/postProcessing`) are not part of this model.
  They talk to the Docker daemon. Their code is in `nscale-docker-analyzer` and
  `./lib/*`, outside `index.js`. Each is an
  arbitrary function parameter, so nothing is claimed about what they add, filter or
  prune.
- Analyzer.Analyze: each stage receives the configuration as a value and returns only
  a new result, so the stages are modelled as read-only on `config`. In the source,
  each stage gets the live `config` object and could change it. The postconditions of
  `Analyze` about `config.dockerFilters`, `name`, `namespace` and `systemId` describe
  the object after all three stages. They hold only under this read-only assumption.
  Without it, they describe the configuration the stages were given.
- Container-name matching against `dockerFilters` happens inside the external analyzer
  and is not modelled.
- A stage that fails after changing the shared result leaves partial changes behind.
  The model cannot see them, because on failure only the error is reported.
- The `async.eachSeries` callback plumbing is a plain loop. A stage that calls back with
  a falsy error value (`""`, `0`) would count as a success in the source. The model
  has no such values, because a stage either succeeds or fails with a `StageError`.
- `config.dockerFilters` is a `seq` field that is reassigned. If the caller shares the
  same array with other objects, the model does not show them the pushes.
- Definitions whose `name` is missing or not a string are not modelled. In the source,
  such a docker definition makes `indexOf` throw when the system has a name
  (index.js:38); without a system name it is skipped. Field values that are not
  strings (names, ids, types) are not modelled either.
- The key order of `topology.containers` is taken as the given sequence order of the
  prior containers. The result's containers are a map keyed by node id.
- When the first `blank-container` node has no `id`, the source uses `undefined` as the
  root key. Every modelled node has an id.
