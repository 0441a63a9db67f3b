/** `analyze`: build a fresh result around the root machine node, derive the filters,
    then run the discovery stages in order, stopping at the first error. */
module Analyzer {
  import opened Wrappers
  import opened Topology
  import opened Filters
  import opened RootResolver

  /** The fixed id of the built-in Machine definition. */
  const MACHINE_DEFINITION_ID: string := "85d99b2c-06d0-5485-9501-4d4ed429799c"

  /** The one definition every fresh result starts with. */
  const MACHINE_DEFINITION: ContainerDefinition :=
    ContainerDefinition("Machine", BLANK_CONTAINER, map[], MACHINE_DEFINITION_ID)

  /** The error a stage reports through its callback. */
  datatype StageError = StageError(message: string)

  /** A discovery stage (`fetchImages`, `fetchContainers`, `postProcessing`): it reads
      the configuration and the shared result and either yields the updated result or
      reports an error. A stage receives the configuration as a value, so it cannot
      change it. The stages themselves are not part of this model. */
  type Stage = (ConfigView, SystemResult) -> Result<SystemResult, StageError>

  /** The root machine node, contained by itself. */
  function RootNode(rootId: string): TopologyNode {
    TopologyNode(rootId, MACHINE_DEFINITION_ID, rootId, [], BLANK_CONTAINER,
                 map["ipaddress" := "localhost"])
  }

  /** The result `analyze` builds before any stage runs. */
  function Scaffold(config: ConfigView, system: PriorSystem): (r: SystemResult)
    ensures r.name == (if Truthy(system.name) then system.name else config.name)
    ensures r.namespace == (if Truthy(system.namespace) then system.namespace else config.namespace)
    ensures r.id == (if Truthy(system.systemId) then system.systemId else config.systemId)
    ensures r.containerDefinitions == [MACHINE_DEFINITION]
    ensures r.containers.Keys == {RootId(system)}
    ensures var root := r.containers[RootId(system)];
      && root.id == root.containedBy == RootId(system)
      && root.contains == []
      && root.kind == BLANK_CONTAINER
      && root.containerDefinitionId == MACHINE_DEFINITION_ID
      && root.specific == map["ipaddress" := "localhost"]
  {
    var rootId := RootId(system);
    SystemResult(Or(system.name, config.name), Or(system.namespace, config.namespace),
                 Or(system.systemId, config.systemId), [MACHINE_DEFINITION],
                 map[rootId := RootNode(rootId)])
  }

  /** Runs `stages` one after the other on the shared result; the first error ends the
      run and is the outcome, otherwise the outcome is the final result. */
  function Run(config: ConfigView, result: SystemResult, stages: seq<Stage>): Result<SystemResult, StageError>
    decreases |stages|
  {
    if stages == [] then Success(result)
    else
      match stages[0](config, result)
      case Failure(e) => Failure(e)
      case Success(next) => Run(config, next, stages[1..])
  }

  /** The sequential runner (`async.eachSeries` with an early exit). */
  method RunStages(config: ConfigView, result: SystemResult, stages: seq<Stage>)
    returns (outcome: Result<SystemResult, StageError>)
    ensures outcome == Run(config, result, stages)
  {
    var current := result;
    var i := 0;
    while i < |stages|
      invariant 0 <= i <= |stages|
      invariant Run(config, result, stages) == Run(config, current, stages[i..])
    {
      var step := stages[i](config, current);
      if step.Failure? {
        return Failure(step.error);
      }
      assert stages[i..][1..] == stages[i + 1..];
      current := step.value;
      i := i + 1;
    }
    outcome := Success(current);
  }

  /** The prior system; a missing one reads as `{}`. */
  function PriorOrEmpty(system: Option<PriorSystem>): PriorSystem {
    if system.Some? then system.value else EMPTY_SYSTEM
  }

  /** `analyze`: the filters are derived before any stage runs, so every stage sees
      them; the stages then run in the fixed order image discovery, container discovery,
      post-processing, on the fresh scaffold. */
  method Analyze(config: Config, system: Option<PriorSystem>,
                 fetchImages: Stage, fetchContainers: Stage, postProcessing: Stage)
    returns (outcome: Result<SystemResult, StageError>)
    modifies config
    ensures config.dockerFilters == Some(DeriveFilters(old(config.dockerFilters), PriorOrEmpty(system)))
    ensures config.name == old(config.name) && config.namespace == old(config.namespace)
    ensures config.systemId == old(config.systemId)
    ensures outcome == Run(config.View(), Scaffold(config.View(), PriorOrEmpty(system)),
                           [fetchImages, fetchContainers, postProcessing])
  {
    var prior := PriorOrEmpty(system);
    var rootId := RootId(prior);
    var result := SystemResult(Or(prior.name, config.name), Or(prior.namespace, config.namespace),
                               Or(prior.systemId, config.systemId), [MACHINE_DEFINITION], map[]);
    result := result.(containers := result.containers[rootId := RootNode(rootId)]);
    InitFilters(config, prior);
    outcome := RunStages(config.View(), result, [fetchImages, fetchContainers, postProcessing]);
  }

  // ---------------------------------------------------------------------------
  // Properties of the runner

  /** Running `a` then `b` is running `a` and, only if it succeeded, `b` on its result. */
  lemma {:induction false} RunAppend(config: ConfigView, result: SystemResult, a: seq<Stage>, b: seq<Stage>)
    ensures Run(config, result, a + b) ==
      match Run(config, result, a)
      case Failure(e) => Failure(e)
      case Success(next) => Run(config, next, b)
    decreases |a|
  {
    if a == [] {
      assert a + b == b;
    } else {
      assert (a + b)[1..] == a[1..] + b;
      match a[0](config, result)
      case Failure(e) =>
      case Success(next) => RunAppend(config, next, a[1..], b);
    }
  }

  /** When stage `k` is the first to fail, its error is the outcome, whatever the later
      stages would do: none of them is run. */
  lemma RunStopsAtFirstError(config: ConfigView, result: SystemResult, stages: seq<Stage>,
                             k: nat, before: SystemResult, e: StageError)
    requires k < |stages|
    requires Run(config, result, stages[..k]) == Success(before)
    requires stages[k](config, before) == Failure(e)
    ensures Run(config, result, stages) == Failure(e)
    ensures forall other: seq<Stage> | k < |other| && other[..k + 1] == stages[..k + 1] ::
              Run(config, result, other) == Failure(e)
  {
    assert stages[..k + 1] == stages[..k] + [stages[k]];
    RunAppend(config, result, stages[..k], [stages[k]]);
    forall other: seq<Stage> | k < |other| && other[..k + 1] == stages[..k + 1]
      ensures Run(config, result, other) == Failure(e)
    {
      assert other == stages[..k + 1] + other[k + 1..];
      RunAppend(config, result, stages[..k + 1], other[k + 1..]);
    }
  }

  /** A reported error is the error of some stage `k` that ran after every earlier stage
      had succeeded. */
  lemma {:induction false} RunFailureIsFirstError(config: ConfigView, result: SystemResult, stages: seq<Stage>)
    returns (k: nat)
    requires Run(config, result, stages).Failure?
    ensures k < |stages|
    ensures Run(config, result, stages[..k]).Success?
    ensures stages[k](config, Run(config, result, stages[..k]).value) == Run(config, result, stages)
    decreases |stages|
  {
    assert stages[..0] == [];
    match stages[0](config, result)
    case Failure(e) =>
      k := 0;
    case Success(next) =>
      var j := RunFailureIsFirstError(config, next, stages[1..]);
      k := j + 1;
      assert stages[..k] == [stages[0]] + stages[1..][..j];
      RunAppend(config, result, [stages[0]], stages[1..][..j]);
      assert [stages[0]][1..] == [];
  }

  /** A successful run ran every stage, and every prefix of the stages succeeded. */
  lemma {:induction false} RunSuccessRanEveryStage(config: ConfigView, result: SystemResult, stages: seq<Stage>)
    requires Run(config, result, stages).Success?
    ensures forall k | 0 <= k <= |stages| :: Run(config, result, stages[..k]).Success?
  {
    forall k | 0 <= k <= |stages| ensures Run(config, result, stages[..k]).Success? {
      assert stages == stages[..k] + stages[k..];
      RunAppend(config, result, stages[..k], stages[k..]);
    }
  }

  /** The three stages of `analyze` in their fixed order: image discovery first, then
      container discovery, then post-processing, each on what the previous one left;
      an error from one of them is reported and the rest do not run. */
  lemma PipelineOrder(config: ConfigView, result: SystemResult,
                      fetchImages: Stage, fetchContainers: Stage, postProcessing: Stage)
    ensures Run(config, result, [fetchImages, fetchContainers, postProcessing]) ==
      match fetchImages(config, result)
      case Failure(e) => Failure(e)
      case Success(images) =>
        match fetchContainers(config, images)
        case Failure(e) => Failure(e)
        case Success(containers) => postProcessing(config, containers)
  {
    var stages := [fetchImages, fetchContainers, postProcessing];
    assert stages[1..] == [fetchContainers, postProcessing];
    assert stages[1..][1..] == [postProcessing];
    assert stages[1..][1..][1..] == [];
    match fetchImages(config, result)
    case Failure(e) =>
    case Success(images) =>
      match fetchContainers(config, images)
      case Failure(e) =>
      case Success(containers) =>
        assert Run(config, containers, [postProcessing]) ==
          match postProcessing(config, containers)
          case Failure(e) => Failure(e)
          case Success(last) => Run(config, last, []);
  }
}
