/** Root resolution: `findRootId` picks the id of the prior topology's root machine node. */
module RootResolver {
  import opened Wrappers
  import opened Topology

  /** The id used when the prior topology has no root machine node. */
  const DEFAULT_ROOT_ID: string := "10"

  /** Node `i` is the first blank-container in iteration order. */
  predicate IsFirstBlank(containers: seq<TopologyNode>, i: int) {
    && 0 <= i < |containers|
    && containers[i].kind == BLANK_CONTAINER
    && forall j | 0 <= j < i :: containers[j].kind != BLANK_CONTAINER
  }

  /** First-match search (`_.find`) for a blank-container, falling back to `"10"`. */
  function FirstBlankId(containers: seq<TopologyNode>): (id: string)
    ensures forall i | IsFirstBlank(containers, i) :: id == containers[i].id
    ensures (forall i | 0 <= i < |containers| :: containers[i].kind != BLANK_CONTAINER) ==>
              id == DEFAULT_ROOT_ID
  {
    if containers == [] then DEFAULT_ROOT_ID
    else if containers[0].kind == BLANK_CONTAINER then containers[0].id
    else
      var id := FirstBlankId(containers[1..]);
      assert forall i | IsFirstBlank(containers, i) :: IsFirstBlank(containers[1..], i - 1);
      id
  }

  /** `findRootId` as written: it reads `system.topology.containers` without checking
      that `topology` exists, so a system without one (such as the `{}` that replaces a
      missing system) raises a TypeError. An absent `containers` list finds nothing. */
  function FindRootIdAsWritten(system: PriorSystem): Result<string, string> {
    match system.topology
    case None => Failure("TypeError: Cannot read property 'containers' of undefined")
    case Some(t) => Success(FirstBlankId(if t.containers.Some? then t.containers.value else []))
  }

  /** The prior containers in iteration order; a missing topology has none. */
  function PriorContainers(system: PriorSystem): seq<TopologyNode> {
    if system.topology.Some? && system.topology.value.containers.Some?
    then system.topology.value.containers.value
    else []
  }

  /** `findRootId` as intended: a system without a topology has no root and gets `"10"`. */
  function RootId(system: PriorSystem): string {
    FirstBlankId(PriorContainers(system))
  }

  /** The root id is the first blank-container's id in iteration order, else `"10"`. */
  lemma RootIdIsFirstBlank(system: PriorSystem)
    ensures var cs := PriorContainers(system);
      && (forall i | IsFirstBlank(cs, i) :: RootId(system) == cs[i].id)
      && ((forall i | 0 <= i < |cs| :: cs[i].kind != BLANK_CONTAINER) ==> RootId(system) == DEFAULT_ROOT_ID)
  {
  }

  /** Wherever the code as written returns, it returns the intended root id. */
  lemma RootIdAgreesWithAsWritten(system: PriorSystem)
    requires system.topology.Some?
    ensures FindRootIdAsWritten(system) == Success(RootId(system))
  {
  }

  /** A missing prior system: the code as written fails, the intended root id is `"10"`. */
  lemma MissingSystemRootId()
    ensures FindRootIdAsWritten(EMPTY_SYSTEM).Failure?
    ensures RootId(EMPTY_SYSTEM) == DEFAULT_ROOT_ID
  {
  }
}
