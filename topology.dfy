/** The records the analyzer reads and builds: container definitions, topology nodes,
    the prior system snapshot, the fresh result, and the caller's configuration. */
module Topology {
  import opened Wrappers

  /** The `type` of the root machine node and of its definition. */
  const BLANK_CONTAINER: string := "blank-container"

  /** The `type` of definitions that describe docker images. */
  const DOCKER: string := "docker"

  /** How JavaScript reads an optional string in `if` or `||`: absent and empty are both false. */
  predicate Truthy(s: Option<string>) {
    s.Some? && s.value != ""
  }

  /** JavaScript `a || b` on two optional strings. */
  function Or(a: Option<string>, b: Option<string>): Option<string> {
    if Truthy(a) then a else b
  }

  /** A template for a kind of entity; `kind` is the record's `type` field. */
  datatype ContainerDefinition = ContainerDefinition(
    name: string,
    kind: string,
    specific: map<string, string>,
    id: string)

  /** One entity of the graph; `kind` is the record's `type` field. */
  datatype TopologyNode = TopologyNode(
    id: string,
    containerDefinitionId: string,
    containedBy: string,
    contains: seq<string>,
    kind: string,
    specific: map<string, string>)

  /** The prior snapshot's topology; its containers are given in iteration order. */
  datatype PriorTopology = PriorTopology(containers: Option<seq<TopologyNode>>)

  /** The last known system state handed in by the caller; every field may be absent. */
  datatype PriorSystem = PriorSystem(
    name: Option<string>,
    namespace: Option<string>,
    systemId: Option<string>,
    containerDefinitions: Option<seq<ContainerDefinition>>,
    topology: Option<PriorTopology>)

  /** The object `{}` that stands in for a missing prior system. */
  const EMPTY_SYSTEM: PriorSystem := PriorSystem(None, None, None, None, None)

  /** The definitions of a prior system; an absent list reads as empty. */
  function DefinitionsOf(system: PriorSystem): seq<ContainerDefinition> {
    if system.containerDefinitions.Some? then system.containerDefinitions.value else []
  }

  /** The result of an analysis: its topology containers are keyed by node id. */
  datatype SystemResult = SystemResult(
    name: Option<string>,
    namespace: Option<string>,
    id: Option<string>,
    containerDefinitions: seq<ContainerDefinition>,
    containers: map<string, TopologyNode>)

  /** The configuration as the discovery stages see it. */
  datatype ConfigView = ConfigView(
    name: Option<string>,
    namespace: Option<string>,
    systemId: Option<string>,
    dockerFilters: Option<seq<string>>)

  /** The caller's configuration object, whose filter list the analyzer updates in place. */
  class Config {
    var name: Option<string>
    var namespace: Option<string>
    var systemId: Option<string>
    var dockerFilters: Option<seq<string>>

    constructor (name: Option<string>, namespace: Option<string>, systemId: Option<string>,
                 dockerFilters: Option<seq<string>>)
      ensures View() == ConfigView(name, namespace, systemId, dockerFilters)
    {
      this.name := name;
      this.namespace := namespace;
      this.systemId := systemId;
      this.dockerFilters := dockerFilters;
    }

    /** The current contents of the object. */
    function View(): ConfigView
      reads this
    {
      ConfigView(name, namespace, systemId, dockerFilters)
    }
  }
}
