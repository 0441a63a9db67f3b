/** Filter derivation: `initFilters` extends `config.dockerFilters` with the prior
    system's name and with the names of its docker definitions that do not belong to
    the system's own namespace. */
module Filters {
  import opened Wrappers
  import opened Topology

  /** How "is this name already a filter?" is decided. `StrictEquality` is plain
      membership. `LodashFind` is the test as written, `!_.find(filters, f => f === x)`:
      `_.find` returns the matching element itself, and `!` reads the element `""` as
      "not found". */
  datatype Lookup = StrictEquality | LodashFind

  predicate Present(lookup: Lookup, filters: seq<string>, x: string) {
    match lookup
    case StrictEquality => x in filters
    case LodashFind => x in filters && x != ""
  }

  predicate NoDuplicates(s: seq<string>) {
    forall i, j | 0 <= i < j < |s| :: s[i] != s[j]
  }

  /** The prior system has a usable name (`if (system.name)`). */
  predicate HasName(system: PriorSystem) {
    Truthy(system.name)
  }

  /** A definition name may become a filter only when the system has a name and the
      definition name does not start with it (`indexOf(system.name) !== 0`). */
  predicate Eligible(n: string, system: PriorSystem) {
    HasName(system) && !(system.name.value <= n)
  }

  /** The names of the docker-typed definitions, in order. */
  function DockerNames(defs: seq<ContainerDefinition>): (names: seq<string>)
    ensures forall n :: n in names <==> exists d :: d in defs && d.kind == DOCKER && d.name == n
  {
    if defs == [] then []
    else
      var rest := DockerNames(defs[1..]);
      assert forall d :: d in defs <==> d == defs[0] || d in defs[1..];
      (if defs[0].kind == DOCKER then [defs[0].name] else []) + rest
  }

  /** A missing filter list reads as empty (`config.dockerFilters || []`). */
  function Initial(filters: Option<seq<string>>): seq<string> {
    if filters.Some? then filters.value else []
  }

  /** The system-name step: append the name once if it is set and not yet present. */
  function WithSystemName(lookup: Lookup, filters: seq<string>, system: PriorSystem): seq<string> {
    if HasName(system) && !Present(lookup, filters, system.name.value)
    then filters + [system.name.value]
    else filters
  }

  /** One iteration of the definition loop. */
  function WithDefinitionName(lookup: Lookup, filters: seq<string>, n: string, system: PriorSystem): seq<string> {
    if !Present(lookup, filters, n) && Eligible(n, system) then filters + [n] else filters
  }

  /** The definition loop over `names`, each iteration seeing the list as the earlier
      iterations left it. */
  function WithDefinitionNames(lookup: Lookup, filters: seq<string>, names: seq<string>, system: PriorSystem): seq<string>
    decreases |names|
  {
    if names == [] then filters
    else
      WithDefinitionName(lookup, WithDefinitionNames(lookup, filters, names[..|names| - 1], system),
                         names[|names| - 1], system)
  }

  /** The whole of `initFilters`, with the given membership test. */
  function DeriveWith(lookup: Lookup, filters: Option<seq<string>>, system: PriorSystem): seq<string> {
    WithDefinitionNames(lookup, WithSystemName(lookup, Initial(filters), system),
                        DockerNames(DefinitionsOf(system)), system)
  }

  /** The filter list `initFilters` leaves behind, with the membership test intended. */
  function DeriveFilters(filters: Option<seq<string>>, system: PriorSystem): seq<string> {
    DeriveWith(StrictEquality, filters, system)
  }

  /** Updates `config.dockerFilters` in place; nothing else in `config` changes. */
  method InitFilters(config: Config, system: PriorSystem)
    modifies config
    ensures config.dockerFilters == Some(DeriveFilters(old(config.dockerFilters), system))
    ensures config.name == old(config.name) && config.namespace == old(config.namespace)
    ensures config.systemId == old(config.systemId)
  {
    var cnames := DockerNames(DefinitionsOf(system));
    if config.dockerFilters.None? {
      config.dockerFilters := Some([]);
    }
    if HasName(system) {
      if system.name.value !in config.dockerFilters.value {
        config.dockerFilters := Some(config.dockerFilters.value + [system.name.value]);
      }
    }
    ghost var base := config.dockerFilters.value;
    for i := 0 to |cnames|
      invariant config.dockerFilters == Some(WithDefinitionNames(StrictEquality, base, cnames[..i], system))
      invariant config.name == old(config.name) && config.namespace == old(config.namespace)
      invariant config.systemId == old(config.systemId)
    {
      var n := cnames[i];
      assert cnames[..i + 1][..i] == cnames[..i];
      if n !in config.dockerFilters.value {
        if Eligible(n, system) {
          config.dockerFilters := Some(config.dockerFilters.value + [n]);
        }
      }
    }
    assert cnames[..|cnames|] == cnames;
  }

  // ---------------------------------------------------------------------------
  // The definition loop

  /** The loop only appends, and what it appends are eligible names from `names`; every
      eligible name ends up in the list. Holds for both membership tests. */
  lemma {:induction false} DefinitionNamesShape(lookup: Lookup, filters: seq<string>, names: seq<string>, system: PriorSystem)
    ensures var r := WithDefinitionNames(lookup, filters, names, system);
      && |filters| <= |r| && r[..|filters|] == filters
      && (forall i | |filters| <= i < |r| :: r[i] in names && Eligible(r[i], system))
      && (forall n | n in names && Eligible(n, system) :: n in r)
  {
    if names != [] {
      var init := names[..|names| - 1];
      var last := names[|names| - 1];
      DefinitionNamesShape(lookup, filters, init, system);
      var prev := WithDefinitionNames(lookup, filters, init, system);
      assert forall n :: n in names <==> n in init || n == last by {
        assert names == init + [last];
      }
      if !Present(lookup, prev, last) && Eligible(last, system) {
        assert (prev + [last])[..|filters|] == prev[..|filters|];
      }
    }
  }

  /** With strict membership, every appended name is new to the list at that point. */
  lemma {:induction false} DefinitionNamesFresh(filters: seq<string>, names: seq<string>, system: PriorSystem)
    ensures var r := WithDefinitionNames(StrictEquality, filters, names, system);
      |filters| <= |r| && forall i | |filters| <= i < |r| :: r[i] !in r[..i]
  {
    if names != [] {
      var init := names[..|names| - 1];
      DefinitionNamesFresh(filters, init, system);
      var prev := WithDefinitionNames(StrictEquality, filters, init, system);
      var last := names[|names| - 1];
      if last !in prev && Eligible(last, system) {
        var r := prev + [last];
        forall i | |filters| <= i < |r| ensures r[i] !in r[..i] {
          if i < |prev| {
            assert r[..i] == prev[..i];
          } else {
            assert r[..i] == prev;
          }
        }
      }
    }
  }

  /** When no name of `names` would be appended, the loop leaves the list as it is. */
  lemma {:induction false} DefinitionNamesStable(filters: seq<string>, names: seq<string>, system: PriorSystem)
    requires forall n | n in names :: n in filters || !Eligible(n, system)
    ensures WithDefinitionNames(StrictEquality, filters, names, system) == filters
  {
    if names != [] {
      var init := names[..|names| - 1];
      assert forall n | n in init :: n in names;
      DefinitionNamesStable(filters, init, system);
    }
  }

  /** Without `""` among `names`, the as-written test and strict membership agree. */
  lemma {:induction false} DefinitionNamesLookupsAgree(filters: seq<string>, names: seq<string>, system: PriorSystem)
    requires "" !in names
    ensures WithDefinitionNames(LodashFind, filters, names, system)
         == WithDefinitionNames(StrictEquality, filters, names, system)
  {
    if names != [] {
      var init := names[..|names| - 1];
      assert forall n | n in init :: n in names;
      DefinitionNamesLookupsAgree(filters, init, system);
    }
  }

  /** A list whose first `k` entries are distinct, and each of whose later entries was
      new when it was appended, has no duplicates. */
  lemma AppendedFreshKeepsNoDuplicates(s: seq<string>, k: nat)
    requires k <= |s| && NoDuplicates(s[..k])
    requires forall i | k <= i < |s| :: s[i] !in s[..i]
    ensures NoDuplicates(s)
  {
    forall i, j | 0 <= i < j < |s| ensures s[i] != s[j] {
      if j < k {
        assert s[i] == s[..k][i] && s[j] == s[..k][j];
      } else {
        assert s[i] == s[..j][i];
      }
    }
  }

  // ---------------------------------------------------------------------------
  // Properties of initFilters

  /** The incoming list (or `[]` when absent) is a prefix of the result: entries are
      only appended, and the old ones keep their order. */
  lemma DeriveAppendOnly(lookup: Lookup, filters: Option<seq<string>>, system: PriorSystem)
    ensures var base := Initial(filters); var r := DeriveWith(lookup, filters, system);
      |base| <= |r| && r[..|base|] == base
  {
    var base := Initial(filters);
    var named := WithSystemName(lookup, base, system);
    DefinitionNamesShape(lookup, named, DockerNames(DefinitionsOf(system)), system);
    assert named[..|base|] == base;
  }

  /** The system-name step: a set name that is not yet a filter is appended right after
      the incoming list and appears nowhere else among the new entries; a name that is
      already present is not appended again; without a name nothing at all is added. */
  lemma DeriveFiltersSystemName(filters: Option<seq<string>>, system: PriorSystem)
    ensures var base := Initial(filters); var r := DeriveFilters(filters, system);
      && |base| <= |r|
      && (HasName(system) && system.name.value !in base ==>
            |r| > |base| && r[|base|] == system.name.value && system.name.value !in r[|base| + 1..])
      && (HasName(system) && system.name.value in base ==> system.name.value !in r[|base|..])
      && (!HasName(system) ==> r == base)
  {
    var base := Initial(filters);
    var named := WithSystemName(StrictEquality, base, system);
    var names := DockerNames(DefinitionsOf(system));
    var r := DeriveFilters(filters, system);
    DefinitionNamesShape(StrictEquality, named, names, system);
    if HasName(system) {
      var sn := system.name.value;
      assert !Eligible(sn, system);
      assert named[..|base|] == base;
      assert sn in named;
      assert sn !in r[|named|..] by {
        forall i | |named| <= i < |r| ensures r[i] != sn {
          assert Eligible(r[i], system);
        }
      }
      if sn !in base {
        assert r[|base|] == named[|base|] == sn;
        assert r[|base| + 1..] == r[|named|..];
      } else {
        assert r[|base|..] == r[|named|..];
      }
    } else {
      assert forall n | n in names :: !Eligible(n, system);
      DefinitionNamesStable(named, names, system);
    }
  }

  /** Exactly which names end up as filters: the incoming ones, the system's name when
      set, and, only when the system has a name, the docker definition names that do
      not start with it. Non-docker definitions contribute nothing. */
  lemma DeriveFiltersMembership(filters: Option<seq<string>>, system: PriorSystem)
    ensures forall x ::
      x in DeriveFilters(filters, system) <==>
        || x in Initial(filters)
        || (HasName(system) && x == system.name.value)
        || (Eligible(x, system) &&
            exists d :: d in DefinitionsOf(system) && d.kind == DOCKER && d.name == x)
  {
    var base := Initial(filters);
    var named := WithSystemName(StrictEquality, base, system);
    var names := DockerNames(DefinitionsOf(system));
    var r := DeriveFilters(filters, system);
    DefinitionNamesShape(StrictEquality, named, names, system);
    assert forall x :: x in named <==> x in base || (HasName(system) && x == system.name.value);
    forall x | x in r
      ensures x in named || (x in names && Eligible(x, system))
    {
      var i :| 0 <= i < |r| && r[i] == x;
      if i < |named| {
        assert x == r[..|named|][i];
      }
    }
    forall x | x in named ensures x in r {
      var i :| 0 <= i < |named| && named[i] == x;
      assert r[..|named|][i] == x;
    }
  }

  /** Every entry added by one call is new: the list starts out duplicate-free, it stays so. */
  lemma DeriveFiltersNoDuplicates(filters: Option<seq<string>>, system: PriorSystem)
    requires NoDuplicates(Initial(filters))
    ensures NoDuplicates(DeriveFilters(filters, system))
  {
    var base := Initial(filters);
    var named := WithSystemName(StrictEquality, base, system);
    var r := DeriveFilters(filters, system);
    DefinitionNamesFresh(named, DockerNames(DefinitionsOf(system)), system);
    DefinitionNamesShape(StrictEquality, named, DockerNames(DefinitionsOf(system)), system);
    AppendedFreshKeepsNoDuplicates(named, |base|);
    AppendedFreshKeepsNoDuplicates(r, |named|);
  }

  /** A second call with the same prior system leaves the list unchanged. */
  lemma DeriveFiltersIdempotent(filters: Option<seq<string>>, system: PriorSystem)
    ensures DeriveFilters(Some(DeriveFilters(filters, system)), system) == DeriveFilters(filters, system)
  {
    var r := DeriveFilters(filters, system);
    var names := DockerNames(DefinitionsOf(system));
    DeriveFiltersMembership(filters, system);
    assert WithSystemName(StrictEquality, r, system) == r;
    DefinitionNamesStable(r, names, system);
  }

  // ---------------------------------------------------------------------------
  // The membership test as written

  /** As written, a docker definition named `""` is appended even when `""` is already
      a filter, so the list gains a duplicate and a second call grows it again. */
  lemma LodashFindDuplicatesEmptyName()
    ensures var system := PriorSystem(Some("web"), None, None,
                                      Some([ContainerDefinition("", DOCKER, map[], "img")]), None);
      var once := DeriveWith(LodashFind, Some([""]), system);
      && once == ["", "web", ""]
      && !NoDuplicates(once)
      && DeriveWith(LodashFind, Some(once), system) == once + [""]
  {
    var system := PriorSystem(Some("web"), None, None,
                              Some([ContainerDefinition("", DOCKER, map[], "img")]), None);
    assert DockerNames(DefinitionsOf(system)) == [""];
    assert !NoDuplicates(["", "web", ""]) by {
      assert ["", "web", ""][0] == ["", "web", ""][2];
    }
  }

  /** The as-written test differs from strict membership only through a docker
      definition named `""`. */
  lemma LodashFindAgreesWithoutEmptyName(filters: Option<seq<string>>, system: PriorSystem)
    requires forall d | d in DefinitionsOf(system) && d.kind == DOCKER :: d.name != ""
    ensures DeriveWith(LodashFind, filters, system) == DeriveFilters(filters, system)
  {
    var base := Initial(filters);
    assert WithSystemName(LodashFind, base, system) == WithSystemName(StrictEquality, base, system);
    DefinitionNamesLookupsAgree(WithSystemName(StrictEquality, base, system),
                                DockerNames(DefinitionsOf(system)), system);
  }
}
