/** Phase 2's relation resolver: the chain names are mapped to stored ids,
    and an evolution edge from the base entity is appended for every such id
    that is not zero, not the base itself and not linked yet; the edges are
    committed in one transaction. `process_pokemon_relations` wraps it with
    the chain fetch and classifies the outcome. */
module Evolution {
  import opened Wrappers
  import opened Seqs
  import opened Store
  import opened Chain

  /** `name_to_id_map`: the stored entities whose name is in `names`, by
      name (names are unique in the store). */
  function ChainIds(t: Tables, names: seq<string>): (m: map<string, int>)
    requires Constraints(t)
    ensures forall n :: n in m ==> n in names && m[n] in t.pokemons && t.pokemons[m[n]].nome == n
    ensures forall id :: id in t.pokemons && t.pokemons[id].nome in names ==>
      t.pokemons[id].nome in m && m[t.pokemons[id].nome] == id
  {
    map id | id in t.pokemons && t.pokemons[id].nome in names :: t.pokemons[id].nome := id
  }

  /** The ids the loop over `names` would link, in order, before the check
      against the edges already present: each name's id when it has one that
      is truthy (not 0) and is not the base's. */
  function Candidates(m: map<string, int>, base: int, names: seq<string>): (r: seq<int>)
    ensures |r| <= |names|
    ensures forall x :: x in r ==> x != 0 && x != base
    decreases |names|
  {
    if names == [] then []
    else
      var prev := Candidates(m, base, names[..|names| - 1]);
      var n := names[|names| - 1];
      if n in m && m[n] != 0 && m[n] != base then prev + [m[n]] else prev
  }

  /** One more chain name: its id is a candidate when it resolves to a
      non-zero id other than the base. */
  lemma CandidatesStep(m: map<string, int>, base: int, names: seq<string>, i: int)
    requires 0 <= i < |names|
    ensures Candidates(m, base, names[..i + 1]) ==
      var prev := Candidates(m, base, names[..i]);
      var n := names[i];
      if n in m && m[n] != 0 && m[n] != base then prev + [m[n]] else prev
  {
    assert names[..i + 1][..i] == names[..i];
  }

  /** Entity `x` is a target the resolver links from `base`: a stored
      entity, other than the base, with a non-zero id, named in the chain. */
  predicate Qualifies(t: Tables, base: int, names: seq<string>, x: int) {
    x in t.pokemons && x != 0 && x != base && t.pokemons[x].nome in names
  }

  lemma {:induction false} CandidatesSpec(t: Tables, base: int, names: seq<string>, all: seq<string>)
    requires Constraints(t)
    requires forall n :: n in names ==> n in all
    ensures forall x :: x in Candidates(ChainIds(t, all), base, names) <==>
      Qualifies(t, base, all, x) && t.pokemons[x].nome in names
    decreases |names|
  {
    var m := ChainIds(t, all);
    if names != [] {
      var init := names[..|names| - 1];
      var n := names[|names| - 1];
      CandidatesSpec(t, base, init, all);
      assert names == init + [n];
      forall x | Qualifies(t, base, all, x) && t.pokemons[x].nome in names
        ensures x in Candidates(m, base, names)
      {
        if t.pokemons[x].nome !in init {
          assert t.pokemons[x].nome == n;
        }
      }
    }
  }

  /** The base's evolution list after the loop. */
  function Edges(t: Tables, base: int, names: seq<string>): seq<int>
    requires Constraints(t) && base in t.pokemons
  {
    AddNames(t.pokemons[base].evolucoes, Candidates(ChainIds(t, names), base, names))
  }

  /** What the loop leaves pending: nothing when no edge was appended,
      otherwise the base row with its extended evolution list. */
  function Staged(t: Tables, base: int, edges: seq<int>): ChangeSet
    requires base in t.pokemons
  {
    if edges == t.pokemons[base].evolucoes then Clean(t)
    else Clean(t).(dirty := map[base := t.pokemons[base].(evolucoes := edges)])
  }

  /** The store after the resolver's commit. */
  function Relinked(t: Tables, base: int, names: seq<string>): Tables
    requires Constraints(t) && base in t.pokemons
  {
    Apply(Staged(t, base, Edges(t, base, names)), t)
  }

  /** The edges the resolver adds: the qualifying entities not linked yet. */
  function NewEdgeSet(t: Tables, base: int, names: seq<string>): set<int>
    requires base in t.pokemons
  {
    set x | x in t.pokemons && Qualifies(t, base, names, x) && x !in t.pokemons[base].evolucoes
  }

  /** Only the base's evolution list changes, by appending: every other
      column and row and every lookup table stay as they were. */
  predicate EdgesGrow(t1: Tables, t2: Tables) {
    && t2.pokemons.Keys == t1.pokemons.Keys
    && (forall id :: id in t1.pokemons ==>
          && t2.pokemons[id] == t1.pokemons[id].(evolucoes := t2.pokemons[id].evolucoes)
          && t1.pokemons[id].evolucoes <= t2.pokemons[id].evolucoes)
    && t2.tipos == t1.tipos && t2.habilidades == t1.habilidades && t2.movimentos == t1.movimentos
  }

  /** The resolver's edges: the old ones first, then exactly the qualifying
      entities, never the base, never twice. */
  lemma EdgesSpec(t: Tables, base: int, names: seq<string>)
    requires Constraints(t) && EdgesSound(t) && base in t.pokemons
    ensures var e0 := t.pokemons[base].evolucoes; var edges := Edges(t, base, names);
      && e0 <= edges
      && (forall x :: x in edges <==> x in e0 || Qualifies(t, base, names, x))
      && NoDup(edges)
      && base !in edges
      && (forall x :: x in edges ==> x in t.pokemons)
  {
    var c := Candidates(ChainIds(t, names), base, names);
    CandidatesSpec(t, base, names, names);
    AddNamesSpec(t.pokemons[base].evolucoes, c);
  }

  /** The number of edges added is the number of qualifying entities that
      were not linked yet. */
  lemma EdgesCount(t: Tables, base: int, names: seq<string>)
    requires Constraints(t) && EdgesSound(t) && base in t.pokemons
    ensures |Edges(t, base, names)| - |t.pokemons[base].evolucoes| == |NewEdgeSet(t, base, names)|
  {
    var e0 := t.pokemons[base].evolucoes;
    var edges := Edges(t, base, names);
    EdgesSpec(t, base, names);
    SuffixCard(e0, edges);
    assert (set x | x in edges) - (set x | x in e0) == NewEdgeSet(t, base, names);
  }

  /** Replacing one entity's evolution list by duplicate-free edges to other
      stored entities keeps the constraints and the edge invariant. */
  lemma ReplaceEdges(t: Tables, base: int, edges: seq<int>)
    requires Constraints(t) && EdgesSound(t) && base in t.pokemons
    requires NoDup(edges) && base !in edges && forall x :: x in edges ==> x in t.pokemons
    ensures var u := t.(pokemons := t.pokemons[base := t.pokemons[base].(evolucoes := edges)]);
      Constraints(u) && EdgesSound(u)
  {
    var u := t.(pokemons := t.pokemons[base := t.pokemons[base].(evolucoes := edges)]);
    forall id, k | id in u.pokemons
      ensures Links(u.pokemons[id], k) == Links(t.pokemons[id], k)
    {
    }
    assert LinksResolve(u, Tipo) && LinksResolve(u, Habilidade) && LinksResolve(u, Movimento);
  }

  /** The committed store: only the base's evolution list grows, by the
      resolver's edges, and every constraint and edge invariant still holds. */
  lemma RelinkedStore(t: Tables, base: int, names: seq<string>)
    requires Constraints(t) && EdgesSound(t) && base in t.pokemons
    ensures var u := Relinked(t, base, names);
      && !Violates(Staged(t, base, Edges(t, base, names)), t)
      && Constraints(u) && EdgesSound(u) && EdgesGrow(t, u)
      && u.pokemons[base].evolucoes == Edges(t, base, names)
  {
    EdgesSpec(t, base, names);
    var edges := Edges(t, base, names);
    ReplaceEdges(t, base, edges);
    var u := Relinked(t, base, names);
    if edges == t.pokemons[base].evolucoes {
      ApplyClean(t);
      assert t.pokemons[base := t.pokemons[base].(evolucoes := edges)] == t.pokemons;
    }
    assert u == t.(pokemons := t.pokemons[base := t.pokemons[base].(evolucoes := edges)]);
  }

  /** The session's view of the base row while edges are staged. */
  lemma StagedView(t: Tables, base: int, edges: seq<int>)
    requires base in t.pokemons
    ensures Apply(Staged(t, base, edges), t).pokemons.Keys == t.pokemons.Keys
    ensures Apply(Staged(t, base, edges), t).pokemons[base] == t.pokemons[base].(evolucoes := edges)
  {
  }

  /** Appending one more edge to the base row moves the staged change-set
      one step on. */
  lemma StagedAppend(t: Tables, base: int, edges: seq<int>, x: int)
    requires base in t.pokemons && t.pokemons[base].evolucoes <= edges
    ensures var c := Staged(t, base, edges);
      var p := t.pokemons[base].(evolucoes := edges);
      c.(dirty := c.dirty[base := p.(evolucoes := edges + [x])]) == Staged(t, base, edges + [x])
  {
    assert |edges + [x]| > |t.pokemons[base].evolucoes|;
  }

  /** The loop over the chain names: appends to the base's evolution list
      every candidate id it does not hold yet, and counts the appends. */
  method AppendEdges(db: Session, base: int, nameToId: map<string, int>, names: seq<string>)
    returns (created: nat)
    requires base in db.committed.pokemons && db.pending == Clean(db.committed)
    requires forall n :: n in nameToId ==> nameToId[n] in db.committed.pokemons
    modifies db
    ensures db.committed == old(db.committed)
    ensures var e0 := old(db.committed.pokemons[base].evolucoes);
      var edges := AddNames(e0, Candidates(nameToId, base, names));
      db.pending == Staged(db.committed, base, edges) && created == |edges| - |e0|
  {
    ghost var t := db.committed;
    ghost var e0 := t.pokemons[base].evolucoes;
    created := 0;
    var i := 0;
    while i < |names|
      invariant 0 <= i <= |names|
      invariant db.committed == t
      invariant db.pending == Staged(t, base, AddNames(e0, Candidates(nameToId, base, names[..i])))
      invariant created == |AddNames(e0, Candidates(nameToId, base, names[..i]))| - |e0|
    {
      ghost var edges := AddNames(e0, Candidates(nameToId, base, names[..i]));
      CandidatesStep(nameToId, base, names, i);
      AddNamesSpec(e0, Candidates(nameToId, base, names[..i]));
      StagedView(t, base, edges);
      var evoName := names[i];
      if evoName in nameToId {
        var evoId := nameToId[evoName];
        if evoId != 0 && evoId != base {
          AddNamesSnoc(e0, Candidates(nameToId, base, names[..i]), evoId);
          var evolucao := db.Get(evoId);
          if evolucao.Some? {
            var pokemonBase := db.Get(base);
            if evoId !in pokemonBase.value.evolucoes {
              StagedAppend(t, base, edges, evoId);
              db.AppendEvolution(base, evoId);
              created := created + 1;
            }
          }
        }
      }
      i := i + 1;
    }
    assert names[..i] == names;
  }

  /** `resolve_evolution_relations_sync`: the number of edges created, or
      the exception its commit raised. */
  datatype Resolved = Linked(count: nat) | ResolveRaised

  /** `resolve_evolution_relations_sync(db, current_pokemon_id, chain_names)`
      in a fresh session, with the fault its queries and its commit meet as
      input. */
  method ResolveEvolutionRelations(db: Session, base: int, names: seq<string>, fault: Fault)
    returns (r: Resolved)
    requires db.Valid() && EdgesSound(db.committed) && db.pending == Clean(db.committed)
    modifies db
    ensures db.Valid()
    // no names, or (when the lookup succeeds) no such base: 0 and nothing
    // written or committed
    ensures names == [] || (fault != QueryFailure && base !in old(db.committed.pokemons)) ==>
      r == Linked(0) && db.committed == old(db.committed) && db.pending == old(db.pending)
    // a failing lookup of the base raises before anything is written
    ensures names != [] && fault == QueryFailure ==>
      r == ResolveRaised && db.committed == old(db.committed) && db.pending == Clean(db.committed)
    ensures names != [] && base in old(db.committed.pokemons) ==>
      && (fault == NoFault <==> r.Linked?)
      // success: the edges are committed and counted
      && (r.Linked? ==>
            && db.committed == Relinked(old(db.committed), base, names)
            && r.count == |Edges(old(db.committed), base, names)| - |old(db.committed.pokemons[base].evolucoes)|
            && db.pending == Clean(db.committed))
      // failure: rolled back, nothing written
      && (r.ResolveRaised? ==> db.committed == old(db.committed) && db.pending == Clean(db.committed))
  {
    if names == [] {
      return Linked(0);
    }
    if fault == QueryFailure {
      db.Rollback();
      return ResolveRaised;
    }
    var existing := db.Get(base);
    if existing.None? {
      return Linked(0);
    }
    ghost var t := db.committed;
    ApplyClean(t);
    assert db.View() == t;
    var nameToId := ChainIds(db.View(), names);
    var created := AppendEdges(db, base, nameToId, names);
    ghost var staged := Staged(t, base, Edges(t, base, names));
    assert db.pending == staged;
    RelinkedStore(t, base, names);
    assert CommitResult(staged, t, fault) == if fault == NoFault then Committed
      else if fault == ConcurrentConflict then IntegrityError else OperationalError;
    var outcome := db.Commit(fault);
    if outcome != Committed {
      db.Rollback();
      return ResolveRaised;
    }
    r := Linked(created);
  }

  /** With no chain names the resolver has nothing to link. */
  lemma RelinkedNoNames(t: Tables, base: int)
    requires Constraints(t) && base in t.pokemons
    ensures Relinked(t, base, []) == t && NewEdgeSet(t, base, []) == {}
  {
    ApplyClean(t);
  }

  /** Every store's evolution lists grow from themselves. */
  lemma EdgesGrowRefl(t: Tables)
    ensures EdgesGrow(t, t)
  {
  }

  /** Growth of the evolution lists composes. */
  lemma EdgesGrowTrans(t1: Tables, t2: Tables, t3: Tables)
    requires EdgesGrow(t1, t2) && EdgesGrow(t2, t3)
    ensures EdgesGrow(t1, t3)
  {
    forall id | id in t1.pokemons
      ensures t1.pokemons[id].evolucoes <= t3.pokemons[id].evolucoes
    {
      assert t2.pokemons[id].evolucoes <= t3.pokemons[id].evolucoes;
    }
  }

  datatype RelStatus = Processed | RelSkipped | RelError

  /** `(status, id, count)` as `process_pokemon_relations` returns it. */
  datatype RelationsResult = RelationsResult(status: RelStatus, id: int, count: nat)

  /** Phase-2 result of one identifier on store `t`, its chain fetch
      receiving the two replies and its lookup and commit meeting `fault`. */
  function RelStep(t: Tables, identifier: int, species: SpeciesReply, chain: ChainReply, fault: Fault): RelationsResult
    requires Constraints(t)
  {
    if fault == QueryFailure then RelationsResult(RelError, identifier, 0)
    else if identifier !in t.pokemons then RelationsResult(RelSkipped, identifier, 0)
    else
      var names := ChainNames(species, chain);
      if names != [] && fault != NoFault then RelationsResult(RelError, identifier, 0)
      else RelationsResult(Processed, identifier, |NewEdgeSet(t, identifier, names)|)
  }

  /** The store after that identifier: relinked when it was processed,
      otherwise unchanged. */
  function AfterRel(t: Tables, identifier: int, species: SpeciesReply, chain: ChainReply, fault: Fault): Tables
    requires Constraints(t)
  {
    if RelStep(t, identifier, species, chain, fault).status == Processed
    then Relinked(t, identifier, ChainNames(species, chain))
    else t
  }

  /** One identifier's phase-2 step keeps the store's constraints and its
      edge invariant, and only appends evolution edges. */
  lemma AfterRelStore(t: Tables, identifier: int, species: SpeciesReply, chain: ChainReply, fault: Fault)
    requires Constraints(t) && EdgesSound(t)
    ensures var u := AfterRel(t, identifier, species, chain, fault);
      Constraints(u) && EdgesSound(u) && EdgesGrow(t, u)
  {
    if RelStep(t, identifier, species, chain, fault).status == Processed {
      RelinkedStore(t, identifier, ChainNames(species, chain));
    }
  }

  /** A failing lookup makes the identifier an error, stored or not, and
      writes nothing. */
  lemma RelStepLookupFails(t: Tables, identifier: int, species: SpeciesReply, chain: ChainReply)
    requires Constraints(t)
    ensures RelStep(t, identifier, species, chain, QueryFailure) == RelationsResult(RelError, identifier, 0)
    ensures AfterRel(t, identifier, species, chain, QueryFailure) == t
  {
  }

  /** `process_pokemon_relations(client, identifier, semaphore)` for an
      integer identifier, with a fresh session: look the entity up, fetch its
      chain (the two replies are inputs; `names` is what the fetch returns),
      resolve the edges, classify, close the session. The fault the lookup
      and the resolver's commit meet is an input. */
  method ProcessPokemonRelations(db: Session, identifier: int, species: SpeciesReply, chain: ChainReply, fault: Fault)
    returns (r: RelationsResult, ghost names: seq<string>)
    requires db.Valid() && EdgesSound(db.committed) && db.pending == Clean(db.committed)
    modifies db
    ensures db.Valid() && EdgesSound(db.committed) && db.pending == Clean(db.committed)
    ensures EdgesGrow(old(db.committed), db.committed)
    ensures r.id == identifier
    // a failing lookup is an error, stored or not, and writes nothing
    ensures fault == QueryFailure ==>
      r.status == RelError && r.count == 0 && db.committed == old(db.committed)
    // otherwise an identifier that is not stored is skipped
    ensures fault != QueryFailure && identifier !in old(db.committed.pokemons) ==>
      r.status == RelSkipped && r.count == 0 && db.committed == old(db.committed)
    ensures fault != QueryFailure && identifier in old(db.committed.pokemons) ==>
      && r.status != RelSkipped
      && (forall x :: x in names <==> ChainMember(species, chain, x))
      // only a failing commit of a non-empty chain is an error, and it writes nothing
      && (r.status == RelError <==> names != [] && fault != NoFault)
      && (r.status == RelError ==> r.count == 0 && db.committed == old(db.committed))
      // otherwise the edges are committed and the count is the number of new ones
      && (r.status == Processed ==>
            && db.committed == Relinked(old(db.committed), identifier, names)
            && r.count == |NewEdgeSet(old(db.committed), identifier, names)|)
    // the result and the new store are the ones the replies and the fault determine
    ensures r == RelStep(old(db.committed), identifier, species, chain, fault)
    ensures db.committed == AfterRel(old(db.committed), identifier, species, chain, fault)
  {
    ghost var t := db.committed;
    EdgesGrowRefl(t);
    names := [];
    if fault == QueryFailure {
      r := RelationsResult(RelError, identifier, 0);
      db.Rollback();
      return;
    }
    var existing := db.Get(identifier);
    ApplyClean(t);
    if existing.None? {
      r := RelationsResult(RelSkipped, identifier, 0);
      db.Rollback();
      return;
    }
    var chainNames := FetchEvolutionChain(species, chain);
    names := chainNames;
    var resolved := ResolveEvolutionRelations(db, identifier, chainNames, fault);
    if resolved.ResolveRaised? {
      db.Rollback();
      r := RelationsResult(RelError, identifier, 0);
    } else {
      if chainNames == [] {
        RelinkedNoNames(t, identifier);
      } else {
        RelinkedStore(t, identifier, chainNames);
        EdgesCount(t, identifier, chainNames);
      }
      r := RelationsResult(Processed, identifier, resolved.count);
    }
    db.Rollback();
  }

  /** A stored row with only a name. */
  function Bare(nome: string): Pokemon {
    Pokemon(nome, None, None, None, [], [], [], [])
  }

  /** A store with "b" under id 0, the base "a" under id 1 and "c" under
      id 3, and the chain a -> b -> c -> d over it. */
  function ScenarioStore(): Tables {
    Tables(map[0 := Bare("b"), 1 := Bare("a"), 3 := Bare("c")], [], [], [])
  }

  lemma ScenarioStoreValid()
    ensures Constraints(ScenarioStore()) && EdgesSound(ScenarioStore())
  {
    var t := ScenarioStore();
    assert t.pokemons.Keys == {0, 1, 3};
    forall id, k | id in t.pokemons ensures Links(t.pokemons[id], k) == [] && t.pokemons[id].evolucoes == [] {
    }
    assert "a" != "b" && "b" != "c" && "a" != "c";
  }

  /** The chain's names map to the ids of their rows; d has none. */
  lemma ScenarioIds()
    ensures var m := ChainIds(ScenarioStore(), ["a", "b", "c", "d"]);
      && "a" in m && m["a"] == 1
      && "b" in m && m["b"] == 0
      && "c" in m && m["c"] == 3
      && "d" !in m
  {
    var t := ScenarioStore();
    var names := ["a", "b", "c", "d"];
    ScenarioStoreValid();
    assert 0 in t.pokemons && 1 in t.pokemons && 3 in t.pokemons;
    assert t.pokemons[0].nome == "b" && t.pokemons[1].nome == "a" && t.pokemons[3].nome == "c";
    assert "a" == names[0] && "b" == names[1] && "c" == names[2];
    forall id | id in t.pokemons ensures t.pokemons[id].nome != "d" {
      assert id == 0 || id == 1 || id == 3;
    }
  }

  /** Walking a -> b -> c -> d with those ids leaves only c's id. */
  lemma ScenarioCandidates(m: map<string, int>)
    requires "a" in m && "b" in m && "c" in m && "d" !in m
    requires m["a"] == 1 && m["b"] == 0 && m["c"] == 3
    ensures Candidates(m, 1, ["a", "b", "c", "d"]) == [3]
  {
    var names := ["a", "b", "c", "d"];
    assert names[..3] == ["a", "b", "c"] && names[..3][..2] == ["a", "b"] && names[..3][..2][..1] == ["a"];
    assert Candidates(m, 1, ["a"]) == [];
    assert Candidates(m, 1, ["a", "b"]) == [];
    assert Candidates(m, 1, ["a", "b", "c"]) == [3];
  }

  /** Over that store only c is linked from a, once: b's id is 0 (falsy) and
      d has no row. */
  lemma ScenarioChainSkips()
    ensures Constraints(ScenarioStore())
    ensures Edges(ScenarioStore(), 1, ["a", "b", "c", "d"]) == [3]
  {
    ScenarioStoreValid();
    ScenarioIds();
    ScenarioCandidates(ChainIds(ScenarioStore(), ["a", "b", "c", "d"]));
    assert AddNames([], [3]) == [3];
  }

  /** ... and the resolver counts that one edge. */
  lemma ScenarioChainCount()
    ensures NewEdgeSet(ScenarioStore(), 1, ["a", "b", "c", "d"]) == {3}
  {
    var t := ScenarioStore();
    var names := ["a", "b", "c", "d"];
    assert Qualifies(t, 1, names, 3);
    forall x | Qualifies(t, 1, names, x) ensures x == 3 {
      assert x == 0 || x == 1 || x == 3;
    }
  }
}
