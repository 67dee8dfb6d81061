# Pokédex importer — a verified model

This project models the core of `scripts/importar_async_pokemons.py`. That script is a two-phase importer that copies PokeAPI entities ("pokémons") into a local relational store.

- **Phase 1** fetches each listed id's detail, with a 404 short-circuit and linear-backoff retries. It then inserts the entity with its links to get-or-created type, ability and move rows, all in one transaction. An id that is already stored is skipped. An integrity error on commit is rolled back and retried a bounded number of times.
- **Phase 2** runs for every id that phase 1 imported. It fetches the evolution chain, flattens the tree into its distinct lower-cased names, and appends an evolution edge from the entity to every other stored chain member not linked yet.
- **The orchestrator** parses ids from the listing URLs, filters them to `start..end`, and counts the outcomes of each phase.

The model has these modules:

- `Store`: the tables as the script uses them, and a `Session` class.
  - Entity rows are keyed by id.
  - Each lookup table is a duplicate-free sequence of names.
  - A `Session` holds the committed tables and a pending change-set. Queries see the change-set applied, commit applies it (or refuses it), and rollback discards it.
- `DetailFetch`: the retry loop of `fetch_pokemon_detail`.
- `Chain`: `extract_chain` and `fetch_evolution_chain`.
- `BaseImport`: `get_or_create_*` as the script uses it, `insert_base_pokemon_sync` and `process_pokemon_base`.
- `Evolution`: `resolve_evolution_relations_sync` and `process_pokemon_relations`.
- `Orchestrator`: the arithmetic of `import_all_async`, and both phases run over their ids.

The HTTP replies, the listing and the outcome of every commit are inputs.

- **HTTP replies:** one reply per fetch attempt, plus a species reply and a chain tree.
- **Store failures:** `Fault` says what the store does to one unit of work: nothing, a concurrent uniqueness conflict at commit, an operational failure at commit, or a failure of the lookup by id that opens it (`QueryFailure`). Phase 1 has one fault per insert attempt, phase 2 one per entity.

A commit also fails with an integrity error when the change-set itself breaks a constraint: a duplicate id, a duplicate name, or a dangling link.

In these details the model follows the script as written:

- **Waits.** The fetcher waits `attempt` units after every failed attempt, including the last one.
- **JSON decode errors.** A body that is not JSON raises out of the fetcher, so phase 1 reports "error".
- **Exhausted fetch retries.** The fetcher returns `None`, and phase 1 classifies that as "skipped", not "error".
- **Phase-1 result.** Its third element is `[nome]`, not the list of types.
- **Chain ids.** The resolver's `if evo_id` test skips an entity whose id is 0.
- **Table shapes.** `models/pokemon.py` declares a different table shape (a string `tipos` column, no sprite, no relationships). The model follows the list relationships the script uses.

## Model

| member | source | states |
|---|---|---|
| Store.Session.constructor | scripts/importar_async_pokemons.py:162 | a fresh session sees the committed store and has nothing pending |
| Store.Session.Get | scripts/importar_async_pokemons.py:113 | the query finds a row exactly when the id is in the session's view (pending writes flushed), and returns that row |
| Store.Session.GetOrCreate | scripts/importar_async_pokemons.py:23-45 | if the session already sees a row with the name, nothing changes and that row is returned; otherwise exactly one row with that name is appended to that table only; the returned row carries the name |
| Store.Session.Add | scripts/importar_async_pokemons.py:117-126 | the new row is pending and its id is recorded as inserted |
| Store.Session.Update | scripts/importar_async_pokemons.py:128-133 | the pending row is replaced; nothing else changes |
| Store.Session.AppendEvolution | scripts/importar_async_pokemons.py:214 | the entity's evolution list as the session sees it grows by the target at the end; nothing else changes |
| Store.Session.Commit | scripts/importar_async_pokemons.py:136 | an operational error when the store fails, or an integrity error when a concurrent conflict occurs or the change-set breaks a constraint; on success the committed store is the change-set applied and nothing is pending; on failure nothing is written |
| Store.Session.Rollback | scripts/importar_async_pokemons.py:145 | everything pending is discarded and the committed store is unchanged |
| Store.Apply | scripts/importar_async_pokemons.py:136 | the store after commit: the committed ids plus the written ones; written rows replace old ones; other rows unchanged; lookup tables as the session sees them |
| Store.NameTakenGrows | scripts/importar_async_pokemons.py:136 | a name another stored entity holds stays taken in every store that only adds rows |
| Seqs.AddNamesSpec | scripts/importar_async_pokemons.py:23-45 | a run of get-or-creates keeps the old rows as a prefix, ends with exactly the old rows and the new names, and never duplicates a row |
| Seqs.AddNames | scripts/importar_async_pokemons.py:23-45 | a run of get-or-creates never shrinks a table and adds at most one row per name |
| Seqs.AddNamesSnoc | scripts/importar_async_pokemons.py:23-45 | one more get-or-create adds the name at the end exactly when the table does not hold it yet |
| Seqs.Lower | scripts/importar_async_pokemons.py:108 | lower-casing keeps the length, leaves no ASCII capital, and leaves text without ASCII capitals unchanged (ASCII letters only; see Left out) |
| Seqs.Dedup | scripts/importar_async_pokemons.py:95 | `list(set(...))` holds every name of the input and nothing else, each once |
| DetailFetch.FetchPokemonDetail | scripts/importar_async_pokemons.py:55-66 | at most `retries` GETs; every wait follows a retried failure and the k-th wait is k units; the result is the one the reference `FetchResult` gives for the replies: the first 404 or 2xx reply settles it at once (404 is `None`), and when attempts run out it is `None`, never an exception |
| DetailFetch.FetchFrom | scripts/importar_async_pokemons.py:57-66 | a payload is only ever returned when some attempt within the budget received it with a 2xx status |
| DetailFetch.ScenarioRetryOnce | scripts/importar_async_pokemons.py:57-65 | a transport error, or a 503, on the first GET followed by a 200 with a payload returns that payload |
| Chain.ExtractChain | scripts/importar_async_pokemons.py:83-92 | the walk appends the node's lower-cased name and then each subtree's names in order, or fails when a node lacks a species name |
| Chain.PreorderNames | scripts/importar_async_pokemons.py:83-92 | the walk's names are exactly the lower-cased names of the tree's nodes |
| Chain.PreorderAllNames | scripts/importar_async_pokemons.py:89-90 | the children's walks together hold exactly the names occurring in some child |
| Chain.FetchEvolutionChain | scripts/importar_async_pokemons.py:68-98 | the result is the one the reference `ChainNames` gives for the two replies |
| Chain.ChainNames | scripts/importar_async_pokemons.py:68-98 | the names have no duplicates and hold a name exactly when both fetches succeed, a chain URL is present, every node is named and the name occurs in the tree; on any failure there are none |
| BaseImport.LinkAll | scripts/importar_async_pokemons.py:128-133 | the table becomes the old one after get-or-creating each payload name in order; other tables and the entity rows unchanged; the linked names are the payload names in payload order |
| BaseImport.StageInsert | scripts/importar_async_pokemons.py:113-133 | an id already in the store stages nothing; otherwise the pending change-set is the new row with its links plus the tables after get-or-create |
| BaseImport.InsertedRows | scripts/importar_async_pokemons.py:128-133 | after an insert each table keeps its old rows as a prefix, holds exactly the old rows and the payload names, and stays duplicate-free |
| BaseImport.InsertConflictIff | scripts/importar_async_pokemons.py:136-143 | the insert's commit is refused by the store exactly when another entity already has the new lower-cased name |
| BaseImport.InsertedStore | scripts/importar_async_pokemons.py:107-141 | a successful insert adds exactly the one id, with the lower-cased name and links equal to the payload's names; every payload name is a row afterwards; the constraints hold and nothing stored before changes |
| BaseImport.InsertBasePokemon | scripts/importar_async_pokemons.py:105-157 | the result is the one the reference `InsertResult` gives for the store and the faults; a failing lookup at the first attempt raises at once, stored id or not; otherwise an id already stored returns `None` and writes nothing; an import commits exactly the insert and returns the id, lower-cased name and payload types; an integrity error rolls back and is retried with waits 1, 2, ... until the attempts run out, then raised; a failing lookup or any other error is raised at once; every failure leaves the store as it was |
| BaseImport.InsertFrom | scripts/importar_async_pokemons.py:110-155 | the retry loop never falls through to `None` (a failing lookup raises), and an import always returns the payload id, the lower-cased name and the payload types |
| BaseImport.InsertFromCommitted | scripts/importar_async_pokemons.py:136-141 | an attempt only imports when its change-set breaks no constraint of the store |
| BaseImport.InsertFromUnfaulted | scripts/importar_async_pokemons.py:110-151 | with no fault at commit, a new entity is imported at the first attempt unless another entity has its name, in which case every attempt fails and the integrity error is raised |
| BaseImport.InsertResultUnfaulted | scripts/importar_async_pokemons.py:105-157 | with no fault at commit: a stored id gives `None`, a taken name raises the integrity error, anything else is imported |
| BaseImport.InsertFromGrows | scripts/importar_async_pokemons.py:110-155 | an insert that did not import on a store, under given commit faults, does not import on any store grown from it under the same faults |
| BaseImport.ScenarioSharedType | scripts/importar_async_pokemons.py:23-29 | two imports that share "fire" leave one "fire" row that both entities link to |
| BaseImport.ClassifyBase | scripts/importar_async_pokemons.py:164-188 | "imported" exactly when the insert imported, with its id and `[nome]`; "error" exactly when the fetch or the insert raised; "skipped" otherwise, with the payload id when there was a payload |
| BaseImport.ProcessPokemonBase | scripts/importar_async_pokemons.py:159-190 | the result and the new store are the ones the reference `BaseStep`/`AfterBase` give for the replies and commit faults; the store only grows; only an "imported" result changes it, adding exactly its new id; the session is closed clean |
| BaseImport.InsertFor | scripts/importar_async_pokemons.py:164-170 | the insert runs exactly when the fetch returned a payload |
| BaseImport.AfterBaseStore | scripts/importar_async_pokemons.py:159-190 | one id's phase-1 step keeps the constraints and the edge invariant, only adds rows, adds exactly the imported id on "imported" and changes nothing otherwise |
| BaseImport.BaseStepNotFound | scripts/importar_async_pokemons.py:60-61 | a 404 on the first GET makes the id "skipped" with no id and no name, and the store unchanged |
| BaseImport.BaseStepImports | scripts/importar_async_pokemons.py:159-175 | a payload on the first GET, a new id and a free name with no commit fault give "imported" with the id and `[nome]`, and the store with the entity inserted |
| BaseImport.BaseStepLookupFails | scripts/importar_async_pokemons.py:113-155 | a payload whose insert meets a failing lookup at the first attempt makes the id "error", stored or not, and writes nothing |
| BaseImport.BaseStepRerun | scripts/importar_async_pokemons.py:113-115 | one id's phase-1 step run again, with the same replies and faults, on a store grown from what its first run left, imports nothing and changes nothing |
| Evolution.ChainIds | scripts/importar_async_pokemons.py:205-206 | the name map holds exactly the stored entities named in the chain, each under its own name |
| Evolution.CandidatesSpec | scripts/importar_async_pokemons.py:208-212 | the ids the loop would link are exactly the stored non-zero entities other than the base that are named in the chain |
| Evolution.Candidates | scripts/importar_async_pokemons.py:208-212 | the loop yields at most one id per chain name, never 0 and never the base |
| Evolution.CandidatesStep | scripts/importar_async_pokemons.py:208-212 | one more chain name adds its id exactly when the id is known, non-zero and not the base |
| Evolution.EdgesSpec | scripts/importar_async_pokemons.py:208-215 | the base's new evolution list keeps the old one as a prefix, adds exactly the qualifying entities, never the base itself, never an edge twice, and only stored targets |
| Evolution.EdgesCount | scripts/importar_async_pokemons.py:213-223 | the number of edges appended is the number of qualifying entities not linked before |
| Evolution.ReplaceEdges | scripts/importar_async_pokemons.py:214 | replacing one evolution list by duplicate-free edges to other stored entities keeps every constraint |
| Evolution.RelinkedStore | scripts/importar_async_pokemons.py:213-218 | the resolver's commit is never refused by the store; afterwards the constraints hold, only the base's evolution list changed (by appending), and it is the resolver's edges |
| Evolution.RelinkedNoNames | scripts/importar_async_pokemons.py:196-197 | an empty chain relinks nothing and adds no edge |
| Evolution.AppendEdges | scripts/importar_async_pokemons.py:208-215 | the loop leaves exactly the base row with the new evolution list pending and counts the appended edges |
| Evolution.ResolveEvolutionRelations | scripts/importar_async_pokemons.py:194-223 | an empty name list, or a missing base when the lookup succeeds, gives 0 and writes nothing; a failing lookup of the base with names raises and writes nothing; otherwise the result is a count exactly when the commit meets no fault, the committed store is the relinked one and the count is the number of new edges; a failing commit is rolled back |
| Evolution.ProcessPokemonRelations | scripts/importar_async_pokemons.py:226-250 | the result and the new store are the ones the reference `RelStep`/`AfterRel` give; a failing existence lookup is "error" with 0 and nothing written, stored or not; otherwise an id not stored is "skipped" with 0; otherwise the chain names are fetched; the result is "error" with 0 and nothing written exactly when the chain is non-empty and the commit fails; otherwise "processed" with the number of new edges committed; evolution lists only grow |
| Evolution.RelStepLookupFails | scripts/importar_async_pokemons.py:231-248 | a failing existence lookup makes the id "error" with 0, stored or not, and writes nothing |
| Evolution.AfterRelStore | scripts/importar_async_pokemons.py:226-250 | one id's phase-2 step keeps the constraints and the edge invariant and only appends evolution edges |
| Evolution.ScenarioIds | scripts/importar_async_pokemons.py:205-206 | over a store with b as id 0, a as 1 and c as 3, the chain a, b, c, d maps a, b and c to their ids; d is absent |
| Evolution.ScenarioCandidates | scripts/importar_async_pokemons.py:208-210 | with those ids, the loop from base 1 keeps only id 3 (0 is falsy, 1 is the base, d has no id) |
| Evolution.ScenarioChainSkips | scripts/importar_async_pokemons.py:208-215 | from a (id 1), the resolver's evolution list is exactly [3] |
| Evolution.ScenarioChainCount | scripts/importar_async_pokemons.py:213-223 | that run counts one new edge, to 3 |
| Orchestrator.RStrip | scripts/importar_async_pokemons.py:257 | `rstrip("/")` removes exactly the trailing run of slashes |
| Orchestrator.LastSegment | scripts/importar_async_pokemons.py:257 | `split("/")[-1]` is the slash-free suffix after the last slash, or the whole string |
| Orchestrator.RStripSlashes | scripts/importar_async_pokemons.py:257 | stripping undoes any number of appended slashes |
| Orchestrator.LastSegmentAfterSlash | scripts/importar_async_pokemons.py:257 | the last segment of `prefix/seg` is `seg` |
| Orchestrator.ParseInt | scripts/importar_async_pokemons.py:257 | a number is read only from text ending in a digit, is negative only after a leading minus, and an unsigned digit string reads as its decimal value |
| Orchestrator.ParseId | scripts/importar_async_pokemons.py:257 | an id is read only from a URL whose last character other than the trailing slashes is a digit |
| Orchestrator.ParseIntShow | scripts/importar_async_pokemons.py:257 | `int()` of a number's decimal digits is the number |
| Orchestrator.ParseIdRoundTrip | scripts/importar_async_pokemons.py:257 | the id of `prefix/<n>` followed by any number of slashes is `n` |
| Orchestrator.ParseIdRejects | scripts/importar_async_pokemons.py:257 | a last segment that does not end in a digit makes the model's `int()` reject the URL |
| Orchestrator.MapAllSpec | scripts/importar_async_pokemons.py:257 | a comprehension whose element may raise succeeds exactly when every element converts, and then holds the converted elements in order |
| Orchestrator.ParseIds | scripts/importar_async_pokemons.py:257 | the listing yields ids exactly when every URL parses, one id per URL in listing order |
| Orchestrator.MaxOf | scripts/importar_async_pokemons.py:258-259 | `max` is an element of the ids and at least every one of them |
| Orchestrator.FilterRange | scripts/importar_async_pokemons.py:260 | the filter keeps every id within the range as often as it occurs, and nothing else |
| Orchestrator.FilterRangeAppend | scripts/importar_async_pokemons.py:260 | the filter keeps the listing order: it distributes over concatenation |
| Orchestrator.IdsToProcessSpec | scripts/importar_async_pokemons.py:257-260 | the run proceeds exactly when every URL parses and there is an upper bound (an explicit end, or a non-empty listing); it keeps the ids at or above start and at or below end, and without an end every id at or above start |
| Orchestrator.IdsToProcess | scripts/importar_async_pokemons.py:257-260 | every id kept is at or above `start` and, when `end` is given, at or below it |
| Orchestrator.StatusPartition | scripts/importar_async_pokemons.py:274-277 | imported, skipped and error add up to the number processed |
| Orchestrator.CountStatus | scripts/importar_async_pokemons.py:275-277 | a status count never exceeds the number of phase-1 results |
| Orchestrator.ImportedIds | scripts/importar_async_pokemons.py:272 | phase 2 never runs over more ids than phase 1 imported |
| Orchestrator.ImportedIdsSpec | scripts/importar_async_pokemons.py:272 | phase 2's ids are exactly those of the imported results, one per imported result when each carries its id |
| Orchestrator.RelCountBound | scripts/importar_async_pokemons.py:291 | a phase-2 status count is at most the number of results, and equal exactly when every result has that status |
| Orchestrator.CountRelStatus | scripts/importar_async_pokemons.py:291 | a phase-2 status count never exceeds the number of results |
| Orchestrator.LinkedSum | scripts/importar_async_pokemons.py:289 | only processed results contribute edges: with none processed the total is 0 |
| Orchestrator.LinkedSumSnoc | scripts/importar_async_pokemons.py:289 | one more result adds its count to the total exactly when it was processed |
| Orchestrator.LinkedSumAppend | scripts/importar_async_pokemons.py:289 | the total over two runs of results is the sum of their totals |
| Orchestrator.Phase1 | scripts/importar_async_pokemons.py:266-269 | phase 1 yields one result per id, each on the store the ids before it left |
| Orchestrator.Phase2 | scripts/importar_async_pokemons.py:285-287 | phase 2 yields one result per id and keeps the constraints and the edge invariant, only appending edges |
| Orchestrator.Phase1Prefix | scripts/importar_async_pokemons.py:266-269 | phase 1 over one more id appends that id's result on the store so far |
| Orchestrator.Phase2Prefix | scripts/importar_async_pokemons.py:285-287 | phase 2 over one more id appends that id's result on the store so far |
| Orchestrator.Phase1Store | scripts/importar_async_pokemons.py:266-269 | phase 1 keeps the constraints and the edge invariant and only adds rows |
| Orchestrator.ImportCountStep | scripts/importar_async_pokemons.py:272-275 | one phase-1 step that imports adds its id and one row; any other step adds no row |
| Orchestrator.Phase1Results | scripts/importar_async_pokemons.py:266-275 | the rows grow by exactly the number of imports, and every imported result carries a stored id |
| Orchestrator.Phase1Rerun | scripts/importar_async_pokemons.py:266-275 | phase 1 run again over the same ids, replies and faults, on any store grown from what the first run left, imports nothing and leaves the store as it was |
| Orchestrator.Phase1Idempotent | scripts/importar_async_pokemons.py:266-275 | re-running phase 1 right after itself imports nothing and leaves the rows as they were |
| Orchestrator.RelIdsStep | scripts/importar_async_pokemons.py:286-287 | one more phase-2 result names its id, is an error when its lookup fails, and otherwise is skipped exactly when the id is not stored |
| Orchestrator.Phase2Results | scripts/importar_async_pokemons.py:285-287 | phase 2 reports every id in order; an id whose lookup fails is an error; otherwise it skips exactly the ids not stored when it starts |
| Orchestrator.ScenarioStores | scripts/importar_async_pokemons.py:266-269 | the empty store and the store holding bulbasaur as id 1 both keep the constraints |
| Orchestrator.ScenarioFirst | scripts/importar_async_pokemons.py:266-275 | id 1 with a payload is imported into the empty store |
| Orchestrator.ScenarioSecond | scripts/importar_async_pokemons.py:60-61 | id 2 answering 404 is skipped and leaves the store as it was |
| Orchestrator.ScenarioThirdStep | scripts/importar_async_pokemons.py:159-175 | id 3 with a payload is imported next to id 1 |
| Orchestrator.ScenarioThird | scripts/importar_async_pokemons.py:266-269 | phase 1 over 1, 2, 3 gives imported, skipped, imported, and stores ids 1 and 3 |
| Orchestrator.ScenarioNotFoundSkipped | scripts/importar_async_pokemons.py:274-277 | that run counts 2 imported, 1 skipped and 0 errors |
| Orchestrator.ImportBase | scripts/importar_async_pokemons.py:266-269 | phase 1 yields one result per id, and results and store are those the reference `Phase1` gives; the store only grows, by exactly one row per import; every imported id is stored |
| Orchestrator.LinkEvolutions | scripts/importar_async_pokemons.py:281-287 | phase 2 yields one result per id, naming that id, and results and store are those the reference `Phase2` gives; an id whose lookup fails is an error; otherwise it is skipped exactly when it is not stored; only evolution lists change, by growing |
| Orchestrator.ImportAll | scripts/importar_async_pokemons.py:253-291 | the run stops before any write exactly when the ids cannot be computed; otherwise the counts are those of the reference `Phase1` over the ids to process, phase 2 runs exactly when something was imported, over the imported ids on the store phase 1 left, and its totals are those of the reference `Phase2`; the three counts add up, rows grow by exactly the imported count, phase 2's errors never exceed the imports, and no row is ever removed |

## Left out

- HTTP transport, `get_pokemon_list`, timeouts and JSON decoding are replaced by input replies. The listing is a sequence of URLs, and each fetch attempt receives one reply (a missing reply is a transport error).
- Concurrency (`Semaphore`, `gather`, `to_thread`) is left out. The tasks of each phase run one after another in listing order. Another worker's racing get-or-create appears only as the `ConcurrentConflict` fault on a commit. The committed store does not change between one entity's insert attempts. So the statement that a retry returns `None` only when the id was stored at the start holds under this sequential reading; another worker's commit is visible only through that fault.
- Sleeping is left out. The fetcher's and the insert's waits are returned as values: `attempt` units each, with the insert's `0.01` factor dropped.
- Logging (`print`), `argparse`/`parse_args_and_run`, `create_tables_if_needed` and `main.py` are left out: they carry no importer logic.
- SQLAlchemy is left out. Autoflush is modelled by queries seeing the pending change-set. The three link lists are written to the pending row once, after the three get-or-create loops; no query in between reads them, so this is the same change-set.
- Seqs.Lower: maps only the ASCII letters A-Z. Python's `str.lower()` also lowers other Unicode capitals, and can change the length (`'İ'.lower()` has two characters). Names in the model are compared after this ASCII-only lowering.
- Orchestrator.ParseInt: accepts an optional sign followed by ASCII digits. Python's `int()` also accepts surrounding whitespace, underscores between digits and non-ASCII digits.
- The phase-2 lookup by name (`Pokemon.nome == identifier`) is left out. Phase 2 only receives the integer ids that phase 1 returned.
- Payloads without an `id` are left out. In the script `dados.get("id")` is then `None`, the existence check finds nothing, and the store assigns the id on commit (`models/pokemon.py` declares `id` as the primary key). Phase 1 then reports `("imported", None, [nome])`: the entity is counted as imported but is never linked in phase 2, because line 272 drops results without an id. For the same reason `if imported_ids` can then be false while the imported count is positive. A `Detail` always has an integer id, so in the model every imported result carries its id, and `Orchestrator.ImportAll`'s "phase 2 runs exactly when something was imported" relies on that.
- Payloads without a `name`, or with malformed `types`/`abilities`/`moves` entries, are left out. In the script these raise inside the insert and end as "error". A `Detail` always has a name and plain name lists.
- Store failures other than the ones `Fault` names are not modelled separately. A failing get-or-create query in an insert, or a failing query inside the resolver, raises before anything is committed and ends like a commit that meets `OperationalFailure`: "error", nothing written. The model represents them by that fault.
- Python's `set` iteration order is unspecified, so the script's chain list comes in a hash-dependent order. The model fixes one admissible order: `Seqs.Dedup` keeps first occurrences. `Chain.FetchEvolutionChain` and the resolver's committed store (`Evolution.Relinked`) therefore fix the order of the fetched names and of the newly appended evolution edges. The lemmas about the names and the edges (`Chain.ChainNames`, `Evolution.EdgesSpec`, `Evolution.EdgesCount`) do not depend on that order.
- Malformed chain nodes are left out as such. In the script, a node whose `evolves_to` is missing, not iterable, or a non-empty value that is not a list raises during the walk, and the chain fetch returns `[]`. (An empty dict or empty string iterates zero times at line 89, so the walk goes on past it, like an empty list.) A `ChainNode` always carries a list of children, so such a node can only be written as a node without a species name. That gives the same empty result.
- `pokemon_evolucao not in pokemon_base.evolucoes` compares objects. The session's identity map gives one object per id, so the model compares ids.
- Orchestrator.ImportAll: the phase-2 total `relations_linked` is stated per entity (`Evolution.ProcessPokemonRelations` counts new edges), not as a total over the store.
