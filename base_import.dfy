/** Phase 1's base importer: `insert_base_pokemon_sync` writes one entity and
    its links to the get-or-created type, ability and move rows in a single
    transaction, skips ids already stored, and rolls back and retries on an
    integrity error; `process_pokemon_base` classifies the outcome. */
module BaseImport {
  import opened Wrappers
  import opened Seqs
  import opened Store
  import opened DetailFetch

  /** The entity row a payload yields, before any link is appended. */
  function NewRow(d: Detail): Pokemon {
    Pokemon(Lower(d.name), d.height, d.weight, d.sprite, [], [], [], [])
  }

  /** The payload's names for lookup table `k`, in payload order. */
  function PayloadNames(d: Detail, k: LookupKind): seq<string> {
    match k
    case Tipo => d.types
    case Habilidade => d.abilities
    case Movimento => d.moves
  }

  /** What one insert attempt leaves pending on committed store `t`: the new
      row linked to every payload name, and each table after get-or-creating
      the payload's names in order. */
  function InsertChangeSet(d: Detail, t: Tables): ChangeSet {
    ChangeSet({d.id},
              map[d.id := NewRow(d).(tipos := d.types, habilidades := d.abilities, movimentos := d.moves)],
              AddNames(t.tipos, d.types), AddNames(t.habilidades, d.abilities), AddNames(t.movimentos, d.moves))
  }

  /** The store after a successful insert of `d` into `t`. */
  function Inserted(t: Tables, d: Detail): Tables {
    Apply(InsertChangeSet(d, t), t)
  }

  /** How an insert attempt's commit ends when the store is `t`. */
  function AttemptOutcome(d: Detail, t: Tables, fault: Fault): CommitOutcome {
    CommitResult(InsertChangeSet(d, t), t, fault)
  }

  /** The fault attempt `a + 1` meets; attempts past the given ones meet none. */
  function FaultAt(faults: seq<Fault>, a: nat): Fault {
    if a < |faults| then faults[a] else NoFault
  }

  /** The tables of an inserted store: each one the old table followed by
      the payload names it lacked, duplicate-free when the old one was. */
  lemma InsertedRows(t: Tables, d: Detail, k: LookupKind)
    ensures var u := Inserted(t, d);
      && Rows(t, k) <= Rows(u, k)
      && (forall n :: n in Rows(u, k) <==> n in Rows(t, k) || n in PayloadNames(d, k))
      && (NoDup(Rows(t, k)) ==> NoDup(Rows(u, k)))
  {
    AddNamesSpec(Rows(t, k), PayloadNames(d, k));
    assert Rows(Inserted(t, d), k) == AddNames(Rows(t, k), PayloadNames(d, k));
  }

  /** The commit of a new entity is refused exactly when another stored
      entity already has its lower-cased name: the lookup rows it creates are
      new and unique, and every link and the new id resolve. */
  lemma InsertConflictIff(t: Tables, d: Detail)
    requires Constraints(t) && d.id !in t.pokemons
    ensures Violates(InsertChangeSet(d, t), t) <==> NameTakenByOther(t, d.id, Lower(d.name))
  {
    var c := InsertChangeSet(d, t);
    var u := Inserted(t, d);
    assert !(exists id :: id in c.inserted && id in t.pokemons);
    forall k | true
      ensures NoDup(Rows(u, k)) && LinksResolve(u, k)
    {
      InsertedRows(t, d, k);
      forall id | id in u.pokemons
        ensures forall n :: n in Links(u.pokemons[id], k) ==> n in Rows(u, k)
      {
        if id == d.id {
          assert Links(u.pokemons[id], k) == PayloadNames(d, k);
        } else {
          assert u.pokemons[id] == t.pokemons[id];
        }
      }
    }
    assert LinksResolve(u, Tipo) && LinksResolve(u, Habilidade) && LinksResolve(u, Movimento);
    if NameTakenByOther(t, d.id, Lower(d.name)) {
      var o :| o in t.pokemons && o != d.id && t.pokemons[o].nome == Lower(d.name);
      assert u.pokemons[o].nome == u.pokemons[d.id].nome;
    } else {
      forall a, b | a in u.pokemons && b in u.pokemons && a != b
        ensures u.pokemons[a].nome != u.pokemons[b].nome
      {
        if a == d.id {
          assert !(b in t.pokemons && b != d.id && t.pokemons[b].nome == Lower(d.name));
        } else if b == d.id {
          assert !(a in t.pokemons && a != d.id && t.pokemons[a].nome == Lower(d.name));
        }
      }
      assert Constraints(u);
    }
  }

  /** A successful insert adds the one entity, with the given id, its
      lower-cased name and links to every type, ability and move name of the
      payload in payload order; every such name is a row of its table
      afterwards, exactly once; nothing stored before changes. */
  lemma InsertedStore(t: Tables, d: Detail)
    requires Constraints(t) && EdgesSound(t) && d.id !in t.pokemons
    requires !NameTakenByOther(t, d.id, Lower(d.name))
    ensures var u := Inserted(t, d);
      && Constraints(u) && EdgesSound(u) && Grows(t, u)
      && u.pokemons.Keys == t.pokemons.Keys + {d.id}
      && u.pokemons[d.id].nome == Lower(d.name)
      && (forall k :: Links(u.pokemons[d.id], k) == PayloadNames(d, k))
      && (forall k, n :: n in PayloadNames(d, k) ==> n in Rows(u, k))
      && (forall k, n :: n in Rows(u, k) ==> n in Rows(t, k) || n in PayloadNames(d, k))
  {
    InsertConflictIff(t, d);
    forall k | true
      ensures var u := Inserted(t, d);
        && Rows(t, k) <= Rows(u, k)
        && (forall n :: n in Rows(u, k) <==> n in Rows(t, k) || n in PayloadNames(d, k))
    {
      InsertedRows(t, d, k);
    }
    var u := Inserted(t, d);
    assert Rows(t, Tipo) <= Rows(u, Tipo) && Rows(t, Habilidade) <= Rows(u, Habilidade)
        && Rows(t, Movimento) <= Rows(u, Movimento);
  }

  /** Two imports whose payloads share the type "fire": the type table gets
      one "fire" row, created by the first import and reused by the second,
      and both entities link to it. */
  lemma ScenarioSharedType()
    ensures var d1 := Detail(4, "Charmander", None, None, None, ["fire"], [], []);
      var d2 := Detail(6, "Charizard", None, None, None, ["fire", "flying"], [], []);
      var u := Inserted(Inserted(Tables(map[], [], [], []), d1), d2);
      && u.tipos == ["fire", "flying"]
      && u.pokemons[4].tipos == ["fire"] && u.pokemons[6].tipos == ["fire", "flying"]
      && u.pokemons[4].nome == "charmander"
  {
    var names := ["fire", "flying"];
    assert names[..1] == ["fire"] && ["fire"][..0] == [];
    assert AddNames([], ["fire"]) == ["fire"];
    assert AddNames(["fire"], ["fire"]) == ["fire"];
    assert AddNames(["fire"], names) == names;
    assert Lower("Charmander") == "charmander";
  }

  /** The loop over one payload list: get-or-creates each name in table `k`
      and returns the names of the rows to append to the new entity's list,
      in order. */
  method LinkAll(db: Session, k: LookupKind, names: seq<string>) returns (linked: seq<string>)
    modifies db
    ensures db.committed == old(db.committed)
    ensures db.pending.inserted == old(db.pending.inserted) && db.pending.dirty == old(db.pending.dirty)
    ensures forall k' :: k' != k ==> SeenRows(db.pending, k') == old(SeenRows(db.pending, k'))
    ensures SeenRows(db.pending, k) == AddNames(old(SeenRows(db.pending, k)), names)
    ensures linked == names
  {
    ghost var rows0 := SeenRows(db.pending, k);
    linked := [];
    var i := 0;
    while i < |names|
      invariant 0 <= i <= |names|
      invariant db.committed == old(db.committed)
      invariant db.pending.inserted == old(db.pending.inserted) && db.pending.dirty == old(db.pending.dirty)
      invariant forall k' :: k' != k ==> SeenRows(db.pending, k') == old(SeenRows(db.pending, k'))
      invariant SeenRows(db.pending, k) == AddNames(rows0, names[..i])
      invariant linked == names[..i]
    {
      AddNamesStep(rows0, names, i);
      var row := db.GetOrCreate(k, names[i]);
      var name := db.RowName(k, row);
      linked := linked + [name];
      assert linked == names[..i + 1];
      i := i + 1;
    }
    assert names[..i] == names;
  }

  /** One attempt up to its commit: the existence check, then the new row
      and its three link loops. Reports whether the id is already stored, in
      which case nothing is staged. */
  method StageInsert(db: Session, d: Detail) returns (stored: bool)
    requires db.pending == Clean(db.committed)
    modifies db
    ensures db.committed == old(db.committed)
    ensures stored <==> d.id in db.committed.pokemons
    ensures stored ==> db.pending == old(db.pending)
    ensures !stored ==> db.pending == InsertChangeSet(d, db.committed)
  {
    var existing := db.Get(d.id);
    if existing.Some? {
      return true;
    }
    var novo := NewRow(d);
    db.Add(d.id, novo);
    var tipos := LinkAll(db, Tipo, d.types);
    var habilidades := LinkAll(db, Habilidade, d.abilities);
    var movimentos := LinkAll(db, Movimento, d.moves);
    novo := novo.(tipos := tipos, habilidades := habilidades, movimentos := movimentos);
    db.Update(d.id, novo);
    stored := false;
  }

  datatype DbError = IntegrityErr | OtherErr

  /** The result of `insert_base_pokemon_sync`: `(id, nome, types_list)`,
      `None`, or a raised exception. */
  datatype InsertOutcome = Imported(id: int, nome: string, types: seq<string>) | ReturnedNone | Raised(error: DbError)

  /** `insert_base_pokemon_sync(db, dados, max_retries)`, with the fault each
      attempt's commit meets as input. Also returns the delays chosen after
      each conflicting attempt (in hundredths of a second). */
  method InsertBasePokemon(db: Session, d: Detail, maxRetries: int, faults: seq<Fault>)
    returns (r: InsertOutcome, delays: seq<nat>)
    requires db.Valid() && db.pending == Clean(db.committed)
    modifies db
    ensures db.Valid() && db.pending == Clean(db.committed)
    // an id already stored, or no attempt at all: `None`, the store untouched
    ensures maxRetries < 1 || (d.id in old(db.committed.pokemons) && FaultAt(faults, 0) != QueryFailure) ==>
      r == ReturnedNone && db.committed == old(db.committed) && delays == []
    ensures r.ReturnedNone? ==> d.id in old(db.committed.pokemons) || maxRetries < 1
    // a failing lookup at the first attempt re-raises at once, stored id or not
    ensures maxRetries >= 1 && FaultAt(faults, 0) == QueryFailure ==>
      r == Raised(OtherErr) && db.committed == old(db.committed) && delays == []
    // every attempt before the last one ended in an integrity error, was
    // rolled back and was followed by a delay of `attempt` units
    ensures LinearBackoff(delays) && |delays| < (if maxRetries < 1 then 1 else maxRetries)
    ensures forall a :: 0 <= a < |delays| ==>
      AttemptOutcome(d, old(db.committed), FaultAt(faults, a)) == IntegrityError
    // success: the entity and its links are committed
    ensures r.Imported? ==>
      && r == Imported(d.id, Lower(d.name), d.types)
      && db.committed == Inserted(old(db.committed), d)
      && AttemptOutcome(d, old(db.committed), FaultAt(faults, |delays|)) == Committed
    // failure: the store is as it was before the call
    ensures !r.Imported? ==> db.committed == old(db.committed)
    // integrity errors on every attempt: the last one re-raises
    ensures r == Raised(IntegrityErr) ==>
      |delays| == maxRetries - 1 && AttemptOutcome(d, old(db.committed), FaultAt(faults, |delays|)) == IntegrityError
    // any other error (a failing lookup, or a commit failure that is not an
    // integrity error) re-raises at once
    ensures r == Raised(OtherErr) ==>
      FaultAt(faults, |delays|) == QueryFailure
      || AttemptOutcome(d, old(db.committed), FaultAt(faults, |delays|)) == OperationalError
    // the outcome is the reference one
    ensures r == InsertResult(d, old(db.committed), maxRetries, faults)
  {
    ghost var t := db.committed;
    var pokeId := d.id;
    var nome := Lower(d.name);
    delays := [];
    var attempt := 1;
    while attempt <= maxRetries
      invariant 1 <= attempt <= (if maxRetries < 1 then 1 else maxRetries)
      invariant db.committed == t && db.pending == Clean(t) && db.Valid()
      invariant |delays| == attempt - 1 && LinearBackoff(delays)
      invariant forall a :: 0 <= a < |delays| ==> AttemptOutcome(d, t, FaultAt(faults, a)) == IntegrityError
      invariant attempt > 1 ==> pokeId !in t.pokemons
      invariant attempt > 1 ==> InsertResult(d, t, maxRetries, faults) == InsertFrom(d, t, faults, attempt - 1, maxRetries)
    {
      if FaultAt(faults, attempt - 1) == QueryFailure {
        db.Rollback();
        return Raised(OtherErr), delays;
      }
      var stored := StageInsert(db, d);
      if stored {
        return ReturnedNone, delays;
      }
      var outcome := db.Commit(FaultAt(faults, attempt - 1));
      match outcome
      case Committed =>
        var typesList := db.committed.pokemons[pokeId].tipos;
        return Imported(pokeId, nome, typesList), delays;
      case IntegrityError =>
        db.Rollback();
        if attempt < maxRetries {
          delays := delays + [attempt];
          attempt := attempt + 1;
        } else {
          return Raised(IntegrityErr), delays;
        }
      case OperationalError =>
        db.Rollback();
        return Raised(OtherErr), delays;
    }
    r := ReturnedNone;
  }

  /** The insert's outcome from attempt `a + 1` on, the store being `t` at
      every attempt (a failed attempt is rolled back) and `d.id` not stored
      in it: a failing lookup or an operational error at commit re-raises at
      once, a commit imports, an integrity error is retried until the
      attempts run out and then re-raised. */
  function InsertFrom(d: Detail, t: Tables, faults: seq<Fault>, a: nat, maxRetries: int): (r: InsertOutcome)
    requires a < maxRetries
    ensures r != ReturnedNone
    ensures r.Imported? ==> r == Imported(d.id, Lower(d.name), d.types)
    decreases maxRetries - a
  {
    if FaultAt(faults, a) == QueryFailure then Raised(OtherErr)
    else match AttemptOutcome(d, t, FaultAt(faults, a))
    case Committed => Imported(d.id, Lower(d.name), d.types)
    case OperationalError => Raised(OtherErr)
    case IntegrityError =>
      if a + 1 < maxRetries then InsertFrom(d, t, faults, a + 1, maxRetries) else Raised(IntegrityErr)
  }

  /** What `insert_base_pokemon_sync` returns on store `t`: the lookup of
      the first attempt decides between a stored id (`None`), a raised
      lookup failure and the attempts that insert. */
  function InsertResult(d: Detail, t: Tables, maxRetries: int, faults: seq<Fault>): InsertOutcome {
    if maxRetries < 1 then ReturnedNone
    else if FaultAt(faults, 0) == QueryFailure then Raised(OtherErr)
    else if d.id in t.pokemons then ReturnedNone
    else InsertFrom(d, t, faults, 0, maxRetries)
  }

  /** Only a change-set that breaks no constraint is ever committed. */
  lemma {:induction false} InsertFromCommitted(d: Detail, t: Tables, faults: seq<Fault>, a: nat, maxRetries: int)
    requires a < maxRetries && InsertFrom(d, t, faults, a, maxRetries).Imported?
    ensures !Violates(InsertChangeSet(d, t), t)
    decreases maxRetries - a
  {
    if AttemptOutcome(d, t, FaultAt(faults, a)) == IntegrityError {
      InsertFromCommitted(d, t, faults, a + 1, maxRetries);
    }
  }

  /** Without interference from the database or other workers, a new
      entity is imported at the first attempt unless another entity already
      has its name, in which case every attempt fails and the last error is
      re-raised. */
  lemma {:induction false} InsertFromUnfaulted(d: Detail, t: Tables, a: nat, maxRetries: int)
    requires Constraints(t) && d.id !in t.pokemons && a < maxRetries
    ensures InsertFrom(d, t, [], a, maxRetries) ==
      if NameTakenByOther(t, d.id, Lower(d.name)) then Raised(IntegrityErr) else Imported(d.id, Lower(d.name), d.types)
    decreases maxRetries - a
  {
    InsertConflictIff(t, d);
    if NameTakenByOther(t, d.id, Lower(d.name)) && a + 1 < maxRetries {
      InsertFromUnfaulted(d, t, a + 1, maxRetries);
    }
  }

  lemma InsertResultUnfaulted(d: Detail, t: Tables, maxRetries: int)
    requires Constraints(t) && maxRetries >= 1
    ensures InsertResult(d, t, maxRetries, []) ==
      if d.id in t.pokemons then ReturnedNone
      else if NameTakenByOther(t, d.id, Lower(d.name)) then Raised(IntegrityErr)
      else Imported(d.id, Lower(d.name), d.types)
  {
    if d.id !in t.pokemons {
      InsertFromUnfaulted(d, t, 0, maxRetries);
    }
  }

  /** Phase-1 outcome of one identifier. */
  datatype Status = StatusImported | StatusSkipped | StatusError

  /** `(status, id, [nome])` as `process_pokemon_base` returns it. */
  datatype BaseResult = BaseResult(status: Status, id: Option<int>, names: Option<seq<string>>)

  /** The classification in `process_pokemon_base`: a new row is "imported"
      with its id and name; a 404, exhausted retries, an empty payload or an
      id already stored is "skipped"; an exception from the fetch or the
      insert is "error". `ins` is the insert's outcome, present exactly when
      a payload was fetched. */
  function ClassifyBase(f: Fetched, ins: Option<InsertOutcome>): (r: BaseResult)
    requires f.Found? <==> ins.Some?
    ensures r.status == StatusImported <==> ins.Some? && ins.value.Imported?
    ensures r.status == StatusError <==> f.DecodeRaised? || (ins.Some? && ins.value.Raised?)
    ensures r.status == StatusImported ==> r.id == Some(ins.value.id) && r.names == Some([ins.value.nome])
    ensures r.status == StatusSkipped ==> r.names.None? && (f.Found? ==> r.id == Some(f.detail.id))
    ensures r.status == StatusSkipped && !f.Found? ==> r.id.None?
    ensures r.status == StatusError ==> r.id.None? && r.names.None?
  {
    match f
    case NoneReturned => BaseResult(StatusSkipped, None, None)
    case FoundEmpty => BaseResult(StatusSkipped, None, None)
    case DecodeRaised => BaseResult(StatusError, None, None)
    case Found(d) =>
      match ins.value
      case ReturnedNone => BaseResult(StatusSkipped, Some(d.id), None)
      case Imported(id, nome, _) => BaseResult(StatusImported, Some(id), Some([nome]))
      case Raised(_) => BaseResult(StatusError, None, None)
  }

  /** The insert outcome that accompanies fetch result `f` on store `t`:
      there is one exactly when a payload was fetched. */
  function InsertFor(f: Fetched, t: Tables, faults: seq<Fault>): (ins: Option<InsertOutcome>)
    ensures f.Found? <==> ins.Some?
  {
    if f.Found? then Some(InsertResult(f.detail, t, MAX_RETRIES, faults)) else None
  }

  /** Phase-1 result of one identifier whose GETs receive `replies` and
      whose insert commits meet `faults`, on store `t`. */
  function BaseStep(t: Tables, replies: seq<HttpReply>, faults: seq<Fault>): BaseResult {
    var f := FetchResult(replies, MAX_RETRIES);
    ClassifyBase(f, InsertFor(f, t, faults))
  }

  /** The store after that identifier: the payload inserted when it was
      imported, otherwise unchanged. */
  function AfterBase(t: Tables, replies: seq<HttpReply>, faults: seq<Fault>): Tables {
    var f := FetchResult(replies, MAX_RETRIES);
    if BaseStep(t, replies, faults).status == StatusImported then Inserted(t, f.detail) else t
  }

  /** One identifier's phase-1 step keeps the store's constraints and its
      edge invariant, and only ever adds rows. */
  lemma AfterBaseStore(t: Tables, replies: seq<HttpReply>, faults: seq<Fault>)
    requires Constraints(t) && EdgesSound(t)
    ensures var u := AfterBase(t, replies, faults);
      Constraints(u) && EdgesSound(u) && Grows(t, u)
    // an import adds exactly its new id; anything else leaves the store as it was
    ensures var r := BaseStep(t, replies, faults); var u := AfterBase(t, replies, faults);
      && (r.status == StatusImported ==>
            r.id.Some? && r.id.value !in t.pokemons && u.pokemons.Keys == t.pokemons.Keys + {r.id.value})
      && (r.status != StatusImported ==> u == t)
  {
    var f := FetchResult(replies, MAX_RETRIES);
    if BaseStep(t, replies, faults).status == StatusImported {
      InsertFromCommitted(f.detail, t, faults, 0, MAX_RETRIES);
      InsertConflictIff(t, f.detail);
      InsertedStore(t, f.detail);
    }
  }

  /** A 404 on the first GET: the identifier is skipped without a retry and
      the store is left as it was. */
  lemma BaseStepNotFound(t: Tables, replies: seq<HttpReply>, faults: seq<Fault>)
    requires replies != [] && replies[0].Reply? && replies[0].status == 404
    ensures BaseStep(t, replies, faults) == BaseResult(StatusSkipped, None, None)
    ensures AfterBase(t, replies, faults) == t
  {
    assert FetchResult(replies, MAX_RETRIES) == NoneReturned;
  }

  /** A payload on the first GET, no interference at commit, a new id and a
      name no other entity has: the entity is imported at once. */
  lemma BaseStepImports(t: Tables, d: Detail, replies: seq<HttpReply>)
    requires replies != [] && replies[0] == Reply(200, Payload(d))
    requires Constraints(t) && d.id !in t.pokemons && !NameTakenByOther(t, d.id, Lower(d.name))
    ensures BaseStep(t, replies, []) == BaseResult(StatusImported, Some(d.id), Some([Lower(d.name)]))
    ensures AfterBase(t, replies, []) == Inserted(t, d)
  {
    assert FetchResult(replies, MAX_RETRIES) == Found(d);
    InsertResultUnfaulted(d, t, MAX_RETRIES);
  }

  /** A failing lookup at the first insert attempt: the identifier is an
      error whether or not it is stored, and nothing is written. */
  lemma BaseStepLookupFails(t: Tables, d: Detail, replies: seq<HttpReply>, faults: seq<Fault>)
    requires replies != [] && replies[0] == Reply(200, Payload(d))
    requires faults != [] && faults[0] == QueryFailure
    ensures BaseStep(t, replies, faults) == BaseResult(StatusError, None, None)
    ensures AfterBase(t, replies, faults) == t
  {
    assert FetchResult(replies, MAX_RETRIES) == Found(d);
  }

  /** An insert that did not import on a store does not import on any store
      that store grows into, under the same commit faults: a name taken then
      is still taken, and the faults are the same. */
  lemma {:induction false} InsertFromGrows(d: Detail, t1: Tables, t2: Tables, faults: seq<Fault>, a: nat,
                                           maxRetries: int)
    requires a < maxRetries && Constraints(t1) && Constraints(t2) && Grows(t1, t2) && d.id !in t2.pokemons
    requires !InsertFrom(d, t1, faults, a, maxRetries).Imported?
    ensures !InsertFrom(d, t2, faults, a, maxRetries).Imported?
    decreases maxRetries - a
  {
    var fault := FaultAt(faults, a);
    InsertConflictIff(t1, d);
    InsertConflictIff(t2, d);
    if NameTakenByOther(t1, d.id, Lower(d.name)) {
      NameTakenGrows(t1, t2, d.id, Lower(d.name));
    }
    if AttemptOutcome(d, t1, fault) == IntegrityError && a + 1 < maxRetries {
      InsertFromGrows(d, t1, t2, faults, a + 1, maxRetries);
    }
  }

  /** Running an identifier's phase-1 step again, on any store grown from
      the one its first run left, with the same replies and faults, imports
      nothing and changes nothing: the id it imported is stored, and an
      insert that failed fails again. */
  lemma BaseStepRerun(u: Tables, s: Tables, replies: seq<HttpReply>, faults: seq<Fault>)
    requires Constraints(u) && EdgesSound(u) && Constraints(s)
    requires Grows(AfterBase(u, replies, faults), s)
    ensures BaseStep(s, replies, faults).status != StatusImported
    ensures AfterBase(s, replies, faults) == s
  {
    var f := FetchResult(replies, MAX_RETRIES);
    AfterBaseStore(u, replies, faults);
    if f.Found? && f.detail.id !in s.pokemons && BaseStep(u, replies, faults).status != StatusImported {
      InsertFromGrows(f.detail, u, s, faults, 0, MAX_RETRIES);
    }
  }

  /** `process_pokemon_base(client, identifier, semaphore)` with a fresh
      session: fetch the detail, insert it, classify, close the session. */
  method ProcessPokemonBase(db: Session, replies: seq<HttpReply>, faults: seq<Fault>) returns (r: BaseResult)
    requires db.Valid() && db.pending == Clean(db.committed) && EdgesSound(db.committed)
    modifies db
    ensures db.Valid() && db.pending == Clean(db.committed) && EdgesSound(db.committed)
    ensures Grows(old(db.committed), db.committed)
    ensures r.status != StatusImported ==> db.committed == old(db.committed)
    ensures r.status == StatusImported ==>
      && r.id.Some? && r.id.value !in old(db.committed.pokemons)
      && db.committed.pokemons.Keys == old(db.committed.pokemons).Keys + {r.id.value}
    // the result and the new store are the ones the replies and faults determine
    ensures r == BaseStep(old(db.committed), replies, faults)
    ensures db.committed == AfterBase(old(db.committed), replies, faults)
  {
    var fetched, _, _ := FetchPokemonDetail(replies, MAX_RETRIES);
    if fetched.Found? {
      ghost var t := db.committed;
      var ins, _ := InsertBasePokemon(db, fetched.detail, MAX_RETRIES, faults);
      if ins.Imported? {
        InsertConflictIff(t, fetched.detail);
        InsertedStore(t, fetched.detail);
      }
      r := ClassifyBase(fetched, Some(ins));
    } else {
      r := ClassifyBase(fetched, None);
    }
    db.Rollback();
  }
}
