/** The local relational store as the importer uses it: entity rows keyed by
    id with list relationships to three lookup tables (types, abilities,
    moves) and to other entities (evolutions), plus a session that collects
    pending writes which commit applies and rollback discards. */
module Store {
  import opened Wrappers
  import opened Seqs

  /** The three lookup tables that entities link to by unique name. */
  datatype LookupKind = Tipo | Habilidade | Movimento

  /** One entity row with the list relationships the importer fills in. */
  datatype Pokemon = Pokemon(
    nome: string,
    altura: Option<int>,
    peso: Option<int>,
    sprite: Option<string>,
    tipos: seq<string>,
    habilidades: seq<string>,
    movimentos: seq<string>,
    evolucoes: seq<int>)

  /** The lookup rows an entity links to, named by their unique names. */
  function Links(p: Pokemon, k: LookupKind): seq<string> {
    match k
    case Tipo => p.tipos
    case Habilidade => p.habilidades
    case Movimento => p.movimentos
  }

  /** Committed contents: entity rows by id, and each lookup table as the
      names of its rows in insertion order. */
  datatype Tables = Tables(
    pokemons: map<int, Pokemon>,
    tipos: seq<string>,
    habilidades: seq<string>,
    movimentos: seq<string>)

  function Rows(t: Tables, k: LookupKind): seq<string> {
    match k
    case Tipo => t.tipos
    case Habilidade => t.habilidades
    case Movimento => t.movimentos
  }

  /** Every lookup name an entity links to is a row of that table. */
  predicate LinksResolve(t: Tables, k: LookupKind) {
    forall id :: id in t.pokemons ==>
      forall n :: n in Links(t.pokemons[id], k) ==> n in Rows(t, k)
  }

  /** The schema's constraints: unique names in every table, and links and
      evolution edges that point at existing rows. */
  predicate Constraints(t: Tables) {
    && NoDup(t.tipos) && NoDup(t.habilidades) && NoDup(t.movimentos)
    && (forall a, b :: a in t.pokemons && b in t.pokemons && a != b ==>
          t.pokemons[a].nome != t.pokemons[b].nome)
    && LinksResolve(t, Tipo) && LinksResolve(t, Habilidade) && LinksResolve(t, Movimento)
    && (forall id :: id in t.pokemons ==>
          forall e :: e in t.pokemons[id].evolucoes ==> e in t.pokemons)
  }

  /** Some stored entity other than `id` already has the name `n`. */
  predicate NameTakenByOther(t: Tables, id: int, n: string) {
    exists o :: o in t.pokemons && o != id && t.pokemons[o].nome == n
  }

  /** Evolution edges never loop on their own entity and never repeat. */
  predicate EdgesSound(t: Tables) {
    forall id :: id in t.pokemons ==>
      id !in t.pokemons[id].evolucoes && NoDup(t.pokemons[id].evolucoes)
  }

  /** `t2` only adds to `t1`: every stored entity row is kept as it was and
      every lookup table keeps its rows as a prefix. */
  predicate Grows(t1: Tables, t2: Tables) {
    && (forall id :: id in t1.pokemons ==> id in t2.pokemons && t2.pokemons[id] == t1.pokemons[id])
    && t1.tipos <= t2.tipos && t1.habilidades <= t2.habilidades && t1.movimentos <= t2.movimentos
  }

  /** A name taken in a store stays taken in every store it grows into. */
  lemma NameTakenGrows(t1: Tables, t2: Tables, id: int, n: string)
    requires Grows(t1, t2) && NameTakenByOther(t1, id, n)
    ensures NameTakenByOther(t2, id, n)
  {
    var o :| o in t1.pokemons && o != id && t1.pokemons[o].nome == n;
    assert o in t2.pokemons && t2.pokemons[o].nome == n;
  }

  /** A session's uncommitted state: the ids it inserted, the entity rows it
      wrote (new or changed), and each lookup table as the session sees it
      (the committed rows followed by the rows it created). */
  datatype ChangeSet = ChangeSet(
    inserted: set<int>,
    dirty: map<int, Pokemon>,
    tipos: seq<string>,
    habilidades: seq<string>,
    movimentos: seq<string>)

  /** Nothing pending on top of `t`. */
  function Clean(t: Tables): ChangeSet {
    ChangeSet({}, map[], t.tipos, t.habilidades, t.movimentos)
  }

  /** Table `k` as the session sees it. */
  function SeenRows(c: ChangeSet, k: LookupKind): seq<string> {
    match k
    case Tipo => c.tipos
    case Habilidade => c.habilidades
    case Movimento => c.movimentos
  }

  /** The store seen through a change-set: what commit writes, and what
      queries inside the same session see (pending rows are flushed before
      a query). */
  function Apply(c: ChangeSet, t: Tables): (r: Tables)
    ensures r.pokemons.Keys == t.pokemons.Keys + c.dirty.Keys
    ensures forall id :: id in c.dirty ==> r.pokemons[id] == c.dirty[id]
    ensures forall id :: id in t.pokemons && id !in c.dirty ==> r.pokemons[id] == t.pokemons[id]
    ensures forall k :: Rows(r, k) == SeenRows(c, k)
  {
    Tables(t.pokemons + c.dirty, c.tipos, c.habilidades, c.movimentos)
  }

  /** With nothing pending, the session sees the committed store. */
  lemma ApplyClean(t: Tables)
    ensures Apply(Clean(t), t) == t
  {
    assert t.pokemons + map[] == t.pokemons;
  }

  /** Commit raises an integrity error when the change-set inserts an id that
      is already stored or would leave a constraint violated. */
  predicate Violates(c: ChangeSet, t: Tables) {
    (exists id :: id in c.inserted && id in t.pokemons) || !Constraints(Apply(c, t))
  }

  /** What the database or a concurrent writer does to one unit of work (an
      insert attempt, or one entity's relinking): nothing, a uniqueness
      conflict at commit caused by another worker's insert, a failure at
      commit that is not an integrity error, or a failure of the lookup by id
      that opens the unit of work, before anything is written. */
  datatype Fault = NoFault | ConcurrentConflict | OperationalFailure | QueryFailure

  datatype CommitOutcome = Committed | IntegrityError | OperationalError

  /** The outcome of committing `c` on `t` under `fault`. A store whose
      queries fail refuses the commit as well. */
  function CommitResult(c: ChangeSet, t: Tables, fault: Fault): CommitOutcome {
    if fault == OperationalFailure || fault == QueryFailure then OperationalError
    else if fault == ConcurrentConflict || Violates(c, t) then IntegrityError
    else Committed
  }

  /** Position of `x` in `s`, if any. */
  function IndexOf<T(==)>(s: seq<T>, x: T): (r: Option<nat>)
    ensures r.Some? ==> r.value < |s| && s[r.value] == x
    ensures r.None? ==> x !in s
  {
    if s == [] then None
    else if s[0] == x then Some(0)
    else match IndexOf(s[1..], x)
      case None => None
      case Some(i) => Some(i + 1)
  }

  /** A database session: the committed store and what is pending in this
      session. */
  class Session {
    var committed: Tables
    var pending: ChangeSet

    ghost predicate Valid()
      reads this
    {
      Constraints(committed)
    }

    /** What queries in this session see. */
    function View(): Tables
      reads this
    {
      Apply(pending, committed)
    }

    constructor (db: Tables)
      requires Constraints(db)
      ensures Valid() && committed == db && pending == Clean(db)
    {
      committed := db;
      pending := Clean(db);
    }

    /** The session's lookup of an entity by id: the row it sees, pending
        writes included, or `None`. */
    method Get(id: int) returns (r: Option<Pokemon>)
      ensures r.Some? <==> id in View().pokemons
      ensures r.Some? ==> r.value == View().pokemons[id]
    {
      var view := View();
      if id in view.pokemons {
        r := Some(view.pokemons[id]);
      } else {
        r := None;
      }
    }

    /** Get-or-create on a lookup table (`get_or_create_tipo`,
        `get_or_create_habilidade`, `get_or_create_movimento`): the row named
        `nome` if the session sees one, otherwise a new pending row with that
        name, appended to the table. */
    method GetOrCreate(k: LookupKind, nome: string) returns (row: nat)
      modifies this
      ensures committed == old(committed)
      ensures pending.inserted == old(pending.inserted) && pending.dirty == old(pending.dirty)
      ensures forall k' :: k' != k ==> SeenRows(pending, k') == old(SeenRows(pending, k'))
      ensures SeenRows(pending, k) ==
        if nome in old(SeenRows(pending, k)) then old(SeenRows(pending, k))
        else old(SeenRows(pending, k)) + [nome]
      ensures row < |SeenRows(pending, k)| && SeenRows(pending, k)[row] == nome
    {
      var rows := SeenRows(pending, k);
      var found := IndexOf(rows, nome);
      if found.Some? {
        row := found.value;
      } else {
        match k {
          case Tipo => pending := pending.(tipos := rows + [nome]);
          case Habilidade => pending := pending.(habilidades := rows + [nome]);
          case Movimento => pending := pending.(movimentos := rows + [nome]);
        }
        row := |rows|;
      }
    }

    /** The name of row `row` of lookup table `k` (`t.nome`). */
    function RowName(k: LookupKind, row: nat): string
      requires row < |SeenRows(pending, k)|
      reads this
    {
      SeenRows(pending, k)[row]
    }

    /** `db.add(p)`: a new entity row, pending. */
    method Add(id: int, p: Pokemon)
      modifies this
      ensures committed == old(committed)
      ensures pending == old(pending).(inserted := old(pending.inserted) + {id},
                                       dirty := old(pending.dirty)[id := p])
    {
      pending := pending.(inserted := pending.inserted + {id}, dirty := pending.dirty[id := p]);
    }

    /** Replaces the pending row `id` (the session tracks the object, so
        changes to it are written with the next flush). */
    method Update(id: int, p: Pokemon)
      requires id in pending.dirty
      modifies this
      ensures committed == old(committed)
      ensures pending == old(pending).(dirty := old(pending.dirty)[id := p])
    {
      pending := pending.(dirty := pending.dirty[id := p]);
    }

    /** Appends `target` to entity `id`'s evolution list. */
    method AppendEvolution(id: int, target: int)
      requires id in View().pokemons
      modifies this
      ensures committed == old(committed)
      ensures pending == old(pending).(dirty := old(pending.dirty)[id :=
        old(View().pokemons[id]).(evolucoes := old(View().pokemons[id].evolucoes) + [target])])
    {
      var p := View().pokemons[id];
      pending := pending.(dirty := pending.dirty[id := p.(evolucoes := p.evolucoes + [target])]);
    }

    /** Commit: on success the session's writes become the committed store;
        on failure nothing is written and they stay pending until rollback. */
    method Commit(fault: Fault) returns (outcome: CommitOutcome)
      requires Valid()
      modifies this
      ensures Valid()
      ensures outcome == CommitResult(old(pending), old(committed), fault)
      ensures outcome == Committed ==>
        committed == Apply(old(pending), old(committed)) && pending == Clean(committed)
      ensures outcome != Committed ==> committed == old(committed) && pending == old(pending)
    {
      if fault == OperationalFailure || fault == QueryFailure {
        outcome := OperationalError;
      } else if fault == ConcurrentConflict || Violates(pending, committed) {
        outcome := IntegrityError;
      } else {
        committed := Apply(pending, committed);
        pending := Clean(committed);
        outcome := Committed;
      }
    }

    /** Rollback (and close): what is pending is discarded. */
    method Rollback()
      modifies this
      ensures committed == old(committed) && pending == Clean(committed)
    {
      pending := Clean(committed);
    }
  }
}
