/** The orchestration in `import_all_async`: the ids are parsed from the
    listing's URLs and filtered to the requested range; phase 1 imports each
    of them; phase 2 resolves the evolution relations of every id phase 1
    imported; the outcomes are counted per phase. The listing, every HTTP
    reply and every commit fault are inputs. */
module Orchestrator {
  import opened Wrappers
  import opened Seqs
  import opened Store
  import opened DetailFetch
  import opened Chain
  import opened BaseImport
  import opened Evolution

  // ---------------------------------------------------------------------
  // Ids from URLs

  /** `s.rstrip(c)`: `s` without its trailing run of `c`. */
  function RStrip(s: string, c: char): (r: string)
    ensures r <= s
    ensures r == [] || r[|r| - 1] != c
    ensures forall i :: |r| <= i < |s| ==> s[i] == c
    decreases |s|
  {
    if s != [] && s[|s| - 1] == c then RStrip(s[..|s| - 1], c) else s
  }

  /** `s.split("/")[-1]`: what follows the last '/', or all of `s` when it
      has none. */
  function LastSegment(s: string): (r: string)
    ensures '/' !in r
    ensures |r| <= |s| && r == s[|s| - |r|..]
    ensures |r| < |s| ==> s[|s| - |r| - 1] == '/'
    decreases |s|
  {
    if s == [] || s[|s| - 1] == '/' then [] else LastSegment(s[..|s| - 1]) + [s[|s| - 1]]
  }

  predicate IsDigit(c: char) {
    '0' <= c <= '9'
  }

  predicate AllDigits(s: string) {
    forall i :: 0 <= i < |s| ==> IsDigit(s[i])
  }

  /** The value of a string of decimal digits. */
  function DigitsValue(s: string): nat
    requires AllDigits(s)
    decreases |s|
  {
    if s == [] then 0 else DigitsValue(s[..|s| - 1]) * 10 + (s[|s| - 1] as int - '0' as int)
  }

  /** Python's `int(s)` on a decimal literal: an optional sign followed by one
      or more digits; anything else raises, which is `None`. */
  function ParseInt(s: string): (r: Option<int>)
    // a number ends in a digit, and only a leading minus makes it negative
    ensures r.Some? ==> s != [] && IsDigit(s[|s| - 1])
    ensures r.Some? && r.value < 0 ==> s[0] == '-'
    // an unsigned literal is read as its decimal value
    ensures s != [] && AllDigits(s) ==> r == Some(DigitsValue(s))
  {
    if s == [] then None
    else
      var digits := if s[0] == '-' || s[0] == '+' then s[1..] else s;
      if digits != [] && AllDigits(digits) then
        var v: int := DigitsValue(digits);
        Some(if s[0] == '-' then -v else v)
      else None
  }

  /** The id a listing URL names: its last path segment once the trailing
      slashes are removed, read as a decimal integer. */
  function ParseId(url: string): (r: Option<int>)
    // an id is read only from a URL whose last character other than a
    // trailing slash is a digit
    ensures r.Some? ==> var s := RStrip(url, '/'); s != [] && IsDigit(s[|s| - 1])
  {
    ParseInt(LastSegment(RStrip(url, '/')))
  }

  /** The decimal representation of `n`, without leading zeros. */
  function ShowNat(n: nat): (r: string)
    ensures r != [] && AllDigits(r) && '/' !in r
    decreases n
  {
    var d := ['0' + (n % 10) as char];
    if n < 10 then d else ShowNat(n / 10) + d
  }

  lemma {:induction false} DigitsValueShow(n: nat)
    ensures DigitsValue(ShowNat(n)) == n
    decreases n
  {
    if n >= 10 {
      DigitsValueShow(n / 10);
      var s := ShowNat(n);
      assert s[..|s| - 1] == ShowNat(n / 10);
    }
  }

  /** `int(str(n))` is `n`. */
  lemma ParseIntShow(n: nat)
    ensures ParseInt(ShowNat(n)) == Some(n)
  {
    var s := ShowNat(n);
    DigitsValueShow(n);
    assert IsDigit(s[0]);
  }

  /** Stripping trailing slashes undoes appending them to a string that does
      not end in one. */
  lemma {:induction false} RStripSlashes(s: string, slashes: string)
    requires s != [] && s[|s| - 1] != '/'
    requires forall i :: 0 <= i < |slashes| ==> slashes[i] == '/'
    ensures RStrip(s + slashes, '/') == s
    decreases |slashes|
  {
    if slashes != [] {
      var init := slashes[..|slashes| - 1];
      assert (s + slashes)[..|s + slashes| - 1] == s + init;
      RStripSlashes(s, init);
    }
  }

  /** The last segment of `prefix + "/" + seg` is `seg` when `seg` holds no
      slash. */
  lemma {:induction false} LastSegmentAfterSlash(prefix: string, seg: string)
    requires '/' !in seg
    ensures LastSegment(prefix + "/" + seg) == seg
    decreases |seg|
  {
    var s := prefix + "/" + seg;
    if seg == [] {
      assert s[|s| - 1] == '/';
    } else {
      var init := seg[..|seg| - 1];
      assert s[..|s| - 1] == prefix + "/" + init;
      LastSegmentAfterSlash(prefix, init);
      assert seg == init + [seg[|seg| - 1]];
    }
  }

  /** The id of a resource URL `prefix/<n>` followed by any number of
      slashes is `n`. */
  lemma ParseIdRoundTrip(prefix: string, n: nat, slashes: string)
    requires forall i :: 0 <= i < |slashes| ==> slashes[i] == '/'
    ensures ParseId(prefix + "/" + ShowNat(n) + slashes) == Some(n)
  {
    var seg := ShowNat(n);
    var body := prefix + "/" + seg;
    assert body[|body| - 1] == seg[|seg| - 1];
    RStripSlashes(body, slashes);
    LastSegmentAfterSlash(prefix, seg);
    ParseIntShow(n);
  }

  /** A URL whose last segment, after the trailing slashes, is not a number
      stops the run: the model's `int()` rejects it. */
  lemma ParseIdRejects(prefix: string, seg: string)
    requires '/' !in seg && seg != [] && seg[|seg| - 1] != '/'
    requires !IsDigit(seg[|seg| - 1])
    ensures ParseId(prefix + "/" + seg) == None
  {
    var s := prefix + "/" + seg;
    assert s[|s| - 1] == seg[|seg| - 1];
    assert RStrip(s, '/') == s;
    LastSegmentAfterSlash(prefix, seg);
  }

  /** A list comprehension whose element expression may raise: every
      element converted by `f`, or `None` when one conversion fails. */
  function MapAll<A, B>(xs: seq<A>, f: A -> Option<B>): Option<seq<B>>
    decreases |xs|
  {
    if xs == [] then Some([])
    else
      var init := MapAll(xs[..|xs| - 1], f);
      var last := f(xs[|xs| - 1]);
      if init.Some? && last.Some? then Some(init.value + [last.value]) else None
  }

  /** The comprehension succeeds exactly when every conversion does, and then
      holds the converted elements in order. */
  lemma {:induction false} MapAllSpec<A, B>(xs: seq<A>, f: A -> Option<B>)
    ensures MapAll(xs, f).Some? <==> forall i :: 0 <= i < |xs| ==> f(xs[i]).Some?
    ensures MapAll(xs, f).Some? ==>
      && |MapAll(xs, f).value| == |xs|
      && (forall i :: 0 <= i < |xs| ==> f(xs[i]) == Some(MapAll(xs, f).value[i]))
    decreases |xs|
  {
    if xs != [] {
      var init := xs[..|xs| - 1];
      var prev := MapAll(init, f);
      var last := f(xs[|xs| - 1]);
      MapAllSpec(init, f);
      if prev.Some? && last.Some? {
        var ys := prev.value + [last.value];
        forall i | 0 <= i < |xs| ensures f(xs[i]) == Some(ys[i]) {
          if i < |init| {
            assert xs[i] == init[i];
          }
        }
      } else if prev.None? {
        var j :| 0 <= j < |init| && f(init[j]).None?;
        assert xs[j] == init[j];
      }
    }
  }

  /** The list comprehension over the listing: every URL's id, or `None` when
      one of them does not parse (the exception ends the run). The ids are
      parsed exactly when every URL parses, and then they are the URLs' ids
      in listing order. */
  function ParseIds(urls: seq<string>): (r: Option<seq<int>>)
    ensures r.Some? <==> forall i :: 0 <= i < |urls| ==> ParseId(urls[i]).Some?
    ensures r.Some? ==>
      && |r.value| == |urls|
      && (forall i :: 0 <= i < |urls| ==> ParseId(urls[i]) == Some(r.value[i]))
  {
    MapAllSpec(urls, ParseId);
    MapAll(urls, ParseId)
  }

  /** `max(ids)` of a non-empty list. */
  function MaxOf(ids: seq<int>): (r: int)
    requires ids != []
    ensures r in ids && forall x :: x in ids ==> x <= r
    decreases |ids|
  {
    if |ids| == 1 then ids[0]
    else
      var m := MaxOf(ids[..|ids| - 1]);
      assert forall x :: x in ids[..|ids| - 1] ==> x in ids;
      assert forall x :: x in ids ==> x in ids[..|ids| - 1] || x == ids[|ids| - 1];
      if ids[|ids| - 1] > m then ids[|ids| - 1] else m
  }

  /** The ids between `lo` and `hi` inclusive, in listing order: every id in
      the range, as often as it occurs, and nothing else. */
  function FilterRange(ids: seq<int>, lo: int, hi: int): (r: seq<int>)
    ensures forall x :: multiset(r)[x] == if lo <= x <= hi then multiset(ids)[x] else 0
    decreases |ids|
  {
    if ids == [] then []
    else
      var init := ids[..|ids| - 1];
      var x := ids[|ids| - 1];
      assert ids == init + [x];
      if lo <= x <= hi then FilterRange(init, lo, hi) + [x] else FilterRange(init, lo, hi)
  }

  /** The filter keeps the listing order: filtering a concatenation is the
      concatenation of the filtered parts. */
  lemma {:induction false} FilterRangeAppend(a: seq<int>, b: seq<int>, lo: int, hi: int)
    ensures FilterRange(a + b, lo, hi) == FilterRange(a, lo, hi) + FilterRange(b, lo, hi)
    decreases |b|
  {
    if b == [] {
      assert a + b == a;
    } else {
      var init := b[..|b| - 1];
      var x := b[|b| - 1];
      assert a + b == (a + init) + [x];
      assert (a + b)[..|a + b| - 1] == a + init && (a + b)[|a + b| - 1] == x;
      FilterRangeAppend(a, init, lo, hi);
    }
  }

  /** The ids the run processes: the parsed ids from `start` to `end`, where a
      missing `end` is the largest id listed; `None` when an id does not parse
      or when `end` is missing and the listing is empty (`max` raises). */
  function IdsToProcess(urls: seq<string>, start: int, end: Option<int>): (r: Option<seq<int>>)
    ensures r.Some? ==> forall x :: x in r.value ==> start <= x && (end.Some? ==> x <= end.value)
  {
    var ids := ParseIds(urls);
    if ids.None? || (end.None? && ids.value == []) then None
    else
      var hi := if end.Some? then end.value else MaxOf(ids.value);
      var kept := FilterRange(ids.value, start, hi);
      assert forall x :: x in kept ==> multiset(kept)[x] > 0;
      Some(kept)
  }

  /** The run goes ahead exactly when every URL parses and there is an upper
      bound; it then keeps the listed ids at or above `start` and at or below
      `end` (without `end`: every listed id at or above `start`), in listing
      order and with their multiplicity. */
  lemma IdsToProcessSpec(urls: seq<string>, start: int, end: Option<int>)
    ensures var r := IdsToProcess(urls, start, end);
      && (r.None? <==> ParseIds(urls).None? || (end.None? && urls == []))
      && (r.Some? ==>
            forall x :: multiset(r.value)[x] ==
              if start <= x && (end.Some? ==> x <= end.value) then multiset(ParseIds(urls).value)[x] else 0)
  {
    var ids := ParseIds(urls);
    if ids.Some? && end.None? && ids.value != [] {
      var m := MaxOf(ids.value);
      forall x | multiset(ids.value)[x] > 0 ensures x <= m {
        assert x in ids.value;
      }
    }
  }

  // ---------------------------------------------------------------------
  // Counting

  /** How many phase-1 results have status `s`. */
  function CountStatus(results: seq<BaseResult>, s: Status): (r: nat)
    ensures r <= |results|
    decreases |results|
  {
    if results == [] then 0
    else CountStatus(results[..|results| - 1], s) + (if results[|results| - 1].status == s then 1 else 0)
  }

  /** Every phase-1 result is exactly one of imported, skipped and error, so
      the three counts add up to the number processed. */
  lemma {:induction false} StatusPartition(results: seq<BaseResult>)
    ensures CountStatus(results, StatusImported) + CountStatus(results, StatusSkipped)
      + CountStatus(results, StatusError) == |results|
    decreases |results|
  {
    if results != [] {
      StatusPartition(results[..|results| - 1]);
    }
  }

  /** The ids phase 2 runs over: the id of every imported phase-1 result
      that carries one, in result order. */
  function ImportedIds(results: seq<BaseResult>): (r: seq<int>)
    ensures |r| <= CountStatus(results, StatusImported)
    decreases |results|
  {
    if results == [] then []
    else
      var last := results[|results| - 1];
      ImportedIds(results[..|results| - 1])
        + (if last.status == StatusImported && last.id.Some? then [last.id.value] else [])
  }

  /** Phase 2 runs over exactly the ids of the imported results, one per
      imported result that carries its id. */
  lemma {:induction false} ImportedIdsSpec(results: seq<BaseResult>)
    ensures forall x :: x in ImportedIds(results) <==>
      exists i :: 0 <= i < |results| && results[i].status == StatusImported && results[i].id == Some(x)
    ensures (forall i :: 0 <= i < |results| && results[i].status == StatusImported ==> results[i].id.Some?) ==>
      |ImportedIds(results)| == CountStatus(results, StatusImported)
    decreases |results|
  {
    if results != [] {
      var init := results[..|results| - 1];
      ImportedIdsSpec(init);
      forall x | x in ImportedIds(results)
        ensures exists i :: 0 <= i < |results| && results[i].status == StatusImported && results[i].id == Some(x)
      {
        if x in ImportedIds(init) {
          var i :| 0 <= i < |init| && init[i].status == StatusImported && init[i].id == Some(x);
          assert results[i] == init[i];
        }
      }
      forall x | exists i :: 0 <= i < |results| && results[i].status == StatusImported && results[i].id == Some(x)
        ensures x in ImportedIds(results)
      {
        var i :| 0 <= i < |results| && results[i].status == StatusImported && results[i].id == Some(x);
        if i < |init| {
          assert init[i] == results[i];
        }
      }
      var last := results[|results| - 1];
      if forall i :: 0 <= i < |results| && results[i].status == StatusImported ==> results[i].id.Some? {
        assert forall i :: 0 <= i < |init| ==> init[i] == results[i];
        assert |ImportedIds(init)| == CountStatus(init, StatusImported);
        assert last.status == StatusImported ==> last.id.Some?;
      }
    }
  }

  /** How many phase-2 results have status `s`. */
  function CountRelStatus(results: seq<RelationsResult>, s: RelStatus): (r: nat)
    ensures r <= |results|
    decreases |results|
  {
    if results == [] then 0
    else CountRelStatus(results[..|results| - 1], s) + (if results[|results| - 1].status == s then 1 else 0)
  }

  /** The total of the edge counts of the processed phase-2 results. */
  function LinkedSum(results: seq<RelationsResult>): (r: nat)
    // only processed results contribute
    ensures CountRelStatus(results, Processed) == 0 ==> r == 0
    decreases |results|
  {
    if results == [] then 0
    else
      var last := results[|results| - 1];
      LinkedSum(results[..|results| - 1]) + (if last.status == Processed then last.count else 0)
  }

  /** One more phase-2 result adds its edge count to the total exactly when
      it was processed. */
  lemma LinkedSumSnoc(rs: seq<RelationsResult>, x: RelationsResult)
    ensures LinkedSum(rs + [x]) == LinkedSum(rs) + (if x.status == Processed then x.count else 0)
  {
    assert (rs + [x])[..|rs|] == rs;
  }

  /** The total over two runs of results is the sum of their totals. */
  lemma {:induction false} LinkedSumAppend(a: seq<RelationsResult>, b: seq<RelationsResult>)
    ensures LinkedSum(a + b) == LinkedSum(a) + LinkedSum(b)
    decreases |b|
  {
    if b == [] {
      assert a + b == a;
    } else {
      var init := b[..|b| - 1];
      var x := b[|b| - 1];
      LinkedSumAppend(a, init);
      assert a + b == (a + init) + [x];
      assert b == init + [x];
      LinkedSumSnoc(a + init, x);
      LinkedSumSnoc(init, x);
    }
  }

  /** A status count never exceeds the number of results, and is that number
      exactly when no result has another status. */
  lemma {:induction false} RelCountBound(results: seq<RelationsResult>, s: RelStatus)
    ensures CountRelStatus(results, s) <= |results|
    ensures CountRelStatus(results, s) == |results| <==> forall i :: 0 <= i < |results| ==> results[i].status == s
    decreases |results|
  {
    if results != [] {
      var init := results[..|results| - 1];
      RelCountBound(init, s);
      if forall i :: 0 <= i < |init| ==> init[i].status == s {
        forall i | 0 <= i < |results| - 1 ensures results[i].status == s {
          assert results[i] == init[i];
        }
      }
      if forall i :: 0 <= i < |results| ==> results[i].status == s {
        forall i | 0 <= i < |init| ensures init[i].status == s {
          assert results[i] == init[i];
        }
      }
    }
  }

  // ---------------------------------------------------------------------
  // The run

  /** Phase 2's totals. */
  datatype RelationsSummary = RelationsSummary(linked: nat, errors: nat)

  /** What the run reports: phase 1's counts, and phase 2's totals when
      phase 2 ran. */
  datatype Summary = Summary(processed: nat, imported: nat, skipped: nat, errors: nat,
                             relations: Option<RelationsSummary>)

  /** The rows only grow: every stored id stays stored. */
  predicate KeysKept(t1: Tables, t2: Tables) {
    forall id :: id in t1.pokemons ==> id in t2.pokemons
  }

  /** Phase 1 as a function of its inputs: the result of each id in turn,
      each on the store the ids before it left, and the final store. */
  function Phase1(t: Tables, ids: seq<int>, details: int -> seq<HttpReply>, insertFaults: int -> seq<Fault>)
    : (p: (seq<BaseResult>, Tables))
    ensures |p.0| == |ids|
    decreases |ids|
  {
    if ids == [] then ([], t)
    else
      var prev := Phase1(t, ids[..|ids| - 1], details, insertFaults);
      var id := ids[|ids| - 1];
      (prev.0 + [BaseStep(prev.1, details(id), insertFaults(id))], AfterBase(prev.1, details(id), insertFaults(id)))
  }

  /** Phase 2 as a function of its inputs, in the same way. */
  function Phase2(t: Tables, ids: seq<int>, species: int -> SpeciesReply, chains: int -> ChainReply,
                  linkFaults: int -> Fault)
    : (p: (seq<RelationsResult>, Tables))
    requires Constraints(t) && EdgesSound(t)
    ensures |p.0| == |ids| && Constraints(p.1) && EdgesSound(p.1) && EdgesGrow(t, p.1)
    decreases |ids|
  {
    if ids == [] then EdgesGrowRefl(t); ([], t)
    else
      var prev := Phase2(t, ids[..|ids| - 1], species, chains, linkFaults);
      var id := ids[|ids| - 1];
      AfterRelStore(prev.1, id, species(id), chains(id), linkFaults(id));
      EdgesGrowTrans(t, prev.1, AfterRel(prev.1, id, species(id), chains(id), linkFaults(id)));
      (prev.0 + [RelStep(prev.1, id, species(id), chains(id), linkFaults(id))],
       AfterRel(prev.1, id, species(id), chains(id), linkFaults(id)))
  }

  /** Phase 1 over one more id of the listing: the results so far and that
      id's result on the store so far. */
  lemma Phase1Prefix(t: Tables, ids: seq<int>, i: int, details: int -> seq<HttpReply>, insertFaults: int -> seq<Fault>)
    requires 0 <= i < |ids|
    ensures var prev := Phase1(t, ids[..i], details, insertFaults);
      Phase1(t, ids[..i + 1], details, insertFaults)
        == (prev.0 + [BaseStep(prev.1, details(ids[i]), insertFaults(ids[i]))],
            AfterBase(prev.1, details(ids[i]), insertFaults(ids[i])))
  {
    assert ids[..i + 1][..i] == ids[..i];
  }

  /** Phase 2 over one more id of the list, in the same way. */
  lemma Phase2Prefix(t: Tables, ids: seq<int>, i: int, species: int -> SpeciesReply, chains: int -> ChainReply,
                     linkFaults: int -> Fault)
    requires Constraints(t) && EdgesSound(t) && 0 <= i < |ids|
    ensures var prev := Phase2(t, ids[..i], species, chains, linkFaults); var x := ids[i];
      Phase2(t, ids[..i + 1], species, chains, linkFaults)
        == (prev.0 + [RelStep(prev.1, x, species(x), chains(x), linkFaults(x))],
            AfterRel(prev.1, x, species(x), chains(x), linkFaults(x)))
  {
    assert ids[..i + 1][..i] == ids[..i];
  }

  /** Phase 1 keeps the store's constraints and its edge invariant, and
      only adds rows. */
  lemma {:induction false} Phase1Store(t: Tables, ids: seq<int>, details: int -> seq<HttpReply>,
                                       insertFaults: int -> seq<Fault>)
    requires Constraints(t) && EdgesSound(t)
    ensures var u := Phase1(t, ids, details, insertFaults).1;
      Constraints(u) && EdgesSound(u) && Grows(t, u)
    decreases |ids|
  {
    if ids != [] {
      var init := ids[..|ids| - 1];
      var id := ids[|ids| - 1];
      Phase1Store(t, init, details, insertFaults);
      AfterBaseStore(Phase1(t, init, details, insertFaults).1, details(id), insertFaults(id));
    }
  }

  /** The bookkeeping of one phase-1 step, on the results alone: a step
      that imports a new id adds it and one row, any other step adds no
      row, and rows already there stay. */
  lemma ImportCountStep(t: Tables, rs: seq<BaseResult>, u: Tables, r: BaseResult, v: Tables)
    requires |u.pokemons.Keys| == |t.pokemons.Keys| + CountStatus(rs, StatusImported)
    requires forall j :: 0 <= j < |rs| && rs[j].status == StatusImported ==> rs[j].id.Some? && rs[j].id.value in u.pokemons
    requires KeysKept(u, v)
    requires r.status == StatusImported ==>
      r.id.Some? && r.id.value !in u.pokemons && v.pokemons.Keys == u.pokemons.Keys + {r.id.value}
    requires r.status != StatusImported ==> v == u
    ensures |v.pokemons.Keys| == |t.pokemons.Keys| + CountStatus(rs + [r], StatusImported)
    ensures forall j :: 0 <= j < |rs + [r]| && (rs + [r])[j].status == StatusImported ==>
      (rs + [r])[j].id.Some? && (rs + [r])[j].id.value in v.pokemons
  {
    assert (rs + [r])[..|rs|] == rs;
    if r.status == StatusImported {
      CardAddNew(u.pokemons.Keys, r.id.value);
    }
    forall j | 0 <= j < |rs + [r]| && (rs + [r])[j].status == StatusImported
      ensures (rs + [r])[j].id.Some? && (rs + [r])[j].id.value in v.pokemons
    {
      if j < |rs| {
        assert (rs + [r])[j] == rs[j];
      }
    }
  }

  /** Every phase-1 import adds one row, with the id its result carries, and
      nothing else adds any. */
  lemma {:induction false} Phase1Results(t: Tables, ids: seq<int>, details: int -> seq<HttpReply>,
                                         insertFaults: int -> seq<Fault>)
    requires Constraints(t) && EdgesSound(t)
    ensures var p := Phase1(t, ids, details, insertFaults);
      && |p.1.pokemons.Keys| == |t.pokemons.Keys| + CountStatus(p.0, StatusImported)
      && (forall j :: 0 <= j < |ids| && p.0[j].status == StatusImported ==>
            p.0[j].id.Some? && p.0[j].id.value in p.1.pokemons)
    decreases |ids|
  {
    if ids != [] {
      var init := ids[..|ids| - 1];
      var id := ids[|ids| - 1];
      Phase1Results(t, init, details, insertFaults);
      Phase1Store(t, init, details, insertFaults);
      var prev := Phase1(t, init, details, insertFaults);
      AfterBaseStore(prev.1, details(id), insertFaults(id));
      ImportCountStep(t, prev.0, prev.1, BaseStep(prev.1, details(id), insertFaults(id)),
                      AfterBase(prev.1, details(id), insertFaults(id)));
    }
  }

  /** Phase 1 run again over the same ids, with the same replies and faults,
      on any store grown from the one the first run left, imports nothing
      and leaves the store as it was. */
  lemma {:induction false} Phase1Rerun(t: Tables, s: Tables, ids: seq<int>, details: int -> seq<HttpReply>,
                                       insertFaults: int -> seq<Fault>)
    requires Constraints(t) && EdgesSound(t) && Constraints(s)
    requires Grows(Phase1(t, ids, details, insertFaults).1, s)
    ensures var p := Phase1(s, ids, details, insertFaults);
      p.1 == s && CountStatus(p.0, StatusImported) == 0
    decreases |ids|
  {
    if ids != [] {
      var init := ids[..|ids| - 1];
      var id := ids[|ids| - 1];
      var prev := Phase1(t, init, details, insertFaults);
      Phase1Store(t, init, details, insertFaults);
      AfterBaseStore(prev.1, details(id), insertFaults(id));
      Phase1Rerun(t, s, init, details, insertFaults);
      BaseStepRerun(prev.1, s, details(id), insertFaults(id));
      var q := Phase1(s, init, details, insertFaults);
      assert (q.0 + [BaseStep(s, details(id), insertFaults(id))])[..|q.0|] == q.0;
    }
  }

  /** Re-running phase 1 right after itself imports nothing and leaves the
      rows as they were. */
  lemma Phase1Idempotent(t: Tables, ids: seq<int>, details: int -> seq<HttpReply>, insertFaults: int -> seq<Fault>)
    requires Constraints(t) && EdgesSound(t)
    ensures var u := Phase1(t, ids, details, insertFaults).1;
      var p := Phase1(u, ids, details, insertFaults);
      p.1 == u && CountStatus(p.0, StatusImported) == 0
  {
    Phase1Store(t, ids, details, insertFaults);
    Phase1Rerun(t, Phase1(t, ids, details, insertFaults).1, ids, details, insertFaults);
  }

  /** How phase 2 reports id `x` in result `r`: under its own id, an error
      when its lookup fails, and otherwise skipped exactly when it is not
      stored in `t`. */
  predicate RelReported(t: Tables, faults: int -> Fault, x: int, r: RelationsResult) {
    && r.id == x
    && (faults(x) == QueryFailure ==> r.status == RelError)
    && (r.status == RelSkipped <==> x !in t.pokemons && faults(x) != QueryFailure)
  }

  /** The bookkeeping of one phase-2 step, on the results alone: the new
      result is reported as its id demands. */
  lemma RelIdsStep(t: Tables, faults: int -> Fault, ids: seq<int>, rs: seq<RelationsResult>, r: RelationsResult)
    requires ids != [] && |rs| == |ids| - 1
    requires forall j :: 0 <= j < |rs| ==> RelReported(t, faults, ids[j], rs[j])
    requires RelReported(t, faults, ids[|ids| - 1], r)
    ensures forall j :: 0 <= j < |ids| ==> RelReported(t, faults, ids[j], (rs + [r])[j])
  {
    forall j | 0 <= j < |ids|
      ensures RelReported(t, faults, ids[j], (rs + [r])[j])
    {
      if j < |rs| {
        assert (rs + [r])[j] == rs[j];
      }
    }
  }

  /** Phase 2 reports every id in order; an id whose lookup fails is an
      error, and otherwise it is skipped exactly when it is not stored when
      phase 2 starts (phase 2 never adds or removes rows). */
  lemma {:induction false} Phase2Results(t: Tables, ids: seq<int>, species: int -> SpeciesReply,
                                         chains: int -> ChainReply, linkFaults: int -> Fault)
    requires Constraints(t) && EdgesSound(t)
    ensures var rs := Phase2(t, ids, species, chains, linkFaults).0;
      forall j :: 0 <= j < |ids| ==> RelReported(t, linkFaults, ids[j], rs[j])
    decreases |ids|
  {
    if ids != [] {
      var init := ids[..|ids| - 1];
      var x := ids[|ids| - 1];
      Phase2Results(t, init, species, chains, linkFaults);
      var prev := Phase2(t, init, species, chains, linkFaults);
      var r := RelStep(prev.1, x, species(x), chains(x), linkFaults(x));
      assert prev.1.pokemons.Keys == t.pokemons.Keys;
      RelIdsStep(t, linkFaults, ids, prev.0, r);
    }
  }

  /** The detail replies of a three-entity listing: ids 1 and 3 answer with
      payloads, id 2 answers 404. */
  function ScenarioDetails(id: int): seq<HttpReply> {
    if id == 1 then [Reply(200, Payload(Detail(1, "bulbasaur", None, None, None, ["grass"], [], [])))]
    else if id == 3 then [Reply(200, Payload(Detail(3, "venusaur", None, None, None, ["grass"], [], [])))]
    else [Reply(404, EmptyObject)]
  }

  function NoFaults(id: int): seq<Fault> {
    []
  }

  function ScenarioEmpty(): Tables {
    Tables(map[], [], [], [])
  }

  /** The store after the import of id 1. */
  function ScenarioAfterFirst(): Tables {
    Inserted(ScenarioEmpty(), Detail(1, "bulbasaur", None, None, None, ["grass"], [], []))
  }

  /** Id 1 is imported into the empty store. */
  lemma ScenarioFirst()
    ensures Phase1(ScenarioEmpty(), [1], ScenarioDetails, NoFaults)
      == ([BaseResult(StatusImported, Some(1), Some(["bulbasaur"]))], ScenarioAfterFirst())
  {
    var t0 := ScenarioEmpty();
    var d1 := Detail(1, "bulbasaur", None, None, None, ["grass"], [], []);
    ScenarioStores();
    ScenarioNamesLower();
    BaseStepImports(t0, d1, ScenarioDetails(1));
    assert [1][..0] == [];
    var p0 := Phase1(t0, [], ScenarioDetails, NoFaults);
    assert p0 == ([], t0);
    assert Phase1(t0, [1], ScenarioDetails, NoFaults)
      == (p0.0 + [BaseStep(p0.1, ScenarioDetails(1), NoFaults(1))], AfterBase(p0.1, ScenarioDetails(1), NoFaults(1)));
    assert NoFaults(1) == [];
    assert BaseStep(t0, ScenarioDetails(1), NoFaults(1)) == BaseResult(StatusImported, Some(1), Some(["bulbasaur"]));
    assert AfterBase(t0, ScenarioDetails(1), NoFaults(1)) == ScenarioAfterFirst();
    assert p0.0 + [BaseResult(StatusImported, Some(1), Some(["bulbasaur"]))]
      == [BaseResult(StatusImported, Some(1), Some(["bulbasaur"]))];
  }

  /** The scenario's names are already lower case. */
  lemma ScenarioNamesLower()
    ensures Lower("bulbasaur") == "bulbasaur" && Lower("venusaur") == "venusaur"
  {
    assert IsLower("bulbasaur") && IsLower("venusaur");
  }

  /** The empty store and the store holding bulbasaur as id 1 both keep the
      constraints. */
  lemma ScenarioStores()
    ensures Constraints(ScenarioEmpty()) && EdgesSound(ScenarioEmpty())
    ensures Constraints(ScenarioAfterFirst()) && EdgesSound(ScenarioAfterFirst())
    ensures ScenarioAfterFirst().pokemons.Keys == {1} && ScenarioAfterFirst().pokemons[1].nome == "bulbasaur"
    ensures !NameTakenByOther(ScenarioAfterFirst(), 3, "venusaur")
  {
    var t0 := ScenarioEmpty();
    var d1 := Detail(1, "bulbasaur", None, None, None, ["grass"], [], []);
    assert Constraints(t0) && EdgesSound(t0);
    ScenarioNamesLower();
    InsertedStore(t0, d1);
    assert "bulbasaur" != "venusaur";
  }

  /** Id 2 is not found and skipped; the store stays as id 1 left it. */
  lemma ScenarioSecond()
    ensures Phase1(ScenarioEmpty(), [1, 2], ScenarioDetails, NoFaults)
      == ([BaseResult(StatusImported, Some(1), Some(["bulbasaur"])), BaseResult(StatusSkipped, None, None)],
          ScenarioAfterFirst())
  {
    var t0 := ScenarioEmpty();
    var r1 := BaseResult(StatusImported, Some(1), Some(["bulbasaur"]));
    var r2 := BaseResult(StatusSkipped, None, None);
    ScenarioFirst();
    BaseStepNotFound(ScenarioAfterFirst(), ScenarioDetails(2), NoFaults(2));
    assert [1, 2][..1] == [1];
    assert Phase1(t0, [1, 2], ScenarioDetails, NoFaults)
      == ([r1] + [BaseStep(ScenarioAfterFirst(), ScenarioDetails(2), NoFaults(2))],
          AfterBase(ScenarioAfterFirst(), ScenarioDetails(2), NoFaults(2)));
    assert [r1] + [r2] == [r1, r2];
  }

  /** On the store id 1 left, the detail of id 3 is imported and stored. */
  lemma ScenarioThirdStep()
    ensures BaseStep(ScenarioAfterFirst(), ScenarioDetails(3), NoFaults(3))
      == BaseResult(StatusImported, Some(3), Some(["venusaur"]))
    ensures AfterBase(ScenarioAfterFirst(), ScenarioDetails(3), NoFaults(3)).pokemons.Keys == {1, 3}
  {
    var t1 := ScenarioAfterFirst();
    var d3 := Detail(3, "venusaur", None, None, None, ["grass"], [], []);
    ScenarioStores();
    ScenarioNamesLower();
    assert NoFaults(3) == [];
    BaseStepImports(t1, d3, ScenarioDetails(3));
    InsertedStore(t1, d3);
  }

  /** Id 3 is imported next to id 1. */
  lemma ScenarioThird()
    ensures var p := Phase1(ScenarioEmpty(), [1, 2, 3], ScenarioDetails, NoFaults);
      && p.0 == [BaseResult(StatusImported, Some(1), Some(["bulbasaur"])),
                 BaseResult(StatusSkipped, None, None),
                 BaseResult(StatusImported, Some(3), Some(["venusaur"]))]
      && p.1.pokemons.Keys == {1, 3}
  {
    var t0 := ScenarioEmpty();
    var t1 := ScenarioAfterFirst();
    var r1 := BaseResult(StatusImported, Some(1), Some(["bulbasaur"]));
    var r2 := BaseResult(StatusSkipped, None, None);
    var r3 := BaseResult(StatusImported, Some(3), Some(["venusaur"]));
    ScenarioSecond();
    ScenarioThirdStep();
    assert [1, 2, 3][..2] == [1, 2];
    assert Phase1(t0, [1, 2, 3], ScenarioDetails, NoFaults)
      == ([r1, r2] + [BaseStep(t1, ScenarioDetails(3), NoFaults(3))], AfterBase(t1, ScenarioDetails(3), NoFaults(3)));
    assert [r1, r2] + [r3] == [r1, r2, r3];
  }

  /** Phase 1 over ids 1, 2 and 3 on an empty store, when the detail of id 2
      is not found: 1 and 3 are imported, 2 is skipped, nothing fails. */
  lemma ScenarioNotFoundSkipped()
    ensures var p := Phase1(ScenarioEmpty(), [1, 2, 3], ScenarioDetails, NoFaults);
      && p.1.pokemons.Keys == {1, 3}
      && CountStatus(p.0, StatusImported) == 2 && CountStatus(p.0, StatusSkipped) == 1
      && CountStatus(p.0, StatusError) == 0
  {
    ScenarioThird();
    var rs := [BaseResult(StatusImported, Some(1), Some(["bulbasaur"])),
               BaseResult(StatusSkipped, None, None),
               BaseResult(StatusImported, Some(3), Some(["venusaur"]))];
    assert rs[..2][..1] == [rs[0]] && rs[..1][..0] == [];
  }

  /** Phase 1: `process_pokemon_base` for each id in turn, each in a fresh
      session. The replies each id's fetch receives and the faults each
      insert's commits meet are inputs. */
  method ImportBase(db: Session, ids: seq<int>, details: int -> seq<HttpReply>, insertFaults: int -> seq<Fault>)
    returns (results: seq<BaseResult>)
    requires db.Valid() && EdgesSound(db.committed) && db.pending == Clean(db.committed)
    modifies db
    ensures db.Valid() && EdgesSound(db.committed) && db.pending == Clean(db.committed)
    ensures |results| == |ids|
    ensures Grows(old(db.committed), db.committed)
    // every import adds one row, nothing else adds any
    ensures |db.committed.pokemons.Keys| == |old(db.committed.pokemons.Keys)| + CountStatus(results, StatusImported)
    ensures forall i :: 0 <= i < |results| && results[i].status == StatusImported ==>
      results[i].id.Some? && results[i].id.value in db.committed.pokemons
    // each id's result comes from its own replies and faults, on the store the
    // ids before it left
    ensures (results, db.committed) == Phase1(old(db.committed), ids, details, insertFaults)
  {
    ghost var t0 := db.committed;
    results := [];
    var i := 0;
    while i < |ids|
      invariant 0 <= i <= |ids|
      invariant db.Valid() && EdgesSound(db.committed) && db.pending == Clean(db.committed)
      invariant (results, db.committed) == Phase1(t0, ids[..i], details, insertFaults)
    {
      Phase1Prefix(t0, ids, i, details, insertFaults);
      var res := ProcessPokemonBase(db, details(ids[i]), insertFaults(ids[i]));
      results := results + [res];
      i := i + 1;
    }
    assert ids[..i] == ids;
    Phase1Store(t0, ids, details, insertFaults);
    Phase1Results(t0, ids, details, insertFaults);
  }

  /** Phase 2: `process_pokemon_relations` for each id in turn, each in a
      fresh session. The species and chain replies for each id and the fault
      each id's lookup and resolver commit meet are inputs. */
  method LinkEvolutions(db: Session, ids: seq<int>, species: int -> SpeciesReply, chains: int -> ChainReply,
                        linkFaults: int -> Fault)
    returns (results: seq<RelationsResult>)
    requires db.Valid() && EdgesSound(db.committed) && db.pending == Clean(db.committed)
    modifies db
    ensures db.Valid() && EdgesSound(db.committed) && db.pending == Clean(db.committed)
    ensures |results| == |ids|
    ensures EdgesGrow(old(db.committed), db.committed)
    // every result names its id; an id whose lookup fails is an error;
    // otherwise an id is skipped exactly when it is not stored
    ensures forall i :: 0 <= i < |results| ==> results[i].id == ids[i]
    ensures forall i :: 0 <= i < |results| ==> (linkFaults(ids[i]) == QueryFailure ==> results[i].status == RelError)
    ensures forall i :: 0 <= i < |results| ==>
      (results[i].status == RelSkipped <==> ids[i] !in old(db.committed.pokemons) && linkFaults(ids[i]) != QueryFailure)
    // each id's result comes from its own replies and fault, on the store the
    // ids before it left
    ensures (results, db.committed) == Phase2(old(db.committed), ids, species, chains, linkFaults)
  {
    ghost var t0 := db.committed;
    results := [];
    var i := 0;
    while i < |ids|
      invariant 0 <= i <= |ids|
      invariant db.Valid() && EdgesSound(db.committed) && db.pending == Clean(db.committed)
      invariant (results, db.committed) == Phase2(t0, ids[..i], species, chains, linkFaults)
    {
      Phase2Prefix(t0, ids, i, species, chains, linkFaults);
      var res, _ := ProcessPokemonRelations(db, ids[i], species(ids[i]), chains(ids[i]), linkFaults(ids[i]));
      results := results + [res];
      i := i + 1;
    }
    assert ids[..i] == ids;
    Phase2Results(t0, ids, species, chains, linkFaults);
  }

  /** `import_all_async(start, end)`: `None` when the listing cannot be turned
      into ids (the run stops with an exception before importing anything). */
  method ImportAll(db: Session, urls: seq<string>, start: int, end: Option<int>,
                   details: int -> seq<HttpReply>, insertFaults: int -> seq<Fault>,
                   species: int -> SpeciesReply, chains: int -> ChainReply, linkFaults: int -> Fault)
    returns (r: Option<Summary>)
    requires db.Valid() && EdgesSound(db.committed) && db.pending == Clean(db.committed)
    modifies db
    ensures db.Valid() && EdgesSound(db.committed) && db.pending == Clean(db.committed)
    ensures r.None? <==> IdsToProcess(urls, start, end).None?
    ensures r.None? ==> db.committed == old(db.committed)
    ensures KeysKept(old(db.committed), db.committed)
    ensures r.Some? ==>
      var s := r.value;
      && s.processed == |IdsToProcess(urls, start, end).value|
      && s.imported + s.skipped + s.errors == s.processed
      // each import added exactly one row
      && |db.committed.pokemons.Keys| == |old(db.committed.pokemons.Keys)| + s.imported
      // phase 2 runs when something was imported, over the imported ids
      && (s.relations.Some? <==> s.imported > 0)
      && (s.relations.Some? ==> s.relations.value.errors <= s.imported)
    // the counts are those of phase 1's results; phase 2 runs over the ids
    // phase 1 imported, on the store phase 1 left, and its totals are those
    // of its results
    ensures r.Some? ==>
      var p1 := Phase1(old(db.committed), IdsToProcess(urls, start, end).value, details, insertFaults);
      var s := r.value;
      && Constraints(p1.1) && EdgesSound(p1.1)
      && s.imported == CountStatus(p1.0, StatusImported)
      && s.skipped == CountStatus(p1.0, StatusSkipped)
      && s.errors == CountStatus(p1.0, StatusError)
      && (s.relations.None? ==> db.committed == p1.1)
      && (s.relations.Some? ==>
            var p2 := Phase2(p1.1, ImportedIds(p1.0), species, chains, linkFaults);
            && s.relations.value == RelationsSummary(LinkedSum(p2.0), CountRelStatus(p2.0, RelError))
            && db.committed == p2.1)
  {
    var ids := IdsToProcess(urls, start, end);
    if ids.None? {
      return None;
    }
    ghost var t0 := db.committed;
    var baseResults := ImportBase(db, ids.value, details, insertFaults);
    var importedIds := ImportedIds(baseResults);
    var processed := |baseResults|;
    var imported := CountStatus(baseResults, StatusImported);
    var skipped := CountStatus(baseResults, StatusSkipped);
    var errors := CountStatus(baseResults, StatusError);
    StatusPartition(baseResults);
    ImportedIdsSpec(baseResults);
    var relations: Option<RelationsSummary> := None;
    if importedIds != [] {
      ghost var t1 := db.committed;
      var relResults := LinkEvolutions(db, importedIds, species, chains, linkFaults);
      RelCountBound(relResults, RelError);
      relations := Some(RelationsSummary(LinkedSum(relResults), CountRelStatus(relResults, RelError)));
      assert db.committed.pokemons.Keys == t1.pokemons.Keys;
    }
    r := Some(Summary(processed, imported, skipped, errors, relations));
  }
}
