/** Sequence and string helpers shared by the importer model: duplicate-free
    sequences, "append each item unless already present", and `str.lower()`. */
module Seqs {

  /** No element occurs twice. */
  predicate NoDup<T(==)>(s: seq<T>) {
    forall i, j :: 0 <= i < j < |s| ==> s[i] != s[j]
  }

  /** Appending an element that is not present keeps a sequence
      duplicate-free. */
  lemma NoDupSnoc<T>(s: seq<T>, x: T)
    requires NoDup(s) && x !in s
    ensures NoDup(s + [x])
  {
    var s' := s + [x];
    forall i, j | 0 <= i < j < |s'| ensures s'[i] != s'[j] {
      if j < |s| {
        assert s'[i] == s[i] && s'[j] == s[j];
      } else {
        assert s'[i] in s;
      }
    }
  }

  /** `rows` after appending each of `items` that is not present yet, in
      order: what a sequence of get-or-create calls leaves in a table. */
  function AddNames<T(==)>(rows: seq<T>, items: seq<T>): (r: seq<T>)
    ensures |rows| <= |r| <= |rows| + |items|
    decreases |items|
  {
    if items == [] then rows
    else
      var prev := AddNames(rows, items[..|items| - 1]);
      var x := items[|items| - 1];
      if x in prev then prev else prev + [x]
  }

  /** One more item: it is added unless already present. */
  lemma AddNamesSnoc<T>(rows: seq<T>, items: seq<T>, x: T)
    ensures AddNames(rows, items + [x]) ==
      var seen := AddNames(rows, items);
      if x in seen then seen else seen + [x]
  {
    assert (items + [x])[..|items|] == items;
  }

  /** The same step, for a prefix of a longer list. */
  lemma AddNamesStep<T>(rows: seq<T>, items: seq<T>, i: int)
    requires 0 <= i < |items|
    ensures AddNames(rows, items[..i + 1]) ==
      var seen := AddNames(rows, items[..i]);
      if items[i] in seen then seen else seen + [items[i]]
  {
    assert items[..i + 1] == items[..i] + [items[i]];
    AddNamesSnoc(rows, items[..i], items[i]);
  }

  /** Get-or-creating names keeps the old rows as a prefix, ends up holding
      exactly the old rows and the items, and never duplicates a row. */
  lemma {:induction false} AddNamesSpec<T>(rows: seq<T>, items: seq<T>)
    ensures rows <= AddNames(rows, items)
    ensures forall x :: x in AddNames(rows, items) <==> x in rows || x in items
    ensures NoDup(rows) ==> NoDup(AddNames(rows, items))
    decreases |items|
  {
    if items != [] {
      var init := items[..|items| - 1];
      var prev := AddNames(rows, init);
      var x := items[|items| - 1];
      AddNamesSpec(rows, init);
      assert items == init + [x];
      if x !in prev && NoDup(rows) {
        NoDupSnoc(prev, x);
      }
    }
  }

  /** Python's `list(set(s))`: the distinct elements of `s`. The order of a
      Python set is unspecified; this one keeps first occurrences. */
  function Dedup<T(==,!new)>(s: seq<T>): (r: seq<T>)
    ensures NoDup(r)
    ensures forall x :: x in r <==> x in s
  {
    AddNamesSpec([], s);
    AddNames([], s)
  }

  /** A duplicate-free sequence has as many elements as its set. */
  lemma {:induction false} NoDupCard<T>(s: seq<T>)
    requires NoDup(s)
    ensures |set x | x in s| == |s|
  {
    if s != [] {
      var init := s[..|s| - 1];
      var last := s[|s| - 1];
      assert s == init + [last];
      assert NoDup(init);
      NoDupCard(init);
      assert last !in init;
      assert (set x | x in s) == (set x | x in init) + {last};
    }
  }

  /** The elements appended to a duplicate-free sequence after its prefix
      `pre` are as many as the elements of it not in `pre`. */
  lemma SuffixCard<T>(pre: seq<T>, s: seq<T>)
    requires pre <= s && NoDup(s)
    ensures |s| - |pre| == |(set x | x in s) - (set x | x in pre)|
  {
    var added := s[|pre|..];
    assert s == pre + added;
    assert NoDup(added) by {
      forall i, j | 0 <= i < j < |added| ensures added[i] != added[j] {
        assert added[i] == s[|pre| + i] && added[j] == s[|pre| + j];
      }
    }
    NoDupCard(added);
    forall x | x in added ensures x !in pre {
      var i :| 0 <= i < |added| && added[i] == x;
      assert s[|pre| + i] == x;
      forall j | 0 <= j < |pre| ensures pre[j] != x {
        assert s[j] == pre[j];
      }
    }
    assert (set x | x in added) == (set x | x in s) - (set x | x in pre);
  }

  /** Adding a new element to a finite set adds one to its size. */
  lemma CardAddNew<T>(s: set<T>, x: T)
    requires x !in s
    ensures |s + {x}| == |s| + 1
  {
  }

  function LowerChar(c: char): char {
    if 'A' <= c <= 'Z' then (c as int + 32) as char else c
  }

  /** No ASCII upper-case letter occurs in `s`. */
  predicate IsLower(s: string) {
    forall i :: 0 <= i < |s| ==> !('A' <= s[i] <= 'Z')
  }

  /** Python's `str.lower()` on the ASCII letters. */
  function Lower(s: string): (r: string)
    ensures |r| == |s| && IsLower(r)
    ensures IsLower(s) ==> r == s
  {
    seq(|s|, i requires 0 <= i < |s| => LowerChar(s[i]))
  }
}
