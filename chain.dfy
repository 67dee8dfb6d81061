/** The chain fetcher of phase 2: the species reply points at an evolution
    chain; the chain tree is walked depth-first, collecting every node's
    lower-cased species name, and the distinct names are returned. A missing
    chain pointer or any failure (a failed request, a node without a species
    name) yields no names at all. */
module Chain {
  import opened Wrappers
  import opened Seqs

  /** A chain node: its species name (`None` when the node has no usable
      `species.name`) and the nodes that evolve from it. */
  datatype ChainNode = ChainNode(species: Option<string>, evolvesTo: seq<ChainNode>)

  /** The species reply: failed, or the evolution chain URL it names (`""`
      when `evolution_chain.url` is missing, null or empty). */
  datatype SpeciesReply = SpeciesFailed | SpeciesOk(chainUrl: string)

  /** The chain reply: failed (including a body without `chain`), or the root. */
  datatype ChainReply = ChainFailed | ChainOk(root: ChainNode)

  /** Every node of the tree carries a species name. */
  predicate WellFormed(n: ChainNode)
    decreases n
  {
    n.species.Some? && forall i :: 0 <= i < |n.evolvesTo| ==> WellFormed(n.evolvesTo[i])
  }

  /** Name `x` is the lower-cased species name of some node of the tree. */
  ghost predicate Occurs(x: string, n: ChainNode)
    decreases n
  {
    (n.species.Some? && x == Lower(n.species.value))
    || exists i :: 0 <= i < |n.evolvesTo| && Occurs(x, n.evolvesTo[i])
  }

  /** The names the recursive walk appends, node first, then each subtree
      in order. */
  function Preorder(n: ChainNode): seq<string>
    requires WellFormed(n)
    decreases n, 1
  {
    [Lower(n.species.value)] + PreorderAll(n.evolvesTo)
  }

  function PreorderAll(ns: seq<ChainNode>): seq<string>
    requires forall i :: 0 <= i < |ns| ==> WellFormed(ns[i])
    decreases ns, 0
  {
    if ns == [] then [] else PreorderAll(ns[..|ns| - 1]) + Preorder(ns[|ns| - 1])
  }

  /** Name `x` occurs in one of the trees `ns`. */
  ghost predicate OccursIn(x: string, ns: seq<ChainNode>) {
    exists i :: 0 <= i < |ns| && Occurs(x, ns[i])
  }

  lemma OccursInSnoc(x: string, init: seq<ChainNode>, last: ChainNode)
    ensures OccursIn(x, init + [last]) <==> OccursIn(x, init) || Occurs(x, last)
  {
    var ns := init + [last];
    if OccursIn(x, init) {
      var i :| 0 <= i < |init| && Occurs(x, init[i]);
      assert ns[i] == init[i];
    }
    if Occurs(x, last) {
      assert ns[|init|] == last;
    }
    if OccursIn(x, ns) {
      var i :| 0 <= i < |ns| && Occurs(x, ns[i]);
      if i < |init| {
        assert init[i] == ns[i];
      }
    }
  }

  /** The walk collects exactly the names that occur in the tree. */
  lemma {:induction false} PreorderNames(n: ChainNode, x: string)
    requires WellFormed(n)
    ensures x in Preorder(n) <==> Occurs(x, n)
    decreases n, 1
  {
    PreorderAllNames(n.evolvesTo, x);
  }

  lemma {:induction false} PreorderAllNames(ns: seq<ChainNode>, x: string)
    requires forall i :: 0 <= i < |ns| ==> WellFormed(ns[i])
    ensures x in PreorderAll(ns) <==> OccursIn(x, ns)
    decreases ns, 0
  {
    if ns != [] {
      var init := ns[..|ns| - 1];
      var last := ns[|ns| - 1];
      assert ns == init + [last];
      PreorderAllNames(init, x);
      PreorderNames(last, x);
      OccursInSnoc(x, init, last);
    }
  }

  /** `extract_chain(node, names)`: appends the walk's names to `names`; a
      node without a species name raises, which is returned as `None`. */
  method ExtractChain(node: ChainNode, names: seq<string>) returns (r: Option<seq<string>>)
    ensures WellFormed(node) ==> r == Some(names + Preorder(node))
    ensures !WellFormed(node) ==> r == None
    decreases node
  {
    if node.species.None? {
      return None;
    }
    var acc := names + [Lower(node.species.value)];
    var i := 0;
    while i < |node.evolvesTo|
      invariant 0 <= i <= |node.evolvesTo|
      invariant forall j :: 0 <= j < i ==> WellFormed(node.evolvesTo[j])
      invariant acc == names + [Lower(node.species.value)] + PreorderAll(node.evolvesTo[..i])
    {
      var child := node.evolvesTo[i];
      var sub := ExtractChain(child, acc);
      if sub.None? {
        return None;
      }
      assert node.evolvesTo[..i + 1][..i] == node.evolvesTo[..i];
      acc := sub.value;
      i := i + 1;
    }
    assert node.evolvesTo[..i] == node.evolvesTo;
    assert acc == names + Preorder(node);
    r := Some(acc);
  }

  /** The chain fetch succeeded and `x` names one of its members. */
  ghost predicate ChainMember(species: SpeciesReply, chain: ChainReply, x: string) {
    && species.SpeciesOk? && species.chainUrl != ""
    && chain.ChainOk? && WellFormed(chain.root) && Occurs(x, chain.root)
  }

  /** The names `fetch_evolution_chain` returns for these replies: the
      distinct names of the walk, in first-seen order, or none when anything
      fails. They are exactly the chain's members, each once. */
  function ChainNames(species: SpeciesReply, chain: ChainReply): (names: seq<string>)
    ensures NoDup(names)
    ensures forall x :: x in names <==> ChainMember(species, chain, x)
  {
    if species.SpeciesFailed? || species.chainUrl == "" || chain.ChainFailed? || !WellFormed(chain.root) then []
    else
      assert forall x :: x in Preorder(chain.root) <==> ChainMember(species, chain, x) by {
        forall x ensures x in Preorder(chain.root) <==> ChainMember(species, chain, x) {
          PreorderNames(chain.root, x);
        }
      }
      Dedup(Preorder(chain.root))
  }

  /** `fetch_evolution_chain(client, species_id)`, with the two replies as
      inputs (the chain reply is used only when the species names a chain). */
  method FetchEvolutionChain(species: SpeciesReply, chain: ChainReply) returns (names: seq<string>)
    ensures names == ChainNames(species, chain)
  {
    if species.SpeciesFailed? || species.chainUrl == "" || chain.ChainFailed? {
      return [];
    }
    var all := ExtractChain(chain.root, []);
    if all.None? {
      return [];
    }
    assert all.value == Preorder(chain.root);
    names := Dedup(all.value);
  }
}
