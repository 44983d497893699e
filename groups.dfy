/** `_identify_parallel_groups`: the nodes of each level are split, greedily,
    into groups of nodes no two of which are joined by a path in either
    direction. Groups are numbered by one counter across all levels; a group's
    number is its index in the list returned here. The source iterates a
    Python set of the level's nodes; the model iterates them in the order
    they were levelled. */
module ParallelGroups {
  import opened Digraph
  import opened Seqs

  // ---------------------------------------------------------------- buckets

  /** The nodes of `levels.items()`, in order. */
  function Names(items: seq<(string, nat)>): (r: seq<string>)
    ensures |r| == |items| && forall i | 0 <= i < |items| :: r[i] == items[i].0
  {
    seq(|items|, i requires 0 <= i < |items| => items[i].0)
  }

  /** The items of a map along a list of its keys. */
  function ItemsOf(order: seq<string>, lv: map<string, nat>): (r: seq<(string, nat)>)
    requires forall n | n in order :: n in lv
    ensures Names(r) == order
    ensures forall x, l :: (x, l) in r <==> x in order && lv[x] == l
  {
    var r := seq(|order|, i requires 0 <= i < |order| => (order[i], lv[order[i]]));
    assert forall x, l | (x, l) in r :: exists i | 0 <= i < |order| :: r[i] == (x, l);
    r
  }

  /** The nodes at level `l`, in the order of `items`: the list
      `level_nodes[l]`. */
  function OfLevel(items: seq<(string, nat)>, l: nat): (r: seq<string>)
    ensures forall x | x in r :: (x, l) in items
    ensures (forall it | it in items :: it.1 != l) ==> r == []
  {
    if |items| == 0 then []
    else
      var it := items[|items| - 1];
      var r := OfLevel(items[..|items| - 1], l);
      assert forall x | x in r :: (x, l) in items[..|items| - 1];
      if it.1 == l then r + [it.0] else r
  }

  /** The bucket of `l` holds exactly the nodes at level `l`, each once. */
  lemma {:induction false} OfLevelIff(items: seq<(string, nat)>, l: nat)
    ensures forall x :: x in OfLevel(items, l) <==> (x, l) in items
    ensures Distinct(Names(items)) ==> Distinct(OfLevel(items, l))
  {
    if |items| > 0 {
      var pre := items[..|items| - 1];
      var it := items[|items| - 1];
      OfLevelIff(pre, l);
      assert items == pre + [it];
      assert Names(items) == Names(pre) + [it.0];
      if Distinct(Names(items)) {
        assert it.0 !in Names(pre) && Distinct(Names(pre));
        forall x | (x, l) in pre ensures x in Names(pre) {
          var i :| 0 <= i < |pre| && pre[i] == (x, l);
          assert Names(pre)[i] == x;
        }
      }
    }
  }

  /** The keys of `level_nodes`, in the order the levels first appear. */
  function SeenLevels(items: seq<(string, nat)>): (r: seq<nat>) {
    if |items| == 0 then []
    else
      var it := items[|items| - 1];
      var r := SeenLevels(items[..|items| - 1]);
      if it.1 in r then r else r + [it.1]
  }

  /** The keys are the levels that occur, each once. */
  lemma {:induction false} SeenLevelsIff(items: seq<(string, nat)>)
    ensures forall l :: l in SeenLevels(items) <==> exists x :: (x, l) in items
    ensures Distinct(SeenLevels(items))
  {
    if |items| > 0 {
      var pre := items[..|items| - 1];
      var it := items[|items| - 1];
      SeenLevelsIff(pre);
      assert items == pre + [it];
      assert it in items;
    }
  }

  // ---------------------------------------------------------------- splitting one level

  /** Neither of `u` and `v` reaches the other. */
  predicate Unrelated(sub: Graph, u: string, v: string)
    requires Valid(sub) && u in sub.nodes && v in sub.nodes
  {
    !HasPath(sub, u, v) && !HasPath(sub, v, u)
  }

  predicate Independent(sub: Graph, n: string, group: seq<string>)
    requires Valid(sub) && n in sub.nodes && forall x | x in group :: x in sub.nodes
  {
    forall x | x in group :: Unrelated(sub, n, x)
  }

  /** No two nodes of `group` are related by a path. */
  predicate PairwiseUnrelated(sub: Graph, group: seq<string>)
    requires Valid(sub) && forall x | x in group :: x in sub.nodes
  {
    forall i, j | 0 <= i < j < |group| :: Unrelated(sub, group[i], group[j])
  }

  /** One pass of the `while remaining_nodes` loop: the group formed by
      taking, in turn, each remaining node unrelated to every node
      already taken. */
  function Round(sub: Graph, rem: seq<string>): (r: seq<string>)
    requires Valid(sub) && forall x | x in rem :: x in sub.nodes
    ensures forall x | x in r :: x in rem
    ensures |rem| > 0 ==> rem[0] in r
    ensures PairwiseUnrelated(sub, r)
    ensures Distinct(rem) ==> Distinct(r)
  {
    if |rem| == 0 then []
    else
      var pre := rem[..|rem| - 1];
      var n := rem[|rem| - 1];
      var g := Round(sub, pre);
      assert |pre| > 0 ==> pre[0] == rem[0];
      if Independent(sub, n, g) then
        assert forall i | 0 <= i < |g| :: g[i] in g;
        g + [n]
      else g
  }

  /** A remaining node left out of the round is related to a node taken
      before it. */
  lemma {:induction false} RoundMaximal(sub: Graph, rem: seq<string>, k: nat)
    requires Valid(sub) && (forall x | x in rem :: x in sub.nodes) && k < |rem|
    requires rem[k] !in Round(sub, rem)
    ensures exists x | x in Round(sub, rem[..k]) :: !Unrelated(sub, rem[k], x)
  {
    var pre := rem[..|rem| - 1];
    if k < |rem| - 1 {
      assert rem[k] == pre[k] && pre[..k] == rem[..k];
      RoundMaximal(sub, pre, k);
    } else {
      assert pre == rem[..k];
    }
  }

  /** `remaining_nodes -= nodes_to_remove`, keeping the order. */
  function Without(rem: seq<string>, taken: set<string>): (r: seq<string>)
    ensures forall x :: x in r <==> x in rem && x !in taken
    ensures |r| <= |rem|
    ensures |rem| > 0 && rem[0] in taken ==> |r| < |rem|
    ensures Distinct(rem) ==> Distinct(r)
    decreases |rem|
  {
    if |rem| == 0 then []
    else if rem[0] in taken then Without(rem[1..], taken)
    else
      var rest := Without(rem[1..], taken);
      assert forall x | x in rem[1..] :: x in rem;
      [rem[0]] + rest
  }

  /** The groups the `while remaining_nodes` loop forms from `rem`. Each
      round takes at least the first remaining node, so the loop ends. */
  function SplitRounds(sub: Graph, rem: seq<string>): (r: seq<seq<string>>)
    requires Valid(sub) && forall x | x in rem :: x in sub.nodes
    decreases |rem|
  {
    if |rem| == 0 then []
    else
      var g := Round(sub, rem);
      [g] + SplitRounds(sub, Without(rem, set x | x in g))
  }

  /** The groups of one level: a single node is its own group. */
  function LevelGroups(sub: Graph, nodes: seq<string>): (r: seq<seq<string>>)
    requires Valid(sub) && forall x | x in nodes :: x in sub.nodes
  {
    if |nodes| == 1 then [nodes] else SplitRounds(sub, nodes)
  }

  function Flatten(gs: seq<seq<string>>): (r: seq<string>)
    ensures forall x :: x in r <==> exists i | 0 <= i < |gs| :: x in gs[i]
  {
    if |gs| == 0 then []
    else
      var pre := gs[..|gs| - 1];
      var r := Flatten(pre) + gs[|gs| - 1];
      assert forall i | 0 <= i < |pre| :: pre[i] == gs[i];
      r
  }

  lemma FlattenCons(g: seq<string>, gs: seq<seq<string>>)
    ensures Flatten([g] + gs) == g + Flatten(gs)
    decreases |gs|
  {
    if |gs| > 0 {
      var all := [g] + gs;
      assert all[..|all| - 1] == [g] + gs[..|gs| - 1];
      FlattenCons(g, gs[..|gs| - 1]);
    } else {
      assert [g] + gs == [g];
      assert [g][..0] == [];
    }
  }

  lemma FlattenAppend(gs: seq<seq<string>>, hs: seq<seq<string>>)
    ensures Flatten(gs + hs) == Flatten(gs) + Flatten(hs)
    decreases |hs|
  {
    if |hs| == 0 {
      assert gs + hs == gs;
    } else {
      var all := gs + hs;
      assert all[..|all| - 1] == gs + hs[..|hs| - 1];
      FlattenAppend(gs, hs[..|hs| - 1]);
    }
  }

  lemma DistinctConcat(a: seq<string>, b: seq<string>)
    requires Distinct(a) && Distinct(b) && forall x | x in a :: x !in b
    ensures Distinct(a + b)
  {
    var c := a + b;
    forall i, j | 0 <= i < j < |c| ensures c[i] != c[j] {
      if i < |a| && j >= |a| {
        assert c[i] in a && c[j] == b[j - |a|];
      }
    }
  }

  /** The rounds partition the remaining nodes: each node lands in exactly
      one group, and no group is empty. */
  lemma {:induction false} SplitRoundsPartition(sub: Graph, rem: seq<string>)
    requires Valid(sub) && (forall x | x in rem :: x in sub.nodes) && Distinct(rem)
    ensures Distinct(Flatten(SplitRounds(sub, rem)))
    ensures forall x :: x in Flatten(SplitRounds(sub, rem)) <==> x in rem
    ensures forall g | g in SplitRounds(sub, rem) :: |g| > 0
    decreases |rem|
  {
    if |rem| > 0 {
      var g := Round(sub, rem);
      var rest := Without(rem, set x | x in g);
      SplitRoundsPartition(sub, rest);
      FlattenCons(g, SplitRounds(sub, rest));
      DistinctConcat(g, Flatten(SplitRounds(sub, rest)));
    }
  }

  /** No group of a level holds two nodes joined by a path. */
  lemma {:induction false} SplitRoundsUnrelated(sub: Graph, rem: seq<string>)
    requires Valid(sub) && forall x | x in rem :: x in sub.nodes
    ensures forall g | g in SplitRounds(sub, rem) ::
              (forall x | x in g :: x in sub.nodes) && PairwiseUnrelated(sub, g)
    decreases |rem|
  {
    if |rem| > 0 {
      var g := Round(sub, rem);
      SplitRoundsUnrelated(sub, Without(rem, set x | x in g));
    }
  }

  lemma LevelGroupsFacts(sub: Graph, nodes: seq<string>)
    requires Valid(sub) && (forall x | x in nodes :: x in sub.nodes) && Distinct(nodes)
    ensures Distinct(Flatten(LevelGroups(sub, nodes)))
    ensures forall x :: x in Flatten(LevelGroups(sub, nodes)) <==> x in nodes
    ensures forall g | g in LevelGroups(sub, nodes) ::
              |g| > 0 && (forall x | x in g :: x in sub.nodes) && PairwiseUnrelated(sub, g)
  {
    if |nodes| == 1 {
      assert LevelGroups(sub, nodes) == [nodes];
      FlattenCons(nodes, []);
    } else {
      SplitRoundsPartition(sub, nodes);
      SplitRoundsUnrelated(sub, nodes);
    }
  }

  // ---------------------------------------------------------------- all levels

  /** Every node named in `items` is a node of `sub`. */
  predicate ItemsIn(sub: Graph, items: seq<(string, nat)>) {
    forall it | it in items :: it.0 in sub.nodes
  }

  /** The groups of the levels `ls`, level after level. */
  function GroupsOfLevels(sub: Graph, items: seq<(string, nat)>, ls: seq<nat>): (r: seq<seq<string>>)
    requires Valid(sub) && ItemsIn(sub, items)
  {
    if |ls| == 0 then []
    else GroupsOfLevels(sub, items, ls[..|ls| - 1]) + LevelGroups(sub, OfLevel(items, ls[|ls| - 1]))
  }

  /** The `parallel_groups` of `_identify_parallel_groups` for the levels
      `items` (`levels.items()`), as a list whose indices are the group
      numbers. */
  function Groups(sub: Graph, items: seq<(string, nat)>): (r: seq<seq<string>>)
    requires Valid(sub) && ItemsIn(sub, items)
  {
    GroupsOfLevels(sub, items, SeenLevels(items))
  }

  /** All nodes of `g` have level `l`. */
  ghost predicate AtLevel(g: seq<string>, items: seq<(string, nat)>, l: nat) {
    forall x | x in g :: (x, l) in items
  }

  /** The groups of one level partition the nodes at that level. */
  lemma LevelBlockFacts(sub: Graph, items: seq<(string, nat)>, l: nat)
    requires Valid(sub) && ItemsIn(sub, items) && Distinct(Names(items))
    ensures var hs := LevelGroups(sub, OfLevel(items, l));
      Distinct(Flatten(hs))
      && (forall x :: x in Flatten(hs) <==> (x, l) in items)
      && forall g | g in hs :: |g| > 0 && (forall x | x in g :: x in sub.nodes)
           && PairwiseUnrelated(sub, g) && AtLevel(g, items, l)
  {
    var nodes := OfLevel(items, l);
    OfLevelIff(items, l);
    LevelGroupsFacts(sub, nodes);
    var hs := LevelGroups(sub, nodes);
    forall g | g in hs ensures AtLevel(g, items, l) {
      assert forall x | x in g :: x in Flatten(hs);
    }
  }

  lemma {:induction false} GroupsOfLevelsFacts(sub: Graph, items: seq<(string, nat)>, ls: seq<nat>)
    requires Valid(sub) && ItemsIn(sub, items) && Distinct(Names(items)) && Distinct(ls)
    ensures var gs := GroupsOfLevels(sub, items, ls);
      Distinct(Flatten(gs))
      && (forall x :: x in Flatten(gs) <==> exists l | l in ls :: (x, l) in items)
      && forall g | g in gs :: |g| > 0 && (forall x | x in g :: x in sub.nodes)
           && PairwiseUnrelated(sub, g) && exists l :: AtLevel(g, items, l)
  {
    if |ls| > 0 {
      var pre := ls[..|ls| - 1];
      var l := ls[|ls| - 1];
      GroupsOfLevelsFacts(sub, items, pre);
      LevelBlockFacts(sub, items, l);
      AppendLevelFacts(sub, items, ls, GroupsOfLevels(sub, items, pre), LevelGroups(sub, OfLevel(items, l)));
    }
  }

  /** The groups of the levels before the last, followed by the groups of
      the last level, keep the facts of `GroupsOfLevelsFacts`. */
  lemma AppendLevelFacts(sub: Graph, items: seq<(string, nat)>, ls: seq<nat>, gs0: seq<seq<string>>, hs: seq<seq<string>>)
    requires Valid(sub) && Distinct(Names(items)) && Distinct(ls) && |ls| > 0
    requires Distinct(Flatten(gs0))
    requires forall x :: x in Flatten(gs0) <==> exists l | l in ls[..|ls| - 1] :: (x, l) in items
    requires forall g | g in gs0 :: |g| > 0 && (forall x | x in g :: x in sub.nodes)
               && PairwiseUnrelated(sub, g) && exists l :: AtLevel(g, items, l)
    requires Distinct(Flatten(hs))
    requires forall x :: x in Flatten(hs) <==> (x, ls[|ls| - 1]) in items
    requires forall g | g in hs :: |g| > 0 && (forall x | x in g :: x in sub.nodes)
               && PairwiseUnrelated(sub, g) && AtLevel(g, items, ls[|ls| - 1])
    ensures Distinct(Flatten(gs0 + hs))
    ensures forall x :: x in Flatten(gs0 + hs) <==> exists l | l in ls :: (x, l) in items
    ensures forall g | g in gs0 + hs :: |g| > 0 && (forall x | x in g :: x in sub.nodes)
              && PairwiseUnrelated(sub, g) && exists l :: AtLevel(g, items, l)
  {
    FlattenAppend(gs0, hs);
    AppendLevelDistinct(items, ls, Flatten(gs0), Flatten(hs));
    AppendLevelMembers(items, ls, Flatten(gs0), Flatten(hs));
    AppendLevelGroups(sub, items, ls[|ls| - 1], gs0, hs);
  }

  /** The nodes of earlier levels and of a new level are the nodes of all
      of them. */
  lemma AppendLevelMembers(items: seq<(string, nat)>, ls: seq<nat>, a: seq<string>, b: seq<string>)
    requires |ls| > 0
    requires forall x :: x in a <==> exists l | l in ls[..|ls| - 1] :: (x, l) in items
    requires forall x :: x in b <==> (x, ls[|ls| - 1]) in items
    ensures forall x :: x in a + b <==> exists l | l in ls :: (x, l) in items
  {
    SplitLast(ls);
  }

  /** Appending the groups of a new level keeps every group non-empty,
      unrelated and within one level. */
  lemma AppendLevelGroups(sub: Graph, items: seq<(string, nat)>, l: nat, gs0: seq<seq<string>>, hs: seq<seq<string>>)
    requires Valid(sub)
    requires forall g | g in gs0 :: |g| > 0 && (forall x | x in g :: x in sub.nodes)
               && PairwiseUnrelated(sub, g) && exists l :: AtLevel(g, items, l)
    requires forall g | g in hs :: |g| > 0 && (forall x | x in g :: x in sub.nodes)
               && PairwiseUnrelated(sub, g) && AtLevel(g, items, l)
    ensures forall g | g in gs0 + hs :: |g| > 0 && (forall x | x in g :: x in sub.nodes)
              && PairwiseUnrelated(sub, g) && exists l :: AtLevel(g, items, l)
  {
    forall g | g in hs ensures exists l :: AtLevel(g, items, l) {
      assert AtLevel(g, items, l);
    }
  }

  /** The nodes of earlier levels and the nodes of a new level are
      disjoint, so together they are still distinct. */
  lemma AppendLevelDistinct(items: seq<(string, nat)>, ls: seq<nat>, a: seq<string>, b: seq<string>)
    requires Distinct(Names(items)) && Distinct(ls) && |ls| > 0
    requires Distinct(a) && Distinct(b)
    requires forall x :: x in a <==> exists l | l in ls[..|ls| - 1] :: (x, l) in items
    requires forall x :: x in b <==> (x, ls[|ls| - 1]) in items
    ensures Distinct(a + b)
  {
    var pre := ls[..|ls| - 1];
    var l := ls[|ls| - 1];
    assert l !in pre;
    forall x | x in a ensures x !in b {
      var l0 :| l0 in pre && (x, l0) in items;
      if x in b {
        NameLevelUnique(items, x, l0, l);
      }
    }
    DistinctConcat(a, b);
  }

  /** A node named once in `items` has one level. */
  lemma NameLevelUnique(items: seq<(string, nat)>, x: string, l: nat, l': nat)
    requires Distinct(Names(items)) && (x, l) in items && (x, l') in items
    ensures l == l'
  {
    var i :| 0 <= i < |items| && items[i] == (x, l);
    var j :| 0 <= j < |items| && items[j] == (x, l');
    assert Names(items)[i] == Names(items)[j];
  }

  /** What `_identify_parallel_groups` promises: every levelled node is in
      exactly one group, every group is non-empty and holds nodes of a single
      level, and no two nodes of a group are joined by a path either way. */
  lemma GroupsPartition(sub: Graph, items: seq<(string, nat)>)
    requires Valid(sub) && ItemsIn(sub, items) && Distinct(Names(items))
    ensures var gs := Groups(sub, items);
      Distinct(Flatten(gs))
      && (forall x :: x in Flatten(gs) <==> x in Names(items))
      && forall g | g in gs :: |g| > 0 && (exists l :: AtLevel(g, items, l))
           && (forall i, j | 0 <= i < j < |g| :: !Path(sub, g[i], g[j]) && !Path(sub, g[j], g[i]))
  {
    SeenLevelsIff(items);
    GroupsOfLevelsFacts(sub, items, SeenLevels(items));
    var gs := Groups(sub, items);
    LevelledAreNames(items, SeenLevels(items), Flatten(gs));
    UnrelatedHasNoPath(sub, gs);
  }

  /** The nodes at the levels that occur are the names of the items. */
  lemma LevelledAreNames(items: seq<(string, nat)>, ls: seq<nat>, xs: seq<string>)
    requires forall l :: l in ls <==> exists x :: (x, l) in items
    requires forall x :: x in xs <==> exists l | l in ls :: (x, l) in items
    ensures forall x :: x in xs <==> x in Names(items)
  {
    forall x ensures x in xs <==> x in Names(items) {
      if x in Names(items) {
        var i :| 0 <= i < |items| && Names(items)[i] == x;
        assert (x, items[i].1) in items;
      }
    }
  }

  /** A group whose nodes are pairwise unrelated has no path between any
      two of them. */
  lemma UnrelatedHasNoPath(sub: Graph, gs: seq<seq<string>>)
    requires Valid(sub)
    requires forall g | g in gs :: (forall x | x in g :: x in sub.nodes) && PairwiseUnrelated(sub, g)
    ensures forall g, i, j | g in gs && 0 <= i < j < |g| :: !Path(sub, g[i], g[j]) && !Path(sub, g[j], g[i])
  {
    forall g, i, j | g in gs && 0 <= i < j < |g|
      ensures !Path(sub, g[i], g[j]) && !Path(sub, g[j], g[i])
    {
      assert g[i] in g && g[j] in g;
      HasPathIff(sub, g[i], g[j]);
      HasPathIff(sub, g[j], g[i]);
    }
  }


  /** A level with one node is a group of its own. */
  lemma SingleNodeLevel(sub: Graph, n: string)
    requires Valid(sub) && n in sub.nodes
    ensures LevelGroups(sub, [n]) == [[n]]
  {
  }

  // ---------------------------------------------------------------- the loops

  /** The `can_add` test: the inner loop stops at the first node of the
      group related to `node`. */
  method CanAdd(sub: Graph, node: string, current: seq<string>) returns (canAdd: bool)
    requires Valid(sub) && node in sub.nodes && forall x | x in current :: x in sub.nodes
    ensures canAdd == Independent(sub, node, current)
  {
    canAdd := true;
    var k := 0;
    while canAdd && k < |current|
      invariant 0 <= k <= |current|
      invariant canAdd <==> forall m | 0 <= m < k :: Unrelated(sub, node, current[m])
    {
      if HasPath(sub, node, current[k]) || HasPath(sub, current[k], node) {
        canAdd := false;
      }
      k := k + 1;
    }
    assert forall x | x in current :: exists m | 0 <= m < |current| :: current[m] == x;
  }

  /** One pass of `for node in remaining_nodes`, giving `current_group` and
      `nodes_to_remove`. */
  method FormRound(sub: Graph, remaining: seq<string>) returns (current: seq<string>, toRemove: set<string>)
    requires Valid(sub) && forall x | x in remaining :: x in sub.nodes
    ensures current == Round(sub, remaining)
    ensures toRemove == set x | x in current
  {
    current := [];
    toRemove := {};
    for j := 0 to |remaining|
      invariant current == Round(sub, remaining[..j])
      invariant toRemove == set x | x in current
    {
      assert remaining[..j + 1][..j] == remaining[..j];
      var node := remaining[j];
      var canAdd := CanAdd(sub, node, current);
      if canAdd {
        current := current + [node];
        toRemove := toRemove + {node};
      }
    }
    assert remaining[..|remaining|] == remaining;
  }

  /** The `while remaining_nodes` loop of one level with more than one
      node. */
  method SplitLevel(sub: Graph, nodes: seq<string>) returns (groups: seq<seq<string>>)
    requires Valid(sub) && forall x | x in nodes :: x in sub.nodes
    ensures groups == SplitRounds(sub, nodes)
  {
    groups := [];
    var remaining := nodes;
    ghost var target := SplitRounds(sub, nodes);
    while |remaining| > 0
      invariant forall x | x in remaining :: x in sub.nodes
      invariant groups + SplitRounds(sub, remaining) == target
      decreases |remaining|
    {
      groups, remaining := SplitOnce(sub, target, groups, remaining);
    }
    assert SplitRounds(sub, remaining) == [];
    assert groups + [] == groups;
  }

  /** One turn of that loop: the next group is formed and its nodes are
      taken out of `remaining_nodes`. */
  method SplitOnce(sub: Graph, ghost target: seq<seq<string>>, groups: seq<seq<string>>, remaining: seq<string>)
    returns (groups': seq<seq<string>>, remaining': seq<string>)
    requires Valid(sub) && forall x | x in remaining :: x in sub.nodes
    requires |remaining| > 0 && groups + SplitRounds(sub, remaining) == target
    ensures forall x | x in remaining' :: x in sub.nodes
    ensures |remaining'| < |remaining|
    ensures groups' + SplitRounds(sub, remaining') == target
  {
    var current, toRemove := FormRound(sub, remaining);
    SplitRoundsStep(sub, target, groups, remaining, current, toRemove);
    groups' := groups + [current];
    remaining' := Without(remaining, toRemove);
  }

  lemma SplitRoundsStep(sub: Graph, target: seq<seq<string>>, groups: seq<seq<string>>, rem: seq<string>,
                        current: seq<string>, taken: set<string>)
    requires Valid(sub) && forall x | x in rem :: x in sub.nodes
    requires |rem| > 0 && current == Round(sub, rem) && taken == set x | x in current
    requires groups + SplitRounds(sub, rem) == target
    ensures forall x | x in Without(rem, taken) :: x in sub.nodes
    ensures |Without(rem, taken)| < |rem|
    ensures (groups + [current]) + SplitRounds(sub, Without(rem, taken)) == target
  {
    assert rem[0] in taken;
    assert SplitRounds(sub, rem) == [current] + SplitRounds(sub, Without(rem, taken));
    ConcatAssoc(groups, [current], SplitRounds(sub, Without(rem, taken)));
  }

  lemma GroupsOfLevelsStep(sub: Graph, items: seq<(string, nat)>, ls: seq<nat>, k: nat)
    requires Valid(sub) && ItemsIn(sub, items) && k < |ls|
    ensures GroupsOfLevels(sub, items, ls[..k + 1])
            == GroupsOfLevels(sub, items, ls[..k]) + LevelGroups(sub, OfLevel(items, ls[k]))
  {
    assert ls[..k + 1][..k] == ls[..k];
  }

  lemma OfLevelStep(items: seq<(string, nat)>, i: nat, l: nat)
    requires i < |items|
    ensures OfLevel(items[..i + 1], l)
            == if items[i].1 == l then OfLevel(items[..i], l) + [items[i].0] else OfLevel(items[..i], l)
  {
    assert items[..i + 1][..i] == items[..i];
  }

  lemma SeenLevelsStep(items: seq<(string, nat)>, i: nat)
    requires i < |items|
    ensures SeenLevels(items[..i + 1])
            == if items[i].1 in SeenLevels(items[..i]) then SeenLevels(items[..i])
               else SeenLevels(items[..i]) + [items[i].1]
  {
    assert items[..i + 1][..i] == items[..i];
  }

  /** `level_nodes` holds, for each level seen in `items[..i]`, the nodes
      of that level; `seen` lists its keys in the order they were added. */
  ghost predicate BucketsUpTo(items: seq<(string, nat)>, i: nat, seen: seq<nat>, levelNodes: map<nat, seq<string>>)
    requires i <= |items|
  {
    seen == SeenLevels(items[..i])
    && (forall l :: l in levelNodes <==> l in seen)
    && forall l | l in levelNodes :: levelNodes[l] == OfLevel(items[..i], l)
  }

  /** A level not seen yet opens a bucket holding just the new node. */
  lemma BucketStepNew(items: seq<(string, nat)>, i: nat, seen: seq<nat>, levelNodes: map<nat, seq<string>>)
    requires i < |items| && BucketsUpTo(items, i, seen, levelNodes) && items[i].1 !in levelNodes
    ensures BucketsUpTo(items, i + 1, seen + [items[i].1], levelNodes[items[i].1 := [items[i].0]])
  {
    SeenLevelsStep(items, i);
    NewLevelSingle(items, i);
    forall l' | l' in levelNodes ensures levelNodes[l'] == OfLevel(items[..i + 1], l') {
      OfLevelStep(items, i, l');
    }
  }

  /** The first node of a level is, so far, the only node of that level. */
  lemma NewLevelSingle(items: seq<(string, nat)>, i: nat)
    requires i < |items| && items[i].1 !in SeenLevels(items[..i])
    ensures OfLevel(items[..i + 1], items[i].1) == [items[i].0]
  {
    var l := items[i].1;
    SeenLevelsIff(items[..i]);
    assert forall it | it in items[..i] :: it.1 != l;
    OfLevelStep(items, i, l);
  }

  /** A level seen before gets the new node appended to its bucket. */
  lemma BucketStepOld(items: seq<(string, nat)>, i: nat, seen: seq<nat>, levelNodes: map<nat, seq<string>>)
    requires i < |items| && BucketsUpTo(items, i, seen, levelNodes) && items[i].1 in levelNodes
    ensures BucketsUpTo(items, i + 1, seen, levelNodes[items[i].1 := levelNodes[items[i].1] + [items[i].0]])
  {
    SeenLevelsStep(items, i);
    forall l' | l' in levelNodes ensures OfLevel(items[..i + 1], l')
        == if items[i].1 == l' then levelNodes[l'] + [items[i].0] else levelNodes[l']
    {
      OfLevelStep(items, i, l');
    }
  }

  /** The first loop of `_identify_parallel_groups`: `level_nodes`, its
      keys in the order they were added. */
  method BucketByLevel(items: seq<(string, nat)>) returns (seen: seq<nat>, levelNodes: map<nat, seq<string>>)
    ensures seen == SeenLevels(items)
    ensures forall l :: l in levelNodes <==> l in seen
    ensures forall l | l in levelNodes :: levelNodes[l] == OfLevel(items, l)
  {
    levelNodes := map[];
    seen := [];
    for i := 0 to |items|
      invariant BucketsUpTo(items, i, seen, levelNodes)
    {
      var (node, level) := items[i];
      if level !in levelNodes {
        BucketStepNew(items, i, seen, levelNodes);
        ghost var before := levelNodes;
        levelNodes := levelNodes[level := []];
        seen := seen + [level];
        assert levelNodes[level := levelNodes[level] + [node]] == before[level := [node]];
      } else {
        BucketStepOld(items, i, seen, levelNodes);
      }
      levelNodes := levelNodes[level := levelNodes[level] + [node]];
    }
    assert items[..|items|] == items;
  }

  /** `_identify_parallel_groups`: the nodes are bucketed by level, the
      levels kept in the order they first appear; then the groups of each
      level are numbered on from one counter. */
  method IdentifyParallelGroups(sub: Graph, items: seq<(string, nat)>) returns (groups: seq<seq<string>>)
    requires Valid(sub) && ItemsIn(sub, items)
    ensures groups == Groups(sub, items)
  {
    var seen, levelNodes := BucketByLevel(items);
    groups := [];
    for k := 0 to |seen|
      invariant groups == GroupsOfLevels(sub, items, seen[..k])
    {
      GroupsOfLevelsStep(sub, items, seen, k);
      var nodes := levelNodes[seen[k]];
      assert nodes == OfLevel(items, seen[k]);
      var more := GroupLevel(sub, nodes);
      groups := groups + more;
    }
    assert seen[..|seen|] == seen;
  }

  /** The groups of one level: a single node is a group of its own, more
      nodes go through the `while remaining_nodes` loop. */
  method GroupLevel(sub: Graph, nodes: seq<string>) returns (groups: seq<seq<string>>)
    requires Valid(sub) && forall x | x in nodes :: x in sub.nodes
    ensures groups == LevelGroups(sub, nodes)
  {
    if |nodes| == 1 {
      groups := [nodes];
    } else {
      groups := SplitLevel(sub, nodes);
    }
  }
}
