/**
  The part of Ansible's inventory the plugin consults: a host's name and the
  groups it belongs to, a group's name and depth, and the rule that orders a
  host's groups for merging.
 */
module Inventory {

  /** A group as a host's group list yields it: its name and its depth below the implicit root. */
  datatype GroupInfo = GroupInfo(name: string, depth: int)

  /** A target the plugin can be asked about: a host with its groups, or a bare group. */
  datatype Entity =
    | Host(name: string, groups: seq<GroupInfo>)
    | Group(name: string, depth: int)

  /** The `entities` argument: either one entity or a list of them. */
  datatype Targets = Single(entity: Entity) | Batch(entities: seq<Entity>)

  /** A single target is treated as a one-element list. */
  function Normalize(targets: Targets): seq<Entity> {
    match targets
    case Single(e) => [e]
    case Batch(es) => es
  }

  predicate SortedByDepth(gs: seq<GroupInfo>) {
    forall i, j :: 0 <= i < j < |gs| ==> gs[i].depth <= gs[j].depth
  }

  /** The groups of `gs` at depth `d`, in the order `gs` lists them. */
  function AtDepth(gs: seq<GroupInfo>, d: int): seq<GroupInfo>
    decreases |gs|
  {
    if gs == [] then []
    else (if gs[0].depth == d then [gs[0]] else []) + AtDepth(gs[1..], d)
  }

  /** `g` placed in front of the first group of `gs` that is at least as deep. */
  function InsertByDepth(g: GroupInfo, gs: seq<GroupInfo>): seq<GroupInfo>
    decreases |gs|
  {
    if gs == [] || g.depth <= gs[0].depth then [g] + gs
    else [gs[0]] + InsertByDepth(g, gs[1..])
  }

  /**
    The groups in ascending depth, the ordering a stable sort keyed on
    depth produces: each group is inserted in front of the first group
    at least as deep among the already sorted rest. The lemmas below show
    that the result is sorted, is a permutation of the input, and keeps
    the input's order among groups of equal depth.
   */
  function SortByDepth(gs: seq<GroupInfo>): (r: seq<GroupInfo>)
    ensures |r| == |gs|
    decreases |gs|
  {
    if gs == [] then []
    else
      var rest := SortByDepth(gs[1..]);
      InsertPermutes(gs[0], rest);
      InsertByDepth(gs[0], rest)
  }

  /** The sorted groups are in ascending depth. */
  lemma {:induction false} SortByDepthSorted(gs: seq<GroupInfo>)
    ensures SortedByDepth(SortByDepth(gs))
    decreases |gs|
  {
    if gs != [] {
      SortByDepthSorted(gs[1..]);
      InsertSortedKeepsOrder(gs[0], SortByDepth(gs[1..]));
    }
  }

  /** Sorting neither loses nor duplicates a group. */
  lemma {:induction false} SortByDepthPermutes(gs: seq<GroupInfo>)
    ensures multiset(SortByDepth(gs)) == multiset(gs)
    decreases |gs|
  {
    if gs != [] {
      SortByDepthPermutes(gs[1..]);
      InsertPermutes(gs[0], SortByDepth(gs[1..]));
      assert gs == [gs[0]] + gs[1..];
    }
  }

  /** Sorting is stable: the groups of any one depth keep the order the input gives them. */
  lemma {:induction false} SortByDepthStable(gs: seq<GroupInfo>, d: int)
    ensures AtDepth(SortByDepth(gs), d) == AtDepth(gs, d)
    decreases |gs|
  {
    if gs != [] {
      SortByDepthStable(gs[1..], d);
      InsertAtDepth(gs[0], SortByDepth(gs[1..]), d);
      AtDepthCons(gs[0], gs[1..], d);
      assert [gs[0]] + gs[1..] == gs;
    }
  }

  lemma {:induction false} InsertPermutes(g: GroupInfo, gs: seq<GroupInfo>)
    ensures multiset(InsertByDepth(g, gs)) == multiset([g] + gs)
    ensures |InsertByDepth(g, gs)| == |gs| + 1
    decreases |gs|
  {
    if gs != [] && g.depth > gs[0].depth {
      InsertPermutes(g, gs[1..]);
      assert gs == [gs[0]] + gs[1..];
    }
  }

  /** Inserting into a sorted sequence keeps it sorted; the new front is `g` or the old front. */
  lemma {:induction false} InsertSortedKeepsOrder(g: GroupInfo, gs: seq<GroupInfo>)
    requires SortedByDepth(gs)
    ensures SortedByDepth(InsertByDepth(g, gs))
    ensures InsertByDepth(g, gs)[0] == g || (gs != [] && InsertByDepth(g, gs)[0] == gs[0])
    decreases |gs|
  {
    var r := InsertByDepth(g, gs);
    if gs == [] || g.depth <= gs[0].depth {
      assert r == [g] + gs;
      forall i, j | 0 <= i < j < |r| ensures r[i].depth <= r[j].depth {
        if i == 0 && j > 1 {
          assert gs[0].depth <= gs[j - 1].depth;
        }
      }
    } else {
      var tail := InsertByDepth(g, gs[1..]);
      assert SortedByDepth(gs[1..]) by {
        forall i, j | 0 <= i < j < |gs[1..]| ensures gs[1..][i].depth <= gs[1..][j].depth {
          assert gs[1..][i] == gs[i + 1] && gs[1..][j] == gs[j + 1];
        }
      }
      InsertSortedKeepsOrder(g, gs[1..]);
      assert r == [gs[0]] + tail;
      assert gs[0].depth <= tail[0].depth;
      forall i, j | 0 <= i < j < |r| ensures r[i].depth <= r[j].depth {
        if i == 0 && j > 1 {
          assert tail[0].depth <= tail[j - 1].depth;
        }
      }
    }
  }

  lemma AtDepthCons(x: GroupInfo, rest: seq<GroupInfo>, d: int)
    ensures AtDepth([x] + rest, d) == (if x.depth == d then [x] else []) + AtDepth(rest, d)
  {
    assert ([x] + rest)[1..] == rest;
  }

  /** The inserted group comes before every other group of its depth. */
  lemma {:induction false} InsertAtDepth(g: GroupInfo, gs: seq<GroupInfo>, d: int)
    ensures AtDepth(InsertByDepth(g, gs), d) == (if g.depth == d then [g] else []) + AtDepth(gs, d)
    decreases |gs|
  {
    if gs == [] || g.depth <= gs[0].depth {
      AtDepthCons(g, gs, d);
    } else {
      var rest := InsertByDepth(g, gs[1..]);
      InsertAtDepth(g, gs[1..], d);
      AtDepthCons(gs[0], rest, d);
      AtDepthCons(gs[0], gs[1..], d);
      assert [gs[0]] + gs[1..] == gs;
      var head := if gs[0].depth == d then [gs[0]] else [];
      var mine := if g.depth == d then [g] else [];
      assert head == [] || mine == [];
      assert head + (mine + AtDepth(gs[1..], d)) == mine + (head + AtDepth(gs[1..], d));
    }
  }

  /** The example ordering: groups at depths 2, 0, 1 are merged at depth 0, then 1, then 2. */
  lemma DepthOrderExample(a: string, b: string, c: string)
    ensures SortByDepth([GroupInfo(a, 2), GroupInfo(b, 0), GroupInfo(c, 1)])
         == [GroupInfo(b, 0), GroupInfo(c, 1), GroupInfo(a, 2)]
  {
    var gs := [GroupInfo(a, 2), GroupInfo(b, 0), GroupInfo(c, 1)];
    assert gs[1..] == [GroupInfo(b, 0), GroupInfo(c, 1)];
    assert gs[1..][1..] == [GroupInfo(c, 1)];
    assert SortByDepth([GroupInfo(c, 1)]) == [GroupInfo(c, 1)];
    assert SortByDepth(gs[1..]) == [GroupInfo(b, 0), GroupInfo(c, 1)];
    assert InsertByDepth(GroupInfo(a, 2), [GroupInfo(c, 1)]) == [GroupInfo(c, 1), GroupInfo(a, 2)];
  }
}
