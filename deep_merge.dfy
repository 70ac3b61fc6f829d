/**
  The recursive merge the plugin imports as `merge_hash`, in the mode the
  plugin uses it (recursive, lists replaced). Its body is not part of this
  model: `Merge` is the assumed contract, written out as a definition, and
  the lemmas below are proved about that definition.
 */
module DeepMerge {
  import opened Values

  /**
    `overlay` merged onto `base`: keys only in one side are kept as they are;
    where both sides hold a mapping the two are merged recursively; anywhere
    else the overlay's value replaces the base's (a list is replaced, never
    concatenated).
   */
  function Merge(base: Vars, overlay: Vars): (r: Vars)
    ensures r.Keys == base.Keys + overlay.Keys
    decreases Mapping(overlay)
  {
    map k | k in base.Keys + overlay.Keys ::
      if k in overlay then
        if k in base && base[k].Mapping? && overlay[k].Mapping? then
          Mapping(Merge(base[k].entries, overlay[k].entries))
        else
          overlay[k]
      else
        base[k]
  }

  /** Left fold of `Merge` over a chain of sources, starting from the empty mapping. */
  function MergeAll(sources: seq<Vars>): Vars
    decreases |sources|
  {
    if sources == [] then map[]
    else Merge(MergeAll(sources[..|sources| - 1]), sources[|sources| - 1])
  }

  /** Merging an empty overlay changes nothing. */
  lemma MergeEmptyRight(a: Vars)
    ensures Merge(a, map[]) == a
  {
  }

  /** Merging onto an empty base yields the overlay. */
  lemma MergeEmptyLeft(b: Vars)
    ensures Merge(map[], b) == b
  {
  }

  /** Merging a mapping onto itself yields the same mapping, at every depth. */
  lemma {:induction false} MergeIdempotent(a: Vars)
    ensures Merge(a, a) == a
    decreases Mapping(a)
  {
    forall k | k in a && a[k].Mapping?
      ensures Merge(a, a)[k] == a[k]
    {
      MergeIdempotent(a[k].entries);
    }
  }

  /** Wherever the overlay holds a leaf (scalar or list), the merge holds that same leaf. */
  lemma {:induction false} OverlayLeafWins(base: Vars, overlay: Vars, path: seq<string>, v: Value)
    requires Lookup(Mapping(overlay), path) == Some(v) && IsLeaf(v)
    ensures Lookup(Mapping(Merge(base, overlay)), path) == Some(v)
    decreases |path|
  {
    var k := path[0];
    var r := Merge(base, overlay);
    if k in base && base[k].Mapping? && overlay[k].Mapping? {
      assert r[k] == Mapping(Merge(base[k].entries, overlay[k].entries));
      OverlayLeafWins(base[k].entries, overlay[k].entries, path[1..], v);
    } else {
      assert r[k] == overlay[k];
    }
  }

  /** Wherever the overlay leaves a place open, the merge keeps the base's value there. */
  lemma {:induction false} BaseKeptWhereOpen(base: Vars, overlay: Vars, path: seq<string>, v: Value)
    requires OpenAlong(overlay, path)
    requires Lookup(Mapping(base), path) == Some(v)
    ensures Lookup(Mapping(Merge(base, overlay)), path) == Some(v)
    decreases |path|
  {
    var k := path[0];
    var r := Merge(base, overlay);
    if k in overlay {
      assert r[k] == Mapping(Merge(base[k].entries, overlay[k].entries));
      BaseKeptWhereOpen(base[k].entries, overlay[k].entries, path[1..], v);
    } else {
      assert r[k] == base[k];
    }
  }

  /**
    Every leaf of the merge comes from somewhere: it is the overlay's leaf at
    that place, or the base's where the overlay leaves the place open.
   */
  lemma {:induction false} MergeLeafOrigin(base: Vars, overlay: Vars, path: seq<string>, v: Value)
    requires Lookup(Mapping(Merge(base, overlay)), path) == Some(v) && IsLeaf(v)
    ensures || Lookup(Mapping(overlay), path) == Some(v)
            || (OpenAlong(overlay, path) && Lookup(Mapping(base), path) == Some(v))
    decreases |path|
  {
    var k := path[0];
    var r := Merge(base, overlay);
    if k in overlay {
      if k in base && base[k].Mapping? && overlay[k].Mapping? {
        assert r[k] == Mapping(Merge(base[k].entries, overlay[k].entries));
        MergeLeafOrigin(base[k].entries, overlay[k].entries, path[1..], v);
      } else {
        assert r[k] == overlay[k];
      }
    } else {
      assert r[k] == base[k];
    }
  }

  /** Folding one more source is one more merge step. */
  lemma MergeAllAppend(sources: seq<Vars>, last: Vars)
    ensures MergeAll(sources + [last]) == Merge(MergeAll(sources), last)
  {
    assert (sources + [last])[..|sources|] == sources;
  }

  /**
    In a chain of sources, a leaf defined by source `i` survives the whole
    fold when every later source leaves its place open: later sources take
    precedence, and only a later source that touches the place can override.
   */
  lemma {:induction false} MergeAllLaterWins(sources: seq<Vars>, i: nat, path: seq<string>, v: Value)
    requires i < |sources|
    requires Lookup(Mapping(sources[i]), path) == Some(v) && IsLeaf(v)
    requires forall j :: i < j < |sources| ==> OpenAlong(sources[j], path)
    ensures Lookup(Mapping(MergeAll(sources)), path) == Some(v)
    decreases |sources|
  {
    var n := |sources|;
    var front := sources[..n - 1];
    if i == n - 1 {
      OverlayLeafWins(MergeAll(front), sources[n - 1], path, v);
    } else {
      assert front[i] == sources[i];
      MergeAllLaterWins(front, i, path, v);
      BaseKeptWhereOpen(MergeAll(front), sources[n - 1], path, v);
    }
  }

  /** Source `i` of the chain holds leaf `v` at `path`, and every later source leaves that place open. */
  predicate LastDefinedAt(sources: seq<Vars>, i: int, path: seq<string>, v: Value) {
    && 0 <= i < |sources|
    && Lookup(Mapping(sources[i]), path) == Some(v)
    && forall j :: i < j < |sources| ==> OpenAlong(sources[j], path)
  }

  /** The source a chain last defines a place in: no later source defines anything there. */
  lemma LastDefinedAtIsLast(sources: seq<Vars>, i: int, path: seq<string>, v: Value)
    requires LastDefinedAt(sources, i, path, v)
    ensures forall j :: i < j < |sources| ==> Lookup(Mapping(sources[j]), path) == None
  {
    forall j | i < j < |sources| ensures Lookup(Mapping(sources[j]), path) == None {
      OpenAlongUndefined(sources[j], path);
    }
  }

  /** A source that leaves the place open, appended to the chain, keeps the last definition where it was. */
  lemma LastDefinedAtSnoc(front: seq<Vars>, last: Vars, i: int, path: seq<string>, v: Value)
    requires LastDefinedAt(front, i, path, v) && OpenAlong(last, path)
    ensures LastDefinedAt(front + [last], i, path, v)
  {
    var sources := front + [last];
    forall j | i < j < |sources| ensures OpenAlong(sources[j], path) {
      if j < |front| {
        assert sources[j] == front[j];
      }
    }
  }

  /**
    The converse of `MergeAllLaterWins`: every leaf of a merged chain is the
    leaf of some source at that place, and every later source leaves the
    place open, so the result is the last source that defines the place.
   */
  lemma {:induction false} MergeAllLeafOrigin(sources: seq<Vars>, path: seq<string>, v: Value)
    requires Lookup(Mapping(MergeAll(sources)), path) == Some(v) && IsLeaf(v)
    ensures exists i :: LastDefinedAt(sources, i, path, v)
    decreases |sources|
  {
    if sources == [] {
      assert false;
    } else {
      var n := |sources|;
      var front, last := sources[..n - 1], sources[n - 1];
      assert sources == front + [last];
      MergeLeafOrigin(MergeAll(front), last, path, v);
      if Lookup(Mapping(last), path) == Some(v) {
        assert LastDefinedAt(sources, n - 1, path, v);
      } else {
        MergeAllLeafOrigin(front, path, v);
        var i :| LastDefinedAt(front, i, path, v);
        LastDefinedAtSnoc(front, last, i, path, v);
      }
    }
  }

  /** A chain whose every source is empty merges to the empty mapping. */
  lemma {:induction false} MergeAllEmpty(sources: seq<Vars>)
    requires forall k :: 0 <= k < |sources| ==> sources[k] == map[]
    ensures MergeAll(sources) == map[]
    decreases |sources|
  {
    if sources != [] {
      var front := sources[..|sources| - 1];
      MergeAllEmpty(front);
      MergeEmptyRight(MergeAll(front));
    }
  }

  /** The nested example: {a: {x: 1, y: 2}} merged with {a: {y: 3, z: 4}} is {a: {x: 1, y: 3, z: 4}}. */
  lemma NestedMergeExample()
    ensures Merge(map["a" := Mapping(map["x" := Scalar("1"), "y" := Scalar("2")])],
                  map["a" := Mapping(map["y" := Scalar("3"), "z" := Scalar("4")])])
         == map["a" := Mapping(map["x" := Scalar("1"), "y" := Scalar("3"), "z" := Scalar("4")])]
  {
    var inner := Merge(map["x" := Scalar("1"), "y" := Scalar("2")], map["y" := Scalar("3"), "z" := Scalar("4")]);
    assert inner == map["x" := Scalar("1"), "y" := Scalar("3"), "z" := Scalar("4")];
  }

  /** Lists are replaced, not concatenated: {a: [1, 2]} merged with {a: [3]} is {a: [3]}. */
  lemma ListReplacedExample()
    ensures Merge(map["a" := List([Scalar("1"), Scalar("2")])], map["a" := List([Scalar("3")])])
         == map["a" := List([Scalar("3")])]
  {
  }
}
