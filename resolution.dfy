/**
  What one resolution computes, stated without the plugin's loops: which
  scopes are looked up and in what order, what the name-keyed cache holds
  afterwards ("first write wins"), which files are probed, and how the
  cached mappings are merged into the result.
 */
module Resolution {
  import opened Values
  import opened DeepMerge
  import opened Inventory
  import opened VarsFiles

  /** The per-name cache of scope variables. */
  type Cache = map<string, Vars>

  /** The cached variables for `name`; a name never looked up reads as empty. */
  function Cached(c: Cache, name: string): Vars {
    if name in c then c[name] else map[]
  }

  /** Every entry of `c` is still in `d`, unchanged. */
  predicate Extends(c: Cache, d: Cache) {
    forall n :: n in c ==> n in d && d[n] == c[n]
  }

  /** The names looked up along `order`. */
  function Names(order: seq<Entity>): set<string> {
    set e | e in order :: e.name
  }

  // ---- lookup order ----

  /** A host's groups, as the entities looked up for them, in the given order. */
  function GroupLookups(gs: seq<GroupInfo>): (order: seq<Entity>)
    ensures |order| == |gs|
    ensures forall i :: 0 <= i < |gs| ==> order[i] == Group(gs[i].name, gs[i].depth)
  {
    seq(|gs|, i requires 0 <= i < |gs| => Group(gs[i].name, gs[i].depth))
  }

  lemma GroupLookupsSnoc(gs: seq<GroupInfo>, j: nat)
    requires j < |gs|
    ensures GroupLookups(gs[..j + 1]) == GroupLookups(gs[..j]) + [Group(gs[j].name, gs[j].depth)]
  {
    var a, b := GroupLookups(gs[..j + 1]), GroupLookups(gs[..j]) + [Group(gs[j].name, gs[j].depth)];
    assert |a| == |b|;
    forall k | 0 <= k < |a| ensures a[k] == b[k] {
      if k < j {
        assert gs[..j + 1][k] == gs[..j][k];
      }
    }
  }

  /** The lookups one target causes: its groups by ascending depth, then the host itself; none for a non-host. */
  function TargetLookups(e: Entity): seq<Entity> {
    if e.Host? then GroupLookups(SortByDepth(e.groups)) + [e] else []
  }

  /** The lookups a whole list of targets causes, target after target. */
  function LookupOrder(es: seq<Entity>): seq<Entity>
    decreases |es|
  {
    if es == [] then []
    else LookupOrder(es[..|es| - 1]) + TargetLookups(es[|es| - 1])
  }

  // ---- the name-keyed cache and the files it reads ----

  /** One lookup: a name already cached is left alone, a new one is read from its file. */
  function FillStep(c: Cache, fs: FileSystem, path: string, e: Entity): Cache {
    if e.name in c then c else c[e.name := FileVars(fs, VarsBase(path, e))]
  }

  /** The cache after the lookups of `order`, starting from `c`. */
  function Fill(c: Cache, fs: FileSystem, path: string, order: seq<Entity>): Cache
    decreases |order|
  {
    if order == [] then c
    else FillStep(Fill(c, fs, path, order[..|order| - 1]), fs, path, order[|order| - 1])
  }

  /** The files probed by the lookups of `order`, starting from `c`: only a name not yet cached causes probes. */
  function ProbeTrace(c: Cache, fs: FileSystem, path: string, order: seq<Entity>): seq<string>
    decreases |order|
  {
    if order == [] then []
    else
      var front := order[..|order| - 1];
      ProbeTrace(c, fs, path, front) + StepProbes(Fill(c, fs, path, front), fs, path, order[|order| - 1])
  }

  /** The files one lookup probes: none for a cached name. */
  function StepProbes(c: Cache, fs: FileSystem, path: string, e: Entity): seq<string> {
    if e.name in c then [] else FileProbes(fs, VarsBase(path, e))
  }

  // ---- merging ----

  /** The cached variables of each group, in the given order. */
  function GroupSources(c: Cache, gs: seq<GroupInfo>): (sources: seq<Vars>)
    ensures |sources| == |gs|
    ensures forall i :: 0 <= i < |gs| ==> sources[i] == Cached(c, gs[i].name)
  {
    seq(|gs|, i requires 0 <= i < |gs| => Cached(c, gs[i].name))
  }

  /** The chain merged for a host: its groups by ascending depth, then its own variables last. */
  function HostSources(c: Cache, h: Entity): seq<Vars>
    requires h.Host?
  {
    GroupSources(c, SortByDepth(h.groups)) + [Cached(c, h.name)]
  }

  /** The variables resolved for one host. */
  function HostVars(c: Cache, h: Entity): Vars
    requires h.Host?
  {
    MergeAll(HostSources(c, h))
  }

  /** The per-host results of the host targets of `es`, in target order. */
  function HostResults(c: Cache, es: seq<Entity>): seq<Vars>
    decreases |es|
  {
    if es == [] then []
    else
      var e := es[|es| - 1];
      HostResults(c, es[..|es| - 1]) + (if e.Host? then [HostVars(c, e)] else [])
  }

  /** The aggregate over all targets: the per-host results merged in target order. */
  function Aggregate(c: Cache, es: seq<Entity>): Vars {
    MergeAll(HostResults(c, es))
  }

  // ---- properties of the cache ----

  lemma FillSnoc(c: Cache, fs: FileSystem, path: string, order: seq<Entity>, e: Entity)
    ensures Fill(c, fs, path, order + [e]) == FillStep(Fill(c, fs, path, order), fs, path, e)
    ensures ProbeTrace(c, fs, path, order + [e])
         == ProbeTrace(c, fs, path, order) + StepProbes(Fill(c, fs, path, order), fs, path, e)
  {
    assert (order + [e])[..|order|] == order;
  }

  /** Lookups in sequence compose. */
  lemma {:induction false} FillAppend(c: Cache, fs: FileSystem, path: string, a: seq<Entity>, b: seq<Entity>)
    ensures Fill(c, fs, path, a + b) == Fill(Fill(c, fs, path, a), fs, path, b)
    decreases |b|
  {
    if b == [] {
      assert a + b == a;
    } else {
      var b', e := b[..|b| - 1], b[|b| - 1];
      assert a + b == (a + b') + [e];
      assert b == b' + [e];
      FillAppend(c, fs, path, a, b');
      FillSnoc(c, fs, path, a + b', e);
      FillSnoc(Fill(c, fs, path, a), fs, path, b', e);
    }
  }

  /** The probes of lookups in sequence: the second part sees the cache the first part left. */
  lemma {:induction false} ProbeTraceAppend(c: Cache, fs: FileSystem, path: string, a: seq<Entity>, b: seq<Entity>)
    ensures ProbeTrace(c, fs, path, a + b)
         == ProbeTrace(c, fs, path, a) + ProbeTrace(Fill(c, fs, path, a), fs, path, b)
    decreases |b|
  {
    if b == [] {
      assert a + b == a;
    } else {
      var b', e := b[..|b| - 1], b[|b| - 1];
      assert a + b == (a + b') + [e];
      assert b == b' + [e];
      ProbeTraceAppend(c, fs, path, a, b');
      FillAppend(c, fs, path, a, b');
      ProbeTraceSnocBoth(c, fs, path, a, b', e);
    }
  }

  lemma ProbeTraceSnocBoth(c: Cache, fs: FileSystem, path: string, a: seq<Entity>, b: seq<Entity>, e: Entity)
    requires ProbeTrace(c, fs, path, a + b)
          == ProbeTrace(c, fs, path, a) + ProbeTrace(Fill(c, fs, path, a), fs, path, b)
    requires Fill(c, fs, path, a + b) == Fill(Fill(c, fs, path, a), fs, path, b)
    ensures ProbeTrace(c, fs, path, (a + b) + [e])
         == ProbeTrace(c, fs, path, a) + ProbeTrace(Fill(c, fs, path, a), fs, path, b + [e])
  {
    FillSnoc(c, fs, path, a + b, e);
    FillSnoc(Fill(c, fs, path, a), fs, path, b, e);
  }

  /**
    The cache only grows: every earlier entry survives unchanged, and the
    names gained are exactly those looked up.
   */
  lemma {:induction false} FillGrows(c: Cache, fs: FileSystem, path: string, order: seq<Entity>)
    ensures Extends(c, Fill(c, fs, path, order))
    ensures Fill(c, fs, path, order).Keys == c.Keys + Names(order)
    decreases |order|
  {
    if order != [] {
      var front := order[..|order| - 1];
      FillGrows(c, fs, path, front);
      assert order == front + [order[|order| - 1]];
      NamesSnoc(front, order[|order| - 1]);
    }
  }

  lemma NamesSnoc(front: seq<Entity>, e: Entity)
    ensures Names(front + [e]) == Names(front) + {e.name}
  {
    forall n | n in Names(front + [e]) ensures n in Names(front) + {e.name} {
      var x :| x in front + [e] && x.name == n;
      if x != e {
        assert x in front;
      }
    }
    forall n | n in Names(front) ensures n in Names(front + [e]) {
      var x :| x in front && x.name == n;
      assert x in front + [e];
    }
    assert e in front + [e];
  }

  /** A name that is neither cached nor looked up stays out of the cache. */
  lemma {:induction false} FillMisses(c: Cache, fs: FileSystem, path: string, order: seq<Entity>, n: string)
    requires n !in c && forall j :: 0 <= j < |order| ==> order[j].name != n
    ensures n !in Fill(c, fs, path, order)
    decreases |order|
  {
    if order != [] {
      FillMisses(c, fs, path, order[..|order| - 1], n);
    }
  }

  /**
    First write wins: a name not cached beforehand ends up holding the file
    read for its FIRST lookup in `order`, whatever later lookups of the same
    name (under another kind of entity) would have read.
   */
  lemma {:induction false} FillFirstWins(c: Cache, fs: FileSystem, path: string, order: seq<Entity>, i: nat)
    requires i < |order| && order[i].name !in c
    requires forall j :: 0 <= j < i ==> order[j].name != order[i].name
    ensures order[i].name in Fill(c, fs, path, order)
    ensures Fill(c, fs, path, order)[order[i].name] == FileVars(fs, VarsBase(path, order[i]))
    decreases |order|
  {
    var front := order[..|order| - 1];
    var before := Fill(c, fs, path, front);
    assert Fill(c, fs, path, order) == FillStep(before, fs, path, order[|order| - 1]);
    if i == |order| - 1 {
      FillMisses(c, fs, path, front, order[i].name);
    } else {
      assert front[i] == order[i];
      FillFirstWins(c, fs, path, front, i);
      FillStepKeeps(before, fs, path, order[|order| - 1], order[i].name);
    }
  }

  /**
    The cache is keyed by name only: a host that belongs to a group of its
    own name, and whose name is not cached yet, is resolved from that
    group's file under `group_vars`, since the group is looked up first;
    its `host_vars` file is never read.
   */
  lemma SharedNameReadsGroupFile(c: Cache, fs: FileSystem, path: string, h: Entity, k: nat)
    requires h.Host? && h.name !in c
    requires k < |h.groups| && h.groups[k].name == h.name
    ensures h.name in Fill(c, fs, path, TargetLookups(h))
    ensures Fill(c, fs, path, TargetLookups(h))[h.name] == FileVars(fs, Join(Join(path, "group_vars"), h.name))
  {
    var sorted := SortByDepth(h.groups);
    var order := TargetLookups(h);
    SortByDepthPermutes(h.groups);
    assert h.groups[k] in multiset(sorted);
    var i :| 0 <= i < |sorted| && sorted[i] == h.groups[k];
    assert order[i] == Group(sorted[i].name, sorted[i].depth);
    var f := FirstNamed(order, h.name, i);
    assert order[f] == Group(sorted[f].name, sorted[f].depth);
    FillFirstWins(c, fs, path, order, f);
  }

  /** The first position in `order` whose entity is named `n`, given one at or after it. */
  lemma FirstNamed(order: seq<Entity>, n: string, i: nat) returns (f: nat)
    requires i < |order| && order[i].name == n
    ensures f <= i && order[f].name == n
    ensures forall j :: 0 <= j < f ==> order[j].name != n
    decreases i
  {
    if j :| 0 <= j < i && order[j].name == n {
      f := FirstNamed(order, n, j);
    } else {
      f := i;
    }
  }

  lemma FillStepKeeps(c: Cache, fs: FileSystem, path: string, e: Entity, n: string)
    requires n in c
    ensures n in FillStep(c, fs, path, e) && FillStep(c, fs, path, e)[n] == c[n]
  {
  }

  /** Lookups of names that are all cached read nothing and change nothing. */
  lemma {:induction false} CachedLookupsReadNothing(c: Cache, fs: FileSystem, path: string, order: seq<Entity>)
    requires Names(order) <= c.Keys
    ensures Fill(c, fs, path, order) == c
    ensures ProbeTrace(c, fs, path, order) == []
    decreases |order|
  {
    if order != [] {
      var front := order[..|order| - 1];
      assert Names(front) <= Names(order);
      assert order[|order| - 1].name in Names(order);
      CachedLookupsReadNothing(c, fs, path, front);
    }
  }

  // ---- properties of the merge order ----

  lemma {:induction false} LookupOrderNames(es: seq<Entity>, k: nat)
    requires k < |es| && es[k].Host?
    ensures es[k].name in Names(LookupOrder(es))
    ensures forall g :: g in es[k].groups ==> g.name in Names(LookupOrder(es))
    decreases |es|
  {
    var front := es[..|es| - 1];
    var last := es[|es| - 1];
    if k == |es| - 1 {
      var sorted := SortByDepth(last.groups);
      SortByDepthPermutes(last.groups);
      assert TargetLookups(last)[|sorted|] == last;
      forall g | g in last.groups ensures g.name in Names(LookupOrder(es)) {
        assert g in multiset(sorted);
        var i :| 0 <= i < |sorted| && sorted[i] == g;
        assert TargetLookups(last)[i] == Group(g.name, g.depth);
        assert TargetLookups(last)[i] in LookupOrder(es);
      }
    } else {
      assert front[k] == es[k];
      LookupOrderNames(front, k);
    }
  }

  /** The merge result depends only on cache entries for names the targets look up. */
  lemma {:induction false} HostResultsStable(c: Cache, d: Cache, es: seq<Entity>)
    requires Extends(c, d) && Names(LookupOrder(es)) <= c.Keys
    ensures HostResults(c, es) == HostResults(d, es)
    decreases |es|
  {
    if es != [] {
      var front := es[..|es| - 1];
      var e := es[|es| - 1];
      assert Names(LookupOrder(front)) <= Names(LookupOrder(es));
      HostResultsStable(c, d, front);
      if e.Host? {
        LookupOrderNames(es, |es| - 1);
        HostVarsStable(c, d, e);
      }
    }
  }

  lemma HostVarsStable(c: Cache, d: Cache, h: Entity)
    requires h.Host? && Extends(c, d)
    requires h.name in c && forall g :: g in h.groups ==> g.name in c
    ensures HostVars(c, h) == HostVars(d, h)
  {
    var sorted := SortByDepth(h.groups);
    SortByDepthPermutes(h.groups);
    forall i | 0 <= i < |sorted| ensures sorted[i].name in c {
      assert sorted[i] in multiset(h.groups);
    }
    assert GroupSources(c, sorted) == GroupSources(d, sorted);
  }

  /** Targets that include no host look nothing up and resolve to the empty mapping. */
  lemma {:induction false} NoHostsResolveEmpty(c: Cache, es: seq<Entity>)
    requires forall e :: e in es ==> !e.Host?
    ensures LookupOrder(es) == []
    ensures HostResults(c, es) == []
    ensures Aggregate(c, es) == map[]
    decreases |es|
  {
    if es != [] {
      NoHostsResolveEmpty(c, es[..|es| - 1]);
    }
  }

  /** A host's own variables are merged last: every leaf they define is the host's resolved value. */
  lemma HostOwnVarsWin(c: Cache, h: Entity, path: seq<string>, v: Value)
    requires h.Host?
    requires Lookup(Mapping(Cached(c, h.name)), path) == Some(v) && IsLeaf(v)
    ensures Lookup(Mapping(HostVars(c, h)), path) == Some(v)
  {
    var sources := HostSources(c, h);
    MergeAllLaterWins(sources, |sources| - 1, path, v);
  }

  /**
    Groups are merged by ascending depth: a leaf from the group at position
    `i` of the depth-sorted groups reaches the host's result when every group
    after it (each at least as deep) and the host itself leave that place
    open: they define nothing there and hold no scalar or list on the way.
   */
  lemma GroupLeafSurvives(c: Cache, h: Entity, i: nat, path: seq<string>, v: Value)
    requires h.Host? && i < |h.groups|
    requires Lookup(Mapping(Cached(c, SortByDepth(h.groups)[i].name)), path) == Some(v) && IsLeaf(v)
    requires forall j :: i < j < |h.groups| ==> OpenAlong(Cached(c, SortByDepth(h.groups)[j].name), path)
    requires OpenAlong(Cached(c, h.name), path)
    ensures forall j :: i < j < |h.groups| ==> SortByDepth(h.groups)[i].depth <= SortByDepth(h.groups)[j].depth
    ensures Lookup(Mapping(HostVars(c, h)), path) == Some(v)
  {
    var sorted := SortByDepth(h.groups);
    SortByDepthSorted(h.groups);
    var sources := HostSources(c, h);
    assert sources[i] == Cached(c, sorted[i].name);
    forall j | i < j < |sources| ensures OpenAlong(sources[j], path) {
      if j < |sorted| {
        assert sources[j] == Cached(c, sorted[j].name);
      }
    }
    MergeAllLaterWins(sources, i, path, v);
  }

  /**
    The converse of the two lemmas above: every leaf of a host's result is
    the host's own, or else the host leaves the place open and the leaf is
    that of the last group, in depth order, that defines the place.
   */
  lemma HostLeafOrigin(c: Cache, h: Entity, path: seq<string>, v: Value)
    requires h.Host?
    requires Lookup(Mapping(HostVars(c, h)), path) == Some(v) && IsLeaf(v)
    ensures || Lookup(Mapping(Cached(c, h.name)), path) == Some(v)
            || (&& OpenAlong(Cached(c, h.name), path)
                && exists i :: && 0 <= i < |h.groups|
                               && Lookup(Mapping(Cached(c, SortByDepth(h.groups)[i].name)), path) == Some(v)
                               && forall j :: i < j < |h.groups| ==> OpenAlong(Cached(c, SortByDepth(h.groups)[j].name), path))
  {
    var sorted := SortByDepth(h.groups);
    var sources := HostSources(c, h);
    MergeAllLeafOrigin(sources, path, v);
    var i :| LastDefinedAt(sources, i, path, v);
    if i < |sorted| {
      assert sources[i] == Cached(c, sorted[i].name);
      assert sources[|sorted|] == Cached(c, h.name);
      assert OpenAlong(sources[|sorted|], path);
      forall j | i < j < |sorted| ensures OpenAlong(Cached(c, sorted[j].name), path) {
        assert sources[j] == Cached(c, sorted[j].name);
      }
      assert && 0 <= i < |h.groups|
             && Lookup(Mapping(Cached(c, sorted[i].name)), path) == Some(v)
             && forall j :: i < j < |h.groups| ==> OpenAlong(Cached(c, sorted[j].name), path);
      assert OpenAlong(Cached(c, h.name), path);
      assert exists i' :: && 0 <= i' < |h.groups|
                          && Lookup(Mapping(Cached(c, SortByDepth(h.groups)[i'].name)), path) == Some(v)
                          && forall j :: i' < j < |h.groups| ==> OpenAlong(Cached(c, SortByDepth(h.groups)[j].name), path);
    } else {
      assert sources[i] == Cached(c, h.name);
    }
  }

  // ---- resolutions with nothing to read ----

  /** Lookups that find no loadable file keep a cache whose entries are all empty. */
  lemma {:induction false} FillAllEmpty(c: Cache, fs: FileSystem, path: string, order: seq<Entity>)
    requires forall n :: n in c ==> c[n] == map[]
    requires forall e :: e in order ==> FileVars(fs, VarsBase(path, e)) == map[]
    ensures forall n :: n in Fill(c, fs, path, order) ==> Fill(c, fs, path, order)[n] == map[]
    decreases |order|
  {
    if order != [] {
      var front := order[..|order| - 1];
      assert forall e :: e in front ==> e in order;
      assert order[|order| - 1] in order;
      FillAllEmpty(c, fs, path, front);
    }
  }

  /** When every scope reads as empty, every host's result is empty. */
  lemma {:induction false} HostResultsEmpty(c: Cache, es: seq<Entity>)
    requires forall n :: Cached(c, n) == map[]
    ensures forall k :: 0 <= k < |HostResults(c, es)| ==> HostResults(c, es)[k] == map[]
    decreases |es|
  {
    if es != [] {
      var e := es[|es| - 1];
      HostResultsEmpty(c, es[..|es| - 1]);
      if e.Host? {
        var sources := HostSources(c, e);
        forall k | 0 <= k < |sources| ensures sources[k] == map[] {
          if k < |SortByDepth(e.groups)| {
            assert sources[k] == Cached(c, SortByDepth(e.groups)[k].name);
          } else {
            assert sources[k] == Cached(c, e.name);
          }
        }
        MergeAllEmpty(sources);
      }
    }
  }

  /** From an empty scope cache, targets none of whose scopes has a loadable `.yml` or `.yaml` file resolve to `{}`. */
  lemma NoFilesResolveEmpty(fs: FileSystem, path: string, es: seq<Entity>)
    requires forall e :: e in LookupOrder(es) ==>
               !Loadable(fs, VarsBase(path, e) + ".yml") && !Loadable(fs, VarsBase(path, e) + ".yaml")
    ensures Aggregate(Fill(map[], fs, path, LookupOrder(es)), es) == map[]
  {
    var c := Fill(map[], fs, path, LookupOrder(es));
    FillAllEmpty(map[], fs, path, LookupOrder(es));
    assert forall n :: Cached(c, n) == map[];
    HostResultsEmpty(c, es);
    MergeAllEmpty(HostResults(c, es));
  }

  // ---- an end-to-end resolution ----

  /** Root `R` with group `web` {port: 80, tls: false}, group `prod` {tls: true} and host `h1` {port: 8080}. */
  function ExampleFiles(): FileSystem {
    map[
      "R/group_vars/web.yml" := Parsed(Some(map["port" := Scalar("80"), "tls" := Scalar("false")])),
      "R/group_vars/prod.yml" := Parsed(Some(map["tls" := Scalar("true")])),
      "R/host_vars/h1.yml" := Parsed(Some(map["port" := Scalar("8080")]))]
  }

  /** Host `h1`, listing `prod` (depth 2) before `web` (depth 1). */
  function ExampleHost(): Entity {
    Host("h1", [GroupInfo("prod", 2), GroupInfo("web", 1)])
  }

  lemma ExampleLookups()
    ensures LookupOrder([ExampleHost()]) == [Group("web", 1), Group("prod", 2), ExampleHost()]
  {
    var h := ExampleHost();
    assert SortByDepth([GroupInfo("web", 1)]) == [GroupInfo("web", 1)];
    assert SortByDepth(h.groups) == [GroupInfo("web", 1), GroupInfo("prod", 2)];
    assert [h][..0] == [];
  }

  lemma ExampleReadsWeb()
    ensures FileVars(ExampleFiles(), VarsBase("R", Group("web", 1)))
         == map["port" := Scalar("80"), "tls" := Scalar("false")]
  {
    assert Join("R", "group_vars") == "R/group_vars";
    assert VarsBase("R", Group("web", 1)) == "R/group_vars/web";
    assert "R/group_vars/web" + ".yml" == "R/group_vars/web.yml";
    assert Loadable(ExampleFiles(), "R/group_vars/web.yml");
  }

  lemma ExampleReadsProd()
    ensures FileVars(ExampleFiles(), VarsBase("R", Group("prod", 2))) == map["tls" := Scalar("true")]
  {
    assert Join("R", "group_vars") == "R/group_vars";
    assert VarsBase("R", Group("prod", 2)) == "R/group_vars/prod";
    assert "R/group_vars/prod" + ".yml" == "R/group_vars/prod.yml";
    assert Loadable(ExampleFiles(), "R/group_vars/prod.yml");
  }

  lemma ExampleReadsHost()
    ensures FileVars(ExampleFiles(), VarsBase("R", ExampleHost())) == map["port" := Scalar("8080")]
  {
    assert Join("R", "host_vars") == "R/host_vars";
    assert VarsBase("R", ExampleHost()) == "R/host_vars/h1";
    assert "R/host_vars/h1" + ".yml" == "R/host_vars/h1.yml";
    assert Loadable(ExampleFiles(), "R/host_vars/h1.yml");
  }

  lemma ExampleCache()
    ensures Fill(map[], ExampleFiles(), "R", [Group("web", 1), Group("prod", 2), ExampleHost()])
         == map["web" := map["port" := Scalar("80"), "tls" := Scalar("false")],
                "prod" := map["tls" := Scalar("true")],
                "h1" := map["port" := Scalar("8080")]]
  {
    var fs := ExampleFiles();
    var web, prod, own := Group("web", 1), Group("prod", 2), ExampleHost();
    ExampleReadsWeb();
    ExampleReadsProd();
    ExampleReadsHost();
    var order := [web, prod, own];
    assert order[..2] == [web, prod] && order[..2][..1] == [web] && [web][..0] == [];
    assert Fill(map[], fs, "R", [web]) == map["web" := map["port" := Scalar("80"), "tls" := Scalar("false")]];
    assert Fill(map[], fs, "R", [web, prod]) == map["web" := map["port" := Scalar("80"), "tls" := Scalar("false")],
                                                    "prod" := map["tls" := Scalar("true")]];
  }

  /** `prod`'s tls overrides `web`'s. */
  lemma ExampleGroupsMerge()
    ensures MergeAll([map["port" := Scalar("80"), "tls" := Scalar("false")], map["tls" := Scalar("true")]])
         == map["port" := Scalar("80"), "tls" := Scalar("true")]
  {
    var webVars := map["port" := Scalar("80"), "tls" := Scalar("false")];
    var prodVars := map["tls" := Scalar("true")];
    assert [webVars, prodVars][..1] == [webVars] && [webVars][..0] == [];
    MergeEmptyLeft(webVars);
    var both := Merge(webVars, prodVars);
    assert both.Keys == {"port", "tls"};
    assert both["port"] == Scalar("80") && both["tls"] == Scalar("true");
  }

  /** The host's port overrides the groups'. */
  lemma ExampleHostMerge()
    ensures Merge(map["port" := Scalar("80"), "tls" := Scalar("true")], map["port" := Scalar("8080")])
         == map["port" := Scalar("8080"), "tls" := Scalar("true")]
  {
    var all := Merge(map["port" := Scalar("80"), "tls" := Scalar("true")], map["port" := Scalar("8080")]);
    assert all.Keys == {"port", "tls"};
    assert all["port"] == Scalar("8080") && all["tls"] == Scalar("true");
  }

  lemma ExampleMerge(c: Cache)
    requires c == map["web" := map["port" := Scalar("80"), "tls" := Scalar("false")],
                      "prod" := map["tls" := Scalar("true")],
                      "h1" := map["port" := Scalar("8080")]]
    ensures HostVars(c, ExampleHost()) == map["port" := Scalar("8080"), "tls" := Scalar("true")]
  {
    var h := ExampleHost();
    var webVars := map["port" := Scalar("80"), "tls" := Scalar("false")];
    var prodVars := map["tls" := Scalar("true")];
    assert SortByDepth([GroupInfo("web", 1)]) == [GroupInfo("web", 1)];
    assert SortByDepth(h.groups) == [GroupInfo("web", 1), GroupInfo("prod", 2)];
    var sources := HostSources(c, h);
    assert sources == [webVars, prodVars, c["h1"]];
    assert sources[..2] == [webVars, prodVars];
    ExampleGroupsMerge();
    ExampleHostMerge();
  }

  /**
    The end-to-end resolution: `h1` in `web` (depth 1) and `prod` (depth 2)
    resolves to {port: 8080, tls: true}: `prod`'s tls overrides `web`'s,
    and the host's own port overrides the groups'.
   */
  lemma EndToEndExample()
    ensures Aggregate(Fill(map[], ExampleFiles(), "R", LookupOrder([ExampleHost()])), [ExampleHost()])
         == map["port" := Scalar("8080"), "tls" := Scalar("true")]
  {
    var h := ExampleHost();
    ExampleLookups();
    ExampleCache();
    var c := Fill(map[], ExampleFiles(), "R", LookupOrder([h]));
    ExampleMerge(c);
    assert [h][..0] == [];
    assert HostResults(c, [h]) == [HostVars(c, h)];
    assert [HostVars(c, h)][..0] == [];
  }

  /** After a host's group lookups every one of those groups is cached. */
  lemma GroupLookupsCached(c: Cache, fs: FileSystem, path: string, gs: seq<GroupInfo>)
    ensures forall k :: 0 <= k < |gs| ==> gs[k].name in Fill(c, fs, path, GroupLookups(gs))
  {
    var gl := GroupLookups(gs);
    FillGrows(c, fs, path, gl);
    forall k | 0 <= k < |gs| ensures gs[k].name in Fill(c, fs, path, gl) {
      assert gl[k] in gl;
    }
  }

  /** Group sources only read entries that are already cached, so a growing cache leaves them alone. */
  lemma GroupSourcesStable(c: Cache, d: Cache, gs: seq<GroupInfo>)
    requires Extends(c, d)
    requires forall k :: 0 <= k < |gs| ==> gs[k].name in c
    ensures GroupSources(c, gs) == GroupSources(d, gs)
  {
  }
}
