/**
  The vars plugin object: it resolves the variables of the inventory
  targets under one root path, caching the variables of every scope by
  name and the resolved result by root path for the rest of the session.
 */
module VarsPlugin {
  import opened Values
  import opened DeepMerge
  import opened Inventory
  import opened VarsFiles
  import opened Resolution

  // ---- proof steps of the resolution loops ----

  /** One group lookup extends the cache and the probes by that group. */
  lemma GroupStepFill(cStart: Cache, before: Cache, fs: FileSystem, path: string, groups: seq<GroupInfo>, j: nat)
    requires j < |groups|
    requires before == Fill(cStart, fs, path, GroupLookups(groups[..j]))
    ensures FillStep(before, fs, path, Group(groups[j].name, groups[j].depth))
         == Fill(cStart, fs, path, GroupLookups(groups[..j + 1]))
    ensures ProbeTrace(cStart, fs, path, GroupLookups(groups[..j + 1]))
         == ProbeTrace(cStart, fs, path, GroupLookups(groups[..j]))
            + StepProbes(before, fs, path, Group(groups[j].name, groups[j].depth))
  {
    GroupLookupsSnoc(groups, j);
    FillSnoc(cStart, fs, path, GroupLookups(groups[..j]), Group(groups[j].name, groups[j].depth));
  }

  /** One group lookup extends the merged chain by that group's cached variables. */
  lemma GroupStepMerge(cStart: Cache, before: Cache, after: Cache, fs: FileSystem, path: string, groups: seq<GroupInfo>, j: nat)
    requires j < |groups|
    requires before == Fill(cStart, fs, path, GroupLookups(groups[..j]))
    requires Extends(before, after) && groups[j].name in after
    ensures MergeAll(GroupSources(after, groups[..j + 1]))
         == Merge(MergeAll(GroupSources(before, groups[..j])), after[groups[j].name])
  {
    GroupLookupsCached(cStart, fs, path, groups[..j]);
    GroupSourcesStable(before, after, groups[..j]);
    var sources := GroupSources(after, groups[..j]);
    assert GroupSources(after, groups[..j + 1]) == sources + [Cached(after, groups[j].name)];
    MergeAllAppend(sources, Cached(after, groups[j].name));
  }

  /** A host's last lookup, its own name, completes its lookups. */
  lemma HostFinishFill(cStart: Cache, cInner: Cache, fs: FileSystem, path: string, h: Entity)
    requires h.Host?
    requires cInner == Fill(cStart, fs, path, GroupLookups(SortByDepth(h.groups)))
    ensures FillStep(cInner, fs, path, h) == Fill(cStart, fs, path, TargetLookups(h))
    ensures ProbeTrace(cStart, fs, path, TargetLookups(h))
         == ProbeTrace(cStart, fs, path, GroupLookups(SortByDepth(h.groups))) + StepProbes(cInner, fs, path, h)
  {
    FillSnoc(cStart, fs, path, GroupLookups(SortByDepth(h.groups)), h);
  }

  /** A host's own variables close its merge chain. */
  lemma HostFinishMerge(cStart: Cache, cInner: Cache, cNew: Cache, fs: FileSystem, path: string, h: Entity)
    requires h.Host?
    requires cInner == Fill(cStart, fs, path, GroupLookups(SortByDepth(h.groups)))
    requires Extends(cInner, cNew) && h.name in cNew
    ensures HostVars(cNew, h) == Merge(MergeAll(GroupSources(cInner, SortByDepth(h.groups))), cNew[h.name])
  {
    var sorted := SortByDepth(h.groups);
    GroupLookupsCached(cStart, fs, path, sorted);
    GroupSourcesStable(cInner, cNew, sorted);
    MergeAllAppend(GroupSources(cNew, sorted), Cached(cNew, h.name));
  }

  /** One host target extends the cache and the probes by its lookups. */
  lemma HostStepFill(c0: Cache, cStart: Cache, fs: FileSystem, path: string, es: seq<Entity>, i: nat)
    requires i < |es| && es[i].Host?
    requires cStart == Fill(c0, fs, path, LookupOrder(es[..i]))
    ensures Fill(cStart, fs, path, TargetLookups(es[i])) == Fill(c0, fs, path, LookupOrder(es[..i + 1]))
    ensures ProbeTrace(c0, fs, path, LookupOrder(es[..i + 1]))
         == ProbeTrace(c0, fs, path, LookupOrder(es[..i])) + ProbeTrace(cStart, fs, path, TargetLookups(es[i]))
  {
    assert es[..i + 1][..i] == es[..i];
    FillAppend(c0, fs, path, LookupOrder(es[..i]), TargetLookups(es[i]));
    ProbeTraceAppend(c0, fs, path, LookupOrder(es[..i]), TargetLookups(es[i]));
  }

  /** One host target merges its resolved variables into the aggregate. */
  lemma HostStepMerge(c0: Cache, cStart: Cache, cNew: Cache, fs: FileSystem, path: string, es: seq<Entity>, i: nat)
    requires i < |es| && es[i].Host?
    requires cStart == Fill(c0, fs, path, LookupOrder(es[..i]))
    requires cNew == Fill(cStart, fs, path, TargetLookups(es[i]))
    ensures Aggregate(cNew, es[..i + 1]) == Merge(Aggregate(cStart, es[..i]), HostVars(cNew, es[i]))
  {
    assert es[..i + 1][..i] == es[..i];
    FillGrows(c0, fs, path, LookupOrder(es[..i]));
    FillGrows(cStart, fs, path, TargetLookups(es[i]));
    HostResultsStable(cStart, cNew, es[..i]);
    MergeAllAppend(HostResults(cNew, es[..i]), HostVars(cNew, es[i]));
  }

  /** The host loop's invariants survive one group lookup, whether or not the group has variables. */
  lemma GroupStep(c0: Cache, t0: seq<string>, before: Cache, tBefore: seq<string>, mBefore: Vars,
                  after: Cache, tAfter: seq<string>, mAfter: Vars, fs: FileSystem, path: string, groups: seq<GroupInfo>, j: nat)
    requires j < |groups|
    requires before == Fill(c0, fs, path, GroupLookups(groups[..j]))
    requires tBefore == t0 + ProbeTrace(c0, fs, path, GroupLookups(groups[..j]))
    requires mBefore == MergeAll(GroupSources(before, groups[..j]))
    requires after == FillStep(before, fs, path, Group(groups[j].name, groups[j].depth))
    requires tAfter == tBefore + StepProbes(before, fs, path, Group(groups[j].name, groups[j].depth))
    requires Extends(before, after) && groups[j].name in after
    requires mAfter == if after[groups[j].name] != map[] then Merge(mBefore, after[groups[j].name]) else mBefore
    ensures after == Fill(c0, fs, path, GroupLookups(groups[..j + 1]))
    ensures tAfter == t0 + ProbeTrace(c0, fs, path, GroupLookups(groups[..j + 1]))
    ensures mAfter == MergeAll(GroupSources(after, groups[..j + 1]))
  {
    GroupStepFill(c0, before, fs, path, groups, j);
    GroupStepMerge(c0, before, after, fs, path, groups, j);
    MergeEmptyRight(mBefore);
    ConcatAssoc(t0, ProbeTrace(c0, fs, path, GroupLookups(groups[..j])),
                StepProbes(before, fs, path, Group(groups[j].name, groups[j].depth)));
  }

  /**
    Regrouping of probe traces. Dafny proves it unaided; it is a lemma so
    that the proofs above and below can state the one instance they need
    as a fact, instead of asking the solver to find it among large terms,
    which an inline `assert` of the same equation makes too costly.
   */
  lemma ConcatAssoc(a: seq<string>, b: seq<string>, c: seq<string>)
    ensures (a + b) + c == a + (b + c)
  {
  }

  // ---- the loops of get_vars, one pass at a time ----

  /** What the resolution loops carry from one pass to the next: the scope cache, the probes so far, the variables merged so far. */
  datatype Progress = Progress(cache: Cache, probes: seq<string>, merged: Vars)

  /** One pass of the group loop: the group is looked up, and its variables are merged unless there are none. */
  function GroupPass(p: Progress, fs: FileSystem, path: string, g: GroupInfo): Progress {
    var e := Group(g.name, g.depth);
    var c := FillStep(p.cache, fs, path, e);
    Progress(c, p.probes + StepProbes(p.cache, fs, path, e),
             if Cached(c, g.name) != map[] then Merge(p.merged, Cached(c, g.name)) else p.merged)
  }

  function GroupPasses(p: Progress, fs: FileSystem, path: string, gs: seq<GroupInfo>): Progress
    decreases |gs|
  {
    if gs == [] then p
    else GroupPass(GroupPasses(p, fs, path, gs[..|gs| - 1]), fs, path, gs[|gs| - 1])
  }

  /** One pass of the target loop: a host's lookups are made and its variables merged; any other target is skipped. */
  function TargetPass(p: Progress, fs: FileSystem, path: string, e: Entity): Progress {
    var c := Fill(p.cache, fs, path, TargetLookups(e));
    Progress(c, p.probes + ProbeTrace(p.cache, fs, path, TargetLookups(e)),
             if e.Host? then Merge(p.merged, HostVars(c, e)) else p.merged)
  }

  function TargetPasses(p: Progress, fs: FileSystem, path: string, es: seq<Entity>): Progress
    decreases |es|
  {
    if es == [] then p
    else TargetPass(TargetPasses(p, fs, path, es[..|es| - 1]), fs, path, es[|es| - 1])
  }

  /** What the group loop has done after the groups `gs`, stated by the lookup order and the merge chain. */
  function GroupsDone(c0: Cache, t0: seq<string>, fs: FileSystem, path: string, gs: seq<GroupInfo>): Progress {
    var c := Fill(c0, fs, path, GroupLookups(gs));
    Progress(c, t0 + ProbeTrace(c0, fs, path, GroupLookups(gs)), MergeAll(GroupSources(c, gs)))
  }

  /** What the target loop has done after the targets `es`, stated by the lookup order and the aggregate. */
  function TargetsDone(c0: Cache, t0: seq<string>, fs: FileSystem, path: string, es: seq<Entity>): Progress {
    var c := Fill(c0, fs, path, LookupOrder(es));
    Progress(c, t0 + ProbeTrace(c0, fs, path, LookupOrder(es)), Aggregate(c, es))
  }

  lemma GroupPassStep(c0: Cache, t0: seq<string>, fs: FileSystem, path: string, gs: seq<GroupInfo>, j: nat)
    requires j < |gs|
    ensures GroupPass(GroupsDone(c0, t0, fs, path, gs[..j]), fs, path, gs[j]) == GroupsDone(c0, t0, fs, path, gs[..j + 1])
  {
    var p := GroupsDone(c0, t0, fs, path, gs[..j]);
    var q := GroupPass(p, fs, path, gs[j]);
    GroupStep(c0, t0, p.cache, p.probes, p.merged, q.cache, q.probes, q.merged, fs, path, gs, j);
  }

  /** One target extends the lookups, the probes and the aggregate by that target's share. */
  lemma TargetPassStep(c0: Cache, t0: seq<string>, fs: FileSystem, path: string, es: seq<Entity>, i: nat)
    requires i < |es|
    ensures TargetPass(TargetsDone(c0, t0, fs, path, es[..i]), fs, path, es[i]) == TargetsDone(c0, t0, fs, path, es[..i + 1])
  {
    var cStart := Fill(c0, fs, path, LookupOrder(es[..i]));
    if es[i].Host? {
      HostStepFill(c0, cStart, fs, path, es, i);
      HostStepMerge(c0, cStart, Fill(cStart, fs, path, TargetLookups(es[i])), fs, path, es, i);
      ConcatAssoc(t0, ProbeTrace(c0, fs, path, LookupOrder(es[..i])), ProbeTrace(cStart, fs, path, TargetLookups(es[i])));
    } else {
      assert es[..i + 1][..i] == es[..i];
      assert LookupOrder(es[..i + 1]) == LookupOrder(es[..i]);
      assert HostResults(cStart, es[..i + 1]) == HostResults(cStart, es[..i]);
    }
  }

  /**
    Running the group loop over `gs` from an empty merge makes the lookups
    of `gs` in order and merges the groups' cached variables in that order.
   */
  lemma {:induction false} GroupPassesMeetSpec(c0: Cache, t0: seq<string>, fs: FileSystem, path: string, gs: seq<GroupInfo>)
    ensures GroupPasses(Progress(c0, t0, map[]), fs, path, gs) == GroupsDone(c0, t0, fs, path, gs)
    decreases |gs|
  {
    if gs == [] {
      assert GroupLookups(gs) == [];
    } else {
      var j := |gs| - 1;
      GroupPassesMeetSpec(c0, t0, fs, path, gs[..j]);
      GroupPassStep(c0, t0, fs, path, gs, j);
      assert gs[..j + 1] == gs;
    }
  }

  /**
    Running the target loop over `es` from an empty aggregate makes the
    lookups of `es` in order and merges the hosts' results in that order.
   */
  lemma {:induction false} TargetPassesMeetSpec(c0: Cache, t0: seq<string>, fs: FileSystem, path: string, es: seq<Entity>)
    ensures TargetPasses(Progress(c0, t0, map[]), fs, path, es) == TargetsDone(c0, t0, fs, path, es)
    decreases |es|
  {
    if es == [] {
      assert LookupOrder(es) == [];
    } else {
      var i := |es| - 1;
      TargetPassesMeetSpec(c0, t0, fs, path, es[..i]);
      TargetPassStep(c0, t0, fs, path, es, i);
      assert es[..i + 1] == es;
    }
  }

  class VarsModule {
    /** Variables per scope name (host or group), filled on first lookup and never evicted. */
    var entityVarsCache: map<string, Vars>
    /** Resolved variables per root path, filled on first resolution and never evicted. */
    var pathCache: map<string, Vars>
    /** Every file path probed so far, in order: the model's record of filesystem access. */
    ghost var Trace: seq<string>

    constructor ()
      ensures entityVarsCache == map[] && pathCache == map[] && Trace == []
    {
      entityVarsCache := map[];
      pathCache := map[];
      Trace := [];
    }

    /**
      Reads the vars file `varsFileBase` with the first extension that exists
      and loads; a file that exists but raises a caught open or parse error is skipped.
     */
    method GetVarsFromFile(fs: FileSystem, varsFileBase: string) returns (data: Vars, ghost probes: seq<string>)
      ensures data == FileVars(fs, varsFileBase)
      ensures probes == FileProbes(fs, varsFileBase)
    {
      probes := [];
      assert Extensions[0] == ".yml" && Extensions[1] == ".yaml";
      var i := 0;
      while i < |Extensions|
        invariant 0 <= i <= |Extensions|
        invariant forall k :: 0 <= k < i ==> !Loadable(fs, varsFileBase + Extensions[k])
        invariant probes == seq(i, k requires 0 <= k < i => varsFileBase + Extensions[k])
      {
        var varsFile := varsFileBase + Extensions[i];
        probes := probes + [varsFile];
        if varsFile in fs {
          match fs[varsFile]
          case Parsed(document) =>
            return DocumentVars(document), probes;
          case Unreadable =>
            // the error is reported and the next extension is tried
        }
        i := i + 1;
      }
      assert probes == [varsFileBase + ".yml", varsFileBase + ".yaml"];
      data := map[];
    }

    /**
      The variables of one scope, looked up by name only: a cached name is
      answered from the cache without touching the filesystem, whatever the
      root path or the kind of entity; a new name is read from
      `host_vars/<name>` (host) or `group_vars/<name>` (anything else) and cached.
     */
    method GetEntityVars(fs: FileSystem, entity: Entity, path: string) returns (v: Vars)
      modifies this
      ensures pathCache == old(pathCache)
      ensures entity.name in old(entityVarsCache) ==>
                && v == old(entityVarsCache)[entity.name]
                && entityVarsCache == old(entityVarsCache)
                && Trace == old(Trace)
      ensures entity.name !in old(entityVarsCache) ==>
                && v == FileVars(fs, VarsBase(path, entity))
                && entityVarsCache == old(entityVarsCache)[entity.name := v]
                && Trace == old(Trace) + FileProbes(fs, VarsBase(path, entity))
      ensures entityVarsCache == FillStep(old(entityVarsCache), fs, path, entity)
      ensures Trace == old(Trace) + StepProbes(old(entityVarsCache), fs, path, entity)
      ensures entity.name in entityVarsCache && v == entityVarsCache[entity.name]
      ensures Extends(old(entityVarsCache), entityVarsCache)
    {
      if entity.name !in entityVarsCache {
        var varsPath;
        if entity.Host? {
          varsPath := Join(Join(path, "host_vars"), entity.name);
        } else {
          varsPath := Join(Join(path, "group_vars"), entity.name);
        }
        var data, probes := GetVarsFromFile(fs, varsPath);
        entityVarsCache := entityVarsCache[entity.name := data];
        Trace := Trace + probes;
      }
      v := entityVarsCache[entity.name];
    }

    /** One pass of the group loop in get_vars: the group is looked up, and its variables merged unless there are none. */
    method MergeGroup(fs: FileSystem, path: string, group: GroupInfo, mergedVars: Vars) returns (mergedVars': Vars)
      modifies this
      ensures pathCache == old(pathCache)
      ensures Progress(entityVarsCache, Trace, mergedVars')
           == GroupPass(Progress(old(entityVarsCache), old(Trace), mergedVars), fs, path, group)
    {
      var groupVars := GetEntityVars(fs, Group(group.name, group.depth), path);
      mergedVars' := mergedVars;
      if groupVars != map[] {
        mergedVars' := Merge(mergedVars, groupVars);
      }
    }

    /**
      The loop over a host's sorted groups in get_vars: each group is looked
      up in order, and its variables are merged unless there are none.
     */
    method MergeGroups(fs: FileSystem, path: string, groups: seq<GroupInfo>) returns (mergedVars: Vars)
      modifies this
      ensures pathCache == old(pathCache)
      ensures entityVarsCache == Fill(old(entityVarsCache), fs, path, GroupLookups(groups))
      ensures Trace == old(Trace) + ProbeTrace(old(entityVarsCache), fs, path, GroupLookups(groups))
      ensures mergedVars == MergeAll(GroupSources(entityVarsCache, groups))
    {
      ghost var start := Progress(entityVarsCache, Trace, map[]);
      mergedVars := map[];
      var j := 0;
      while j < |groups|
        invariant 0 <= j <= |groups|
        invariant pathCache == old(pathCache)
        invariant Progress(entityVarsCache, Trace, mergedVars) == GroupPasses(start, fs, path, groups[..j])
      {
        mergedVars := MergeGroup(fs, path, groups[j], mergedVars);
        assert groups[..j + 1][..j] == groups[..j];
        j := j + 1;
      }
      assert groups[..|groups|] == groups;
      GroupPassesMeetSpec(start.cache, start.probes, fs, path, groups);
    }

    /**
      The variables of one host: its groups by ascending depth, then its own
      variables merged last so that they override the groups'.
     */
    method MergeHostVars(fs: FileSystem, path: string, host: Entity) returns (mergedVars: Vars)
      requires host.Host?
      modifies this
      ensures pathCache == old(pathCache)
      ensures entityVarsCache == Fill(old(entityVarsCache), fs, path, TargetLookups(host))
      ensures Trace == old(Trace) + ProbeTrace(old(entityVarsCache), fs, path, TargetLookups(host))
      ensures mergedVars == HostVars(entityVarsCache, host)
    {
      var groups := SortByDepth(host.groups);
      mergedVars := MergeGroups(fs, path, groups);
      ghost var cInner := entityVarsCache;
      var hostVars := GetEntityVars(fs, host, path);
      mergedVars := Merge(mergedVars, hostVars);
      HostFinishFill(old(entityVarsCache), cInner, fs, path, host);
      HostFinishMerge(old(entityVarsCache), cInner, entityVarsCache, fs, path, host);
      ConcatAssoc(old(Trace), ProbeTrace(old(entityVarsCache), fs, path, GroupLookups(groups)),
                  StepProbes(cInner, fs, path, host));
    }

    /** One pass of the loop in get_vars: a host target is merged into `data`, any other target is skipped. */
    method ResolveTarget(fs: FileSystem, path: string, entity: Entity, data: Vars) returns (data': Vars)
      modifies this
      ensures pathCache == old(pathCache)
      ensures Progress(entityVarsCache, Trace, data') == TargetPass(Progress(old(entityVarsCache), old(Trace), data), fs, path, entity)
    {
      data' := data;
      if entity.Host? {
        var mergedVars := MergeHostVars(fs, path, entity);
        data' := Merge(data, mergedVars);
      }
    }

    /** The loop over the targets in get_vars: every target in order, host targets merged into the aggregate. */
    method ResolveTargets(fs: FileSystem, path: string, es: seq<Entity>) returns (data: Vars)
      modifies this
      ensures pathCache == old(pathCache)
      ensures entityVarsCache == Fill(old(entityVarsCache), fs, path, LookupOrder(es))
      ensures Trace == old(Trace) + ProbeTrace(old(entityVarsCache), fs, path, LookupOrder(es))
      ensures data == Aggregate(entityVarsCache, es)
    {
      ghost var start := Progress(entityVarsCache, Trace, map[]);
      data := map[];
      var i := 0;
      while i < |es|
        invariant 0 <= i <= |es|
        invariant pathCache == old(pathCache)
        invariant Progress(entityVarsCache, Trace, data) == TargetPasses(start, fs, path, es[..i])
      {
        data := ResolveTarget(fs, path, es[i], data);
        assert es[..i + 1][..i] == es[..i];
        i := i + 1;
      }
      assert es[..|es|] == es;
      TargetPassesMeetSpec(start.cache, start.probes, fs, path, es);
    }

    /**
      Resolves the variables of `entities` under the root `path`. A path
      resolved before is answered from the cache, with no lookups at all,
      whatever the targets are this time. Otherwise every host target merges
      its groups by ascending depth and its own variables last, the hosts'
      results are merged in target order, and the aggregate is cached.
     */
    method GetVars(fs: FileSystem, path: string, entities: Targets) returns (data: Vars)
      modifies this
      ensures path in old(pathCache) ==>
                && data == old(pathCache)[path]
                && pathCache == old(pathCache)
                && entityVarsCache == old(entityVarsCache)
                && Trace == old(Trace)
      ensures path !in old(pathCache) ==>
                && pathCache == old(pathCache)[path := data]
                && Extends(old(entityVarsCache), entityVarsCache)
                && entityVarsCache == Fill(old(entityVarsCache), fs, path, LookupOrder(Normalize(entities)))
                && Trace == old(Trace) + ProbeTrace(old(entityVarsCache), fs, path, LookupOrder(Normalize(entities)))
                && data == Aggregate(entityVarsCache, Normalize(entities))
    {
      if path in pathCache {
        return pathCache[path];
      }
      var es := Normalize(entities);
      ghost var c0 := entityVarsCache;
      data := ResolveTargets(fs, path, es);
      FillGrows(c0, fs, path, LookupOrder(es));
      pathCache := pathCache[path := data];
    }
  }

  /**
    A fresh plugin asked twice about the same root path: the first call
    resolves `first` from the files, probing each file it needs, and the
    second returns that same result without probing any file, whatever
    `second` names, because the result is cached by path only.
   */
  method ResolveTwice(fs: FileSystem, path: string, first: Targets, second: Targets)
    returns (a: Vars, b: Vars, ghost probed: seq<string>, ghost reprobed: seq<string>)
    ensures a == Aggregate(Fill(map[], fs, path, LookupOrder(Normalize(first))), Normalize(first))
    ensures probed == ProbeTrace(map[], fs, path, LookupOrder(Normalize(first)))
    ensures b == a && reprobed == []
  {
    var plugin := new VarsModule();
    a := plugin.GetVars(fs, path, first);
    probed := plugin.Trace;
    b := plugin.GetVars(fs, path, second);
    reprobed := plugin.Trace[|probed|..];
  }
}
