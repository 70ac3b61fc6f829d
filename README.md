# merge_group_vars: a verified model of the vars plugin

The Ansible vars plugin `merge_group_vars` works out the variables of the
inventory targets under a root path. For every host target it:

- sorts the host's groups by ascending depth;
- reads each group's `group_vars/<name>.yml` (or `.yaml`) file and
  deep-merges it into a running mapping, skipping groups with no variables;
- merges the host's own `host_vars/<name>` file last;
- merges the host's result into one aggregate, in target order.

Two session caches avoid repeated reads, and neither ever evicts an entry:

- `entity_vars_cache` holds the variables of each scope. It is keyed by
  name only, so a group and a host with the same name share one entry.
- `path_cache` holds the aggregate for each root path. It is keyed by
  path only, so a second call for the same path returns the first result
  whatever targets it names.

## How the model is built

- **`Values`** defines YAML values: mappings, lists and opaque scalars. It
  also names a place inside a nested mapping by a key path (`Lookup`,
  `OpenAlong`).
- **`DeepMerge`** defines the imported `merge_hash` in the mode the plugin
  uses: recursive, with lists replaced. It is the assumed contract, written
  as a definition, with lemmas about precedence.
- **`Inventory`** covers hosts, groups and the single-or-list target
  argument. `Inventory.SortByDepth` is Python's stable `sorted`: groups of
  equal depth keep the order the host lists them in (`SortByDepthStable`).
- **`VarsFiles`** covers where a scope's file lives and which file is read.
  The filesystem and the YAML parser are a `FileSystem` map. For each
  existing path it gives either "raises an error the plugin catches" or the parsed
  document, which is null or a mapping.
- **`Resolution`** holds the declarative account of one resolution:
  - the order of lookups (`LookupOrder`);
  - the cache they leave (`Fill`, where the first write wins);
  - the files they probe (`ProbeTrace`);
  - the merge chain they produce (`HostVars`, `Aggregate`).
- **`VarsPlugin`** holds `class VarsModule`:
  - the fields `entityVarsCache` and `pathCache`;
  - a ghost `Trace` that records every file path probed;
  - methods that follow the Python loops step by step, each proved against
    the `Resolution` functions. `Progress` folds (`GroupPasses`,
    `TargetPasses`) serve as the loop invariants.

## Model

| member | source | states |
|---|---|---|
| VarsPlugin.VarsModule.constructor | plugins/vars/merge_group_vars.py:19-22 | A new plugin has both caches empty and has probed no file. |
| VarsPlugin.VarsModule.GetVarsFromFile | plugins/vars/merge_group_vars.py:24-35 | The result comes from `<base>.yml` when that file exists and loads, else from `<base>.yaml` when it loads, else it is `{}`. A null document gives `{}`, and a file that raises one of the errors the plugin catches (`yaml.YAMLError`, `IOError`) falls through to the next extension. `.yml` is probed first; `.yaml` is probed only when `.yml` did not load. No state changes. |
| VarsPlugin.VarsModule.GetEntityVars | plugins/vars/merge_group_vars.py:37-45 | On a hit by name, it returns the stored mapping, probes nothing and leaves both caches unchanged, whatever the path or the entity kind. On a miss, it reads `<path>/host_vars/<name>` for a host and `<path>/group_vars/<name>` otherwise, then stores the result under the name. The cache only gains entries, and `pathCache` is untouched. |
| VarsPlugin.VarsModule.MergeGroup | plugins/vars/merge_group_vars.py:69-71 | One group pass: the group is looked up. Its variables are merged into `merged_vars` only when they are non-empty, and otherwise `merged_vars` is unchanged. |
| VarsPlugin.VarsModule.MergeGroups | plugins/vars/merge_group_vars.py:67-71 | After the group loop, the cache equals the first-write-wins fill over the groups in loop order, and the probes are exactly those of the uncached names. The merged result is the left fold of the groups' cached variables in that order. |
| VarsPlugin.VarsModule.MergeHostVars | plugins/vars/merge_group_vars.py:63-75 | A host's result is its groups' variables merged in ascending depth, then its own variables merged last. The cache and the probes are those of exactly these lookups. |
| VarsPlugin.VarsModule.ResolveTarget | plugins/vars/merge_group_vars.py:60-78 | One target pass: a host's result is merged into `data`, and a non-host target changes nothing. |
| VarsPlugin.VarsModule.ResolveTargets | plugins/vars/merge_group_vars.py:55-78 | Starting from `data = {}`, the result is the merge of the hosts' results in target order. The cache and the probes are those of every host's lookups, taken in order. |
| VarsPlugin.VarsModule.GetVars | plugins/vars/merge_group_vars.py:47-81 | When `path` is cached, it returns the stored aggregate, probes nothing and changes neither cache, whatever the targets. Otherwise it normalises a single target to a list, stores the computed aggregate under `path` only, and `entityVarsCache` only gains entries (existing entries are never overwritten). |
| VarsPlugin.ResolveTwice | plugins/vars/merge_group_vars.py:50-52 | Two calls on a fresh plugin with the same path return the same result. The second call probes no file, even when it names other targets. |
| VarsPlugin.GroupPassesMeetSpec | plugins/vars/merge_group_vars.py:67-71 | Running the group loop pass by pass (empty groups skipped) gives the declarative cache, probes and merge chain. |
| VarsPlugin.TargetPassesMeetSpec | plugins/vars/merge_group_vars.py:60-78 | Running the target loop pass by pass gives the declarative cache, probes and aggregate. |
| Inventory.SortByDepthSorted | plugins/vars/merge_group_vars.py:66 | The groups are sorted into ascending depth. |
| Inventory.SortByDepthPermutes | plugins/vars/merge_group_vars.py:66 | The sorted groups are a permutation of the host's groups. |
| Inventory.SortByDepthStable | plugins/vars/merge_group_vars.py:66 | Groups of equal depth keep the order the host lists them in, as Python's stable `sorted` does. |
| Inventory.DepthOrderExample | plugins/vars/merge_group_vars.py:66 | Groups at depths 2, 0, 1 are merged in the order depth 0, 1, 2. |
| VarsFiles.VarsBaseLayout | plugins/vars/merge_group_vars.py:40-43 | For a non-empty root path without a trailing slash, a host reads from `<path>/host_vars/<name>` and any other entity from `<path>/group_vars/<name>`. An absolute name replaces the prefix, as `os.path.join` does. |
| DeepMerge.Merge | plugins/vars/merge_group_vars.py:4 | The keys of a merge are the union of the two sides' keys. |
| DeepMerge.MergeEmptyRight | plugins/vars/merge_group_vars.py:70-71 | Merging `{}` changes nothing, so skipping an empty group gives the same result as merging it. |
| DeepMerge.MergeEmptyLeft | plugins/vars/merge_group_vars.py:4 | Merging onto `{}` yields the overlay. |
| DeepMerge.MergeIdempotent | plugins/vars/merge_group_vars.py:4 | Merging a mapping onto itself yields the same mapping. |
| DeepMerge.OverlayLeafWins | plugins/vars/merge_group_vars.py:75 | Wherever the overlay holds a scalar or a list, the merge holds that same value, at any nesting depth. |
| DeepMerge.BaseKeptWhereOpen | plugins/vars/merge_group_vars.py:71 | Wherever the overlay leaves a place undefined, without a non-mapping value in the way, the base's value survives. |
| DeepMerge.MergeLeafOrigin | plugins/vars/merge_group_vars.py:4 | Every leaf of a merge is the overlay's leaf at that place, or the base's leaf where the overlay leaves the place open. |
| DeepMerge.MergeAllAppend | plugins/vars/merge_group_vars.py:67-71 | Folding one more source is one more merge step. |
| DeepMerge.MergeAllLaterWins | plugins/vars/merge_group_vars.py:67-75 | In a merge chain, a leaf of source `i` survives when every later source leaves its place open, so later sources take precedence. |
| DeepMerge.MergeAllLeafOrigin | plugins/vars/merge_group_vars.py:67-75 | The converse: every leaf of a merge chain is the leaf of some source at that place, and every later source leaves the place open. The result is therefore the last source that defines the place. |
| DeepMerge.LastDefinedAtIsLast | plugins/vars/merge_group_vars.py:67-75 | When source `i` holds the leaf and every later source leaves the place open, no later source defines anything at that place: source `i` is the last one that does. |
| DeepMerge.MergeAllEmpty | plugins/vars/merge_group_vars.py:63-71 | A chain of empty sources merges to `{}`. |
| DeepMerge.NestedMergeExample | plugins/vars/merge_group_vars.py:4 | `{a: {x: 1, y: 2}}` merged with `{a: {y: 3, z: 4}}` is `{a: {x: 1, y: 3, z: 4}}`. |
| DeepMerge.ListReplacedExample | plugins/vars/merge_group_vars.py:4 | `{a: [1, 2]}` merged with `{a: [3]}` is `{a: [3]}`: lists are replaced. |
| Resolution.FillGrows | plugins/vars/merge_group_vars.py:39-45 | Lookups only add entries to the scope cache, never overwrite one, and add exactly the names looked up. |
| Resolution.FillFirstWins | plugins/vars/merge_group_vars.py:39-45 | A name holds the file read at its first lookup, whatever later lookups of the same name would have read. |
| Resolution.SharedNameReadsGroupFile | plugins/vars/merge_group_vars.py:39-45 | A host whose name is not cached yet and that belongs to a group of its own name (among any other groups) gets that group's `group_vars/<name>` file as its own variables. A name already cached, for example under another root path, keeps its cached variables instead. |
| Resolution.CachedLookupsReadNothing | plugins/vars/merge_group_vars.py:39-45 | Lookups of names already cached probe no file and leave the cache unchanged. |
| Resolution.LookupOrderNames | plugins/vars/merge_group_vars.py:60-75 | Every host target, and each of its groups, is looked up. |
| Resolution.HostResultsStable | plugins/vars/merge_group_vars.py:44-45 | Lookups made for later targets do not change the results of earlier hosts. |
| Resolution.HostVarsStable | plugins/vars/merge_group_vars.py:44-45 | Once a host's scopes are cached, further lookups do not change its result. |
| Resolution.NoHostsResolveEmpty | plugins/vars/merge_group_vars.py:55-61 | Targets that contain no host make no lookups and aggregate to `{}`, which `GetVars` then caches. |
| Resolution.HostOwnVarsWin | plugins/vars/merge_group_vars.py:73-75 | Every scalar or list in the host's own variables is in the host's result: host vars win every leaf conflict with its groups. |
| Resolution.GroupLeafSurvives | plugins/vars/merge_group_vars.py:65-71 | A group's leaf reaches the host's result when every later group in depth order, and the host itself, leave that place open: they define nothing there and hold no scalar or list on the way to it. The groups after it are at least as deep. |
| Resolution.HostLeafOrigin | plugins/vars/merge_group_vars.py:65-75 | Every leaf of a host's result is the host's own leaf there. Otherwise the host leaves the place open, and the leaf is that of the last group, in depth order, that defines the place. |
| Resolution.NoFilesResolveEmpty | plugins/vars/merge_group_vars.py:26-35 | On a fresh plugin (empty scope cache), targets none of whose scopes has a loadable `.yml` or `.yaml` file resolve to `{}`. A name already cached under another root path would keep its earlier variables instead. |
| Resolution.EndToEndExample | plugins/vars/merge_group_vars.py:60-78 | Under root `R`, `web` (depth 1) defines `{port: 80, tls: false}`, `prod` (depth 2) defines `{tls: true}` and host `h1` defines `{port: 8080}`. With `h1` listing `prod` first, `h1` resolves to `{port: 8080, tls: true}`. |

## Left out

- The filesystem and YAML parsing (`os.path.exists`, `open`, `yaml.safe_load`) are a `FileSystem` parameter: a map from path to "raises a caught open or parse error" or to the parsed document. The `Trace` field stands for the plugin's file access.
- The `print` of a read error is a logging side effect and is not modelled.
- The `BaseVarsPlugin` `__init__` and `get_vars` super calls, and the unused `loader` and `cache` parameters, are not modelled.
- The body of Ansible's `merge_hash` is not part of this model. `DeepMerge.Merge` is its assumed behaviour in the default mode (recursive, lists replaced). The other modes are never used by the plugin.
- VarsPlugin.VarsModule.GetVarsFromFile: `Unreadable` stands only for the errors the plugin catches, `yaml.YAMLError` and `IOError`. Other errors, such as a `UnicodeDecodeError` from a file that is not valid text, escape `get_vars` in the plugin: `path_cache` is not written and the scope entries already cached stay. Those errors are not modelled. Mapping keys are strings only: YAML integer, boolean and null keys are not modelled, nor is Python's merging of keys that compare equal (`1 == True`). YAML documents whose top level is not a mapping (a list, or a non-null scalar) are not modelled, and neither is the truthiness test such a value would meet in `if group_vars:`. Scalars are opaque strings, so floats and booleans get no special meaning.
- Ansible's `Host` and `Group` classes are reduced to a name, a depth and the host's group list. `get_groups()` is the host's `groups` sequence as given.
- `isinstance(entities, list)` is modelled as a choice between a single target and a list of targets. Other sequence types, which Python would wrap as a single target, are not distinguished.
- `os.path.join(path, 'host_vars', name)` (and its `group_vars` twin) is modelled as two nested two-component `Join`s, which is the same thing because `posixpath.join` folds left. Only the absolute-component rule and the separator rule are kept.
- `get_vars` is split into `GetVars`, `ResolveTargets`, `ResolveTarget`, `MergeHostVars`, `MergeGroups` and `MergeGroup`. Together they run the same steps in the same order as the single Python function.
- Concurrency is not modelled: the plugin is single-threaded and its caches have no locking.
