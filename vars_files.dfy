/**
  Where a scope's variables live on disk and how one scope's file is read.
  The filesystem and the YAML parser are not modelled; a `FileSystem` map
  stands for both: it says, for each file that exists, what opening and
  parsing it yields.
 */
module VarsFiles {
  import opened Values
  import opened Inventory

  /** The outcome of opening and parsing a file that exists: an open or YAML error the plugin catches, or a document (null or a mapping). */
  datatype FileEntry = Unreadable | Parsed(document: Option<Vars>)

  /** The files that exist, by path; a path that is not a key does not exist. */
  type FileSystem = map<string, FileEntry>

  /** The extensions tried for a vars file, in order. */
  const Extensions: seq<string> := [".yml", ".yaml"]

  /** POSIX path joining of two components: an absolute second component replaces the first. */
  function Join(a: string, b: string): string {
    if |b| > 0 && b[0] == '/' then b
    else if a == [] || a[|a| - 1] == '/' then a + b
    else a + "/" + b
  }

  /** The sub-directory holding a scope's vars: `host_vars` for a host, `group_vars` for anything else. */
  function VarsDir(e: Entity): string {
    if e.Host? then "host_vars" else "group_vars"
  }

  /** The extension-less file name of an entity's vars under the root `path`. */
  function VarsBase(path: string, e: Entity): string {
    Join(Join(path, VarsDir(e)), e.name)
  }

  /** A host's vars come from `<path>/host_vars/<name>`, any other entity's from `<path>/group_vars/<name>`. */
  lemma VarsBaseLayout(path: string, e: Entity)
    requires path != [] && path[|path| - 1] != '/'
    ensures (|e.name| == 0 || e.name[0] != '/') ==>
              VarsBase(path, e) == path + "/" + (if e.Host? then "host_vars" else "group_vars") + "/" + e.name
    ensures |e.name| > 0 && e.name[0] == '/' ==> VarsBase(path, e) == e.name
  {
  }

  /** The file exists and opens and parses without error. */
  predicate Loadable(fs: FileSystem, file: string) {
    file in fs && fs[file].Parsed?
  }

  /** A null document reads as an empty mapping. */
  function DocumentVars(document: Option<Vars>): Vars {
    if document.Some? then document.value else map[]
  }

  /**
    The variables read for the extension-less name `base`: those of
    `base.yml` when it loads, else those of `base.yaml` when it loads, else
    none at all.
   */
  function FileVars(fs: FileSystem, base: string): Vars {
    if Loadable(fs, base + ".yml") then DocumentVars(fs[base + ".yml"].document)
    else if Loadable(fs, base + ".yaml") then DocumentVars(fs[base + ".yaml"].document)
    else map[]
  }

  /** The files probed while reading `base`: `.yaml` is only looked at when `.yml` did not load. */
  function FileProbes(fs: FileSystem, base: string): seq<string> {
    if Loadable(fs, base + ".yml") then [base + ".yml"] else [base + ".yml", base + ".yaml"]
  }
}
