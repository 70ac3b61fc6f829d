/**
  Variable values as a YAML document hands them to the vars plugin: nested
  mappings, sequences and opaque scalars, plus a way to name one place in a
  nested mapping by the keys that lead to it.
 */
module Values {

  datatype Option<+T> = None | Some(value: T)

  /** A YAML value. Every scalar (string, number, boolean, null) is an opaque atom. */
  datatype Value =
    | Mapping(entries: map<string, Value>)
    | List(items: seq<Value>)
    | Scalar(text: string)

  /** The variables of one scope: a mapping from variable name to value. */
  type Vars = map<string, Value>

  /** A leaf is any value that deep merging does not descend into. */
  predicate IsLeaf(v: Value) {
    !v.Mapping?
  }

  /** The value reached from `v` by following the keys of `path`, if there is one. */
  function Lookup(v: Value, path: seq<string>): Option<Value>
    decreases |path|
  {
    if path == [] then Some(v)
    else if v.Mapping? && path[0] in v.entries then Lookup(v.entries[path[0]], path[1..])
    else None
  }

  /**
    The mapping `o` leaves the place `path` open: walking `path` through `o`
    runs off a mapping before the end, never meeting a non-mapping value
    on the way and never reaching `path` itself.
   */
  predicate OpenAlong(o: Vars, path: seq<string>)
    decreases |path|
  {
    && path != []
    && (|| path[0] !in o
        || (&& |path| > 1
            && o[path[0]].Mapping?
            && OpenAlong(o[path[0]].entries, path[1..])))
  }

  /** A mapping that leaves `path` open does not define it. */
  lemma {:induction false} OpenAlongUndefined(o: Vars, path: seq<string>)
    requires OpenAlong(o, path)
    ensures Lookup(Mapping(o), path) == None
    decreases |path|
  {
    var k := path[0];
    if k in o {
      OpenAlongUndefined(o[k].entries, path[1..]);
    }
  }
}
