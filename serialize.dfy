/**
 * The sparse serialised form of a schema. Optional keys are `None` when the
 * source leaves them out of the dict; only the properties a schema declares
 * itself are emitted, and the full merged set can be rebuilt from the
 * declaring schemata.
 */
module Serialization {
  import opened SchemaTypes
  import opened Hierarchy

  datatype EdgeDict = EdgeDict(source: string, target: string, caption: seq<string>, labelText: string, directed: bool)

  /** A property is emitted as its record: the property's own serialised form
      belongs to the property component. */
  datatype SchemaDict = SchemaDict(
    labelText: string,
    plural: string,
    schemata: seq<string>,
    extendsNames: seq<string>,
    edge: Option<EdgeDict>,
    featured: Option<seq<string>>,
    required: Option<seq<string>>,
    caption: Option<seq<string>>,
    description: Option<string>,
    isAbstract: Option<bool>,
    hidden: Option<bool>,
    generated: Option<bool>,
    matchable: Option<bool>,
    properties: map<string, Property>)

  /** The properties of `props` that schema `k` declares itself. */
  function OwnProperties(k: Id, props: map<string, Property>): (r: map<string, Property>)
    ensures forall n :: n in r <==> n in props && props[n].owner == k
    ensures forall n | n in r :: r[n] == props[n]
  {
    map n | n in props && props[n].owner == k :: props[n]
  }

  /** The serialiser's loop over the properties, keeping those the schema owns. */
  method OwnEntries(k: Id, props: map<string, Property>) returns (r: map<string, Property>)
    ensures r == OwnProperties(k, props)
  {
    r := map[];
    var todo := props.Keys;
    while todo != {}
      invariant todo <= props.Keys
      invariant r == OwnProperties(k, props - todo)
      decreases todo
    {
      var n :| n in todo;
      if props[n].owner == k {
        r := r[n := props[n]];
      }
      todo := todo - {n};
    }
    assert props - todo == props;
  }

  /** A key that appears only when its flag is set. */
  function FlagKey(b: bool): (r: Option<bool>)
    ensures r.Some? <==> b
    ensures r.Some? ==> r.value
  {
    if b then Some(true) else None
  }

  /** A list that appears only when it is not empty. */
  function ListKey(s: seq<string>): (r: Option<seq<string>>)
    ensures r.Some? <==> |s| > 0
    ensures r.Some? ==> r.value == s
  {
    if |s| > 0 then Some(s) else None
  }

  /** Python truthiness of an optional string: present and not empty. */
  predicate Truthy(s: Option<string>) {
    s.Some? && |s.value| > 0
  }

  /** The edge section: present only when source, target and label are all
      present and not empty. */
  function EdgeKey(d: SchemaDef): (r: Option<EdgeDict>)
    ensures r.Some? <==> Truthy(d.edgeSource) && Truthy(d.edgeTarget) && |d.edgeLabel| > 0
    ensures r.Some? ==> r.value == EdgeDict(d.edgeSource.value, d.edgeTarget.value, d.edgeCaption, d.edgeLabel, d.edgeDirected)
  {
    if Truthy(d.edgeSource) && Truthy(d.edgeTarget) && |d.edgeLabel| > 0 then
      Some(EdgeDict(d.edgeSource.value, d.edgeTarget.value, d.edgeCaption, d.edgeLabel, d.edgeDirected))
    else None
  }

  /** Rebuilding a generated schema's merged properties from the own
      properties of its `schemata`: the names are exactly the names some member
      declares, and each entry is the declaring schema's own entry. */
  lemma OwnPropertiesRebuild(g: Graph, rank: seq<nat>, s: Snapshot, k: Id)
    requires Ranked(g, rank) && Sized(g, s) && k < |g.defs|
    requires CoreOk(g, s) && OwnersOk(g, s) && Generated(g, rank, s, k)
    ensures forall n :: n in s.props[k] <==> exists a :: a in s.schemata[k] && a < |g.defs| && n in OwnProperties(a, s.props[a])
    ensures forall n | n in s.props[k] ::
      var o := s.props[k][n].owner;
      o < |g.defs| && o in s.schemata[k] && n in OwnProperties(o, s.props[o]) && OwnProperties(o, s.props[o])[n] == s.props[k][n]
  {
    assert LocalGen(g, rank, s, k);
    forall n ensures n in s.props[k] <==> exists a :: a in s.schemata[k] && a < |g.defs| && n in OwnProperties(a, s.props[a]) {
      if n in s.props[k] {
        var o := s.props[k][n].owner;
        assert n in OwnProperties(o, s.props[o]);
      }
      if exists a :: a in s.schemata[k] && a < |g.defs| && n in OwnProperties(a, s.props[a]) {
        var a :| a in s.schemata[k] && a < |g.defs| && n in OwnProperties(a, s.props[a]);
        InheritedNamesVisible(g, rank, s, k, a);
      }
    }
  }
}
