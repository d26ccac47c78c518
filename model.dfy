/**
 * The schemata of a model and the operations of `Schema` on them. The model
 * is an arena: schema `k` is the `k`-th entry of every field, a schema
 * reference is its id, and the name index resolves names to ids. The fields
 * that construction fixes live in `graph`; the ones hierarchy resolution and
 * later steps update are the sequences below.
 */
module SchemaModel {
  import opened SchemaTypes
  import opened Hierarchy
  import opened PropertyMerge
  import opened Validation
  import opened NameOrder
  import opened Serialization
  import opened Generation

  /** What `is_a` accepts: a schema name, or a schema itself. */
  datatype SchemaRef = ByName(name: string) | BySchema(id: Id)

  /** The first name of `wanted`, in order, that `props` lacks. */
  method FirstMissing(wanted: seq<string>, props: map<string, Property>) returns (r: Option<string>)
    ensures r.None? <==> forall n | n in wanted :: n in props
    ensures r.Some? ==> FirstAbsent(wanted, props, r.value)
  {
    var j := 0;
    while j < |wanted|
      invariant 0 <= j <= |wanted|
      invariant forall l | 0 <= l < j :: wanted[l] in props
    {
      if wanted[j] !in props {
        return Some(wanted[j]);
      }
      j := j + 1;
    }
    return None;
  }

  /** Schema names are unique. */
  predicate Distinct(specs: seq<(string, SchemaSpec)>) {
    forall j, k | 0 <= j < k < |specs| :: specs[j].0 != specs[k].0
  }

  /** The definitions of a model and its name index. */
  function GraphOf(specs: seq<(string, SchemaSpec)>): (g: Graph)
    requires Distinct(specs)
    ensures |g.defs| == |specs| && Indexed(g) && EdgesOk(g)
    ensures forall k | 0 <= k < |specs| :: g.defs[k] == Define(specs[k].0, specs[k].1)
  {
    var defs := seq(|specs|, k requires 0 <= k < |specs| => Define(specs[k].0, specs[k].1));
    var index := map k | 0 <= k < |specs| :: specs[k].0 := k;
    var g := Graph(defs, index);
    assert Indexed(g) by {
      forall n | n in index ensures index[n] < |defs| && defs[index[n]].name == n {
        var l :| 0 <= l < |specs| && specs[l].0 == n;
        assert index[n] == l;
      }
    }
    g
  }

  /** The hierarchy fields of freshly constructed schemata: nothing inherited
      or resolved, each schema its own only ancestor. */
  function Initial(specs: seq<(string, SchemaSpec)>, props: seq<map<string, Property>>): Snapshot {
    Snapshot(props,
      seq(|specs|, _ => {}),
      seq(|specs|, k => {k}),
      seq(|specs|, k requires 0 <= k < |specs| => {specs[k].0}),
      seq(|specs|, _ => {}))
  }

  /** The freshly constructed state meets every invariant. */
  lemma InitialValid(specs: seq<(string, SchemaSpec)>, rank: seq<nat>, props: seq<map<string, Property>>)
    requires Distinct(specs) && |props| == |specs|
    requires forall l | 0 <= l < |specs| ::
      && props[l].Keys == specs[l].1.properties.Keys
      && forall n | n in props[l] :: props[l][n] == Property(l, n, specs[l].1.properties[n], false)
    ensures Sized(GraphOf(specs), Initial(specs, props))
    ensures CoreOk(GraphOf(specs), Initial(specs, props))
    ensures OwnersOk(GraphOf(specs), Initial(specs, props))
    ensures SoundOk(GraphOf(specs), rank, Initial(specs, props))
  {
    InitialCoreOk(specs, props);
    InitialOwnersOk(specs, props);
    InitialSoundOk(specs, rank, props);
  }

  lemma InitialCoreOk(specs: seq<(string, SchemaSpec)>, props: seq<map<string, Property>>)
    requires Distinct(specs) && |props| == |specs|
    ensures Sized(GraphOf(specs), Initial(specs, props)) && CoreOk(GraphOf(specs), Initial(specs, props))
  {
    NamesInitial(GraphOf(specs), specs, props);
  }

  /** Each fresh schema's `names` is its own name, the name of its `schemata`. */
  lemma NamesInitial(g: Graph, specs: seq<(string, SchemaSpec)>, props: seq<map<string, Property>>)
    requires |g.defs| == |specs| && |props| == |specs|
    requires forall k | 0 <= k < |specs| :: g.defs[k].name == specs[k].0
    ensures Sized(g, Initial(specs, props)) && CoreOk(g, Initial(specs, props))
  {
    var s := Initial(specs, props);
    forall j | 0 <= j < |specs| ensures s.names[j] == NamesOf(g, s.schemata[j]) {
      assert s.schemata[j] == {j};
      assert NamesOf(g, {j}) == {g.defs[j].name};
    }
  }

  lemma InitialOwnersOk(specs: seq<(string, SchemaSpec)>, props: seq<map<string, Property>>)
    requires Distinct(specs) && |props| == |specs|
    requires forall l | 0 <= l < |specs| ::
      forall n | n in props[l] :: props[l][n].name == n && props[l][n].owner == l
    ensures Sized(GraphOf(specs), Initial(specs, props)) && OwnersOk(GraphOf(specs), Initial(specs, props))
  {
  }

  lemma InitialSoundOk(specs: seq<(string, SchemaSpec)>, rank: seq<nat>, props: seq<map<string, Property>>)
    requires Distinct(specs) && |props| == |specs|
    ensures Sized(GraphOf(specs), Initial(specs, props)) && SoundOk(GraphOf(specs), rank, Initial(specs, props))
  {
  }

  /** Recorded parents are schemata of the model: they are resolved names. */
  lemma ParentsInModel(g: Graph, s: Snapshot, k: Id)
    requires Indexed(g) && Sized(g, s) && k < |g.defs| && CoreOk(g, s)
    ensures forall p | p in s.parents[k] :: p < |g.defs|
  {
    forall p | p in s.parents[k] ensures p < |g.defs| {
      ParentPrefixMember(g, k, |g.defs[k].extendsNames|, p);
    }
  }

  /** The stub property `_add_reverse` creates on schema `i` for the reverse
      side of `other`: an entity-typed property pointing back at `other`. */
  function ReverseStub(g: Graph, i: Id, name: string, data: ReverseSpec, other: Property): (p: Property)
    requires other.owner < |g.defs|
    ensures p.owner == i && p.name == name && p.stub
    ensures p.spec.typeName == Some(EntityTypeName)
    ensures p.spec.reverse == Some(other.name) && p.spec.range == Some(g.defs[other.owner].name)
    ensures p.spec.labelText == data.labelText
    ensures p.spec.hidden == (if data.hidden.Some? then data.hidden.value else other.spec.hidden)
  {
    Property(i, name,
      PropertySpec(data.labelText, Some(EntityTypeName), Some(other.name), Some(g.defs[other.owner].name),
                   data.hidden.GetOr(other.spec.hidden)),
      true)
  }

  /** Adding a property a schema declares itself, under a name it does not
      hold yet, keeps every entry at its declaring schema. */
  lemma AddOwnKeepsOwners(g: Graph, s: Snapshot, i: Id, prop: Property)
    requires Sized(g, s) && i < |g.defs| && i in s.schemata[i] && OwnersOk(g, s)
    requires prop.owner == i && prop.name !in s.props[i]
    ensures OwnersOk(g, s.(props := s.props[i := s.props[i][prop.name := prop]]))
  {
    var tp: seq<map<string, Property>> := s.props[i := s.props[i][prop.name := prop]];
    forall k: Id, n: string | 0 <= k < |g.defs| && n in tp[k]
      ensures tp[k][n].name == n && tp[k][n].owner < |g.defs| && tp[k][n].owner in s.schemata[k]
      ensures n in tp[tp[k][n].owner] && tp[tp[k][n].owner][n] == tp[k][n]
    {
      if k != i || n != prop.name {
        AddOwnEntry(g, s, i, prop, k, n);
      }
    }
  }

  /** One entry of `AddOwnKeepsOwners`: an entry other than the added one keeps
      its declaring schema's entry. */
  lemma AddOwnEntry(g: Graph, s: Snapshot, i: Id, prop: Property, k: Id, n: string)
    requires Sized(g, s) && i < |g.defs| && k < |g.defs|
    requires prop.name !in s.props[i] && (k != i || n != prop.name)
    requires n in s.props[k] || (k == i && n in s.props[i][prop.name := prop])
    requires n in s.props[k] ==>
      var e := s.props[k][n];
      e.name == n && e.owner < |g.defs| && e.owner in s.schemata[k] && n in s.props[e.owner] && s.props[e.owner][n] == e
    ensures
      var tp := s.props[i := s.props[i][prop.name := prop]];
      && n in tp[k] && tp[k][n] == s.props[k][n]
      && n in tp[tp[k][n].owner] && tp[tp[k][n].owner][n] == tp[k][n]
  {
  }

  /** The schemata a matchable schema can be compared with: the matchable
      members of its `schemata` and `descendants`; none when it is not
      matchable itself. */
  function MatchableOf(g: Graph, s: Snapshot, i: Id): (r: set<Id>)
    requires Sized(g, s) && i < |g.defs|
    ensures !g.defs[i].matchable ==> r == {}
    ensures forall x :: x in r <==>
      g.defs[i].matchable && (x in s.schemata[i] || x in s.descendants[i]) && x < |g.defs| && g.defs[x].matchable
  {
    if g.defs[i].matchable then
      set x | x in s.schemata[i] + s.descendants[i] && x < |g.defs| && g.defs[x].matchable
    else {}
  }

  /** Matching is symmetric: an ancestor matches its descendant exactly when
      the descendant matches it, because `descendants` inverts `schemata`. */
  lemma MatchableSymmetric(g: Graph, s: Snapshot, i: Id, x: Id)
    requires Sized(g, s) && CoreOk(g, s) && i < |g.defs| && x < |g.defs|
    ensures x in MatchableOf(g, s, i) <==> i in MatchableOf(g, s, x)
  {
    assert (i in s.schemata[x] && i != x) <==> x in s.descendants[i];
    assert (x in s.schemata[i] && x != i) <==> i in s.descendants[x];
  }

  /** A matchable schema can be compared with itself and its ancestors. */
  lemma MatchableAncestors(g: Graph, s: Snapshot, i: Id, x: Id)
    requires Sized(g, s) && CoreOk(g, s) && i < |g.defs| && x in s.schemata[i]
    requires g.defs[i].matchable && x < |g.defs| && g.defs[x].matchable
    ensures x in MatchableOf(g, s, i) && i in MatchableOf(g, s, i)
  {
  }

  /** A stored matchable set only ever holds matchable schemata of the model,
      and is empty for a schema that is not matchable itself. */
  predicate CacheOk(g: Graph, cache: seq<Option<set<Id>>>)
    requires |cache| == |g.defs|
  {
    forall k | 0 <= k < |g.defs| && cache[k].Some? ::
      && (forall x | x in cache[k].value :: x < |g.defs| && g.defs[x].matchable)
      && (!g.defs[k].matchable ==> cache[k].value == {})
  }

  class Model {
    /** Definitions and name index; nothing changes them after construction. */
    const graph: Graph
    /** A ranking witnessing that `extends` is acyclic (see `Generate`). */
    ghost const rank: seq<nat>

    /** `properties`: own and inherited properties, by name. */
    var properties: seq<map<string, Property>>
    /** `extends`: the direct parents resolved so far. */
    var parents: seq<set<Id>>
    /** `schemata`: the schema and its ancestors found so far. */
    var schemata: seq<set<Id>>
    /** `names`: the names of `schemata`. */
    var names: seq<set<string>>
    /** `descendants`: the schemata whose `schemata` hold this one. */
    var descendants: seq<set<Id>>
    /** `_matchable_schemata`: filled on first use, never invalidated. */
    var matchableCache: seq<Option<set<Id>>>

    ghost function Snap(): Snapshot
      reads this
    {
      Snapshot(properties, parents, schemata, names, descendants)
    }

    ghost predicate Valid()
      reads this
    {
      && Indexed(graph)
      && EdgesOk(graph)
      && Sized(graph, Snap())
      && |matchableCache| == |graph.defs|
      && CacheOk(graph, matchableCache)
      && CoreOk(graph, Snap())
      && OwnersOk(graph, Snap())
      && SoundOk(graph, rank, Snap())
    }

    /** Loading phase one: one schema per definition, nothing resolved yet.
        Names are unique, as the keys of the registry's definitions are. */
    constructor (specs: seq<(string, SchemaSpec)>, ghost ranking: seq<nat>)
      requires Distinct(specs)
      ensures Valid() && rank == ranking
      ensures graph == GraphOf(specs)
      ensures forall k | 0 <= k < |specs| ::
        && properties[k].Keys == specs[k].1.properties.Keys
        && (forall n | n in properties[k] :: properties[k][n] == Property(k, n, specs[k].1.properties[n], false))
      ensures Snap() == Initial(specs, properties)
      ensures matchableCache == seq(|specs|, _ => None)
    {
      var props: seq<map<string, Property>> := [];
      var k := 0;
      while k < |specs|
        invariant 0 <= k <= |specs| && |props| == k
        invariant forall l | 0 <= l < k ::
          && props[l].Keys == specs[l].1.properties.Keys
          && forall n | n in props[l] :: props[l][n] == Property(l, n, specs[l].1.properties[n], false)
      {
        var m := BuildProperties(k, specs[k].1.properties);
        props := props + [m];
        k := k + 1;
      }
      InitialValid(specs, ranking, props);
      var s := Initial(specs, props);
      graph := GraphOf(specs);
      rank := ranking;
      properties := s.props;
      parents := s.parents;
      schemata := s.schemata;
      names := s.names;
      descendants := s.descendants;
      matchableCache := seq(|specs|, _ => None);
    }

    /** `__eq__`: schemata are equal when their names are, which is exactly
        when they are the same schema. */
    function Equals(a: Id, b: Id): (r: bool)
      requires Indexed(graph) && a < |graph.defs| && b < |graph.defs|
      ensures r <==> a == b
    {
      graph.defs[a].name == graph.defs[b].name
    }

    /** `get`: the property of that name, if the name is given and known. */
    function Get(i: Id, name: Option<string>): (r: Option<Property>)
      reads this
      requires Valid() && i < |graph.defs|
      ensures r.Some? <==> name.Some? && name.value in properties[i]
      ensures r.Some? ==> r.value == properties[i][name.value] && r.value.name == name.value
    {
      if name.None? then None
      else if name.value in properties[i] then Some(properties[i][name.value])
      else None
    }

    /** `source_prop`: the property the edge starts from. Once generation has
        checked the schema, an edge schema always has it. */
    function SourceProp(i: Id): (r: Option<Property>)
      reads this
      requires Valid() && i < |graph.defs|
      ensures r.Some? <==> graph.defs[i].edgeSource.Some? && graph.defs[i].edgeSource.value in properties[i]
      ensures r.Some? ==> r.value == properties[i][graph.defs[i].edgeSource.value] && r.value.name == graph.defs[i].edgeSource.value
      ensures graph.defs[i].edge && ChecksPass(graph.defs[i], properties[i]) ==> r.Some?
    {
      Get(i, graph.defs[i].edgeSource)
    }

    /** `target_prop`: the property the edge ends at. */
    function TargetProp(i: Id): (r: Option<Property>)
      reads this
      requires Valid() && i < |graph.defs|
      ensures r.Some? <==> graph.defs[i].edgeTarget.Some? && graph.defs[i].edgeTarget.value in properties[i]
      ensures r.Some? ==> r.value == properties[i][graph.defs[i].edgeTarget.value] && r.value.name == graph.defs[i].edgeTarget.value
      ensures graph.defs[i].edge && ChecksPass(graph.defs[i], properties[i]) ==> r.Some?
    {
      Get(i, graph.defs[i].edgeTarget)
    }

    /** `is_a`: the schema or one of its ancestors is `other`. By name, it is
        membership in `names`. */
    function IsA(i: Id, other: SchemaRef): (r: bool)
      reads this
      requires Valid() && i < |graph.defs|
      requires other.BySchema? ==> other.id < |graph.defs|
      ensures other.ByName? ==> (r <==> other.name in names[i])
      ensures other.BySchema? ==> (r <==> other.id in schemata[i])
    {
      match other
      case ByName(n) =>
        assert n in names[i] ==> exists a :: a in schemata[i] && a < |graph.defs| && graph.defs[a].name == n;
        n in graph.index && graph.index[n] in schemata[i]
      case BySchema(j) => j in schemata[i]
    }

    /** `generate`: resolve `extends` in order, generating and inheriting from
        each parent, then check that every featured, caption and required
        name and the edge endpoints resolve. The parent's `generate` runs
        again each time; the ranking makes the recursion well founded, as an
        acyclic hierarchy does in the source. */
    method Generate(i: Id) returns (r: Outcome)
      requires Valid() && Ranked(graph, rank) && i < |graph.defs|
      modifies this`properties, this`parents, this`schemata, this`names, this`descendants
      ensures Valid()
      ensures Frame(graph, rank, old(Snap()), Snap(), i) && Grown(graph, old(Snap()), Snap())
      ensures Generated(graph, rank, old(Snap()), i) ==> r.Pass? && Snap() == old(Snap())
      ensures r.Pass? ==> Generated(graph, rank, Snap(), i)
      ensures r.Pass? ==> Resolved(graph, i, |graph.defs[i].extendsNames|)
      ensures r.Pass? ==>
        properties[i] == Inherit(old(properties[i]), ParentMaps(graph, properties, i, |graph.defs[i].extendsNames|))
      ensures r.Pass? ==> forall a | a in Anc(graph, rank, i) && a < |graph.defs| :: MergedAt(graph, old(Snap()), Snap(), a)
      ensures r.Fail? ==> exists k | k in Anc(graph, rank, i) && k < |graph.defs| :: Reports(graph, k, properties[k], r.error)
      decreases rank[i], 2
    {
      ghost var s0 := Snap();
      r := ResolveExtends(i);
      if r.Fail? {
        return;
      }
      ProgressFrame(graph, rank, s0, Snap(), i, |graph.defs[i].extendsNames|);
      ProgressDone(graph, rank, s0, Snap(), i);
      r := CheckListed(i);
      if r.Fail? {
        assert i in Anc(graph, rank, i);
        return;
      }
      assert LocalGen(graph, rank, Snap(), i);
      GeneratedIntro(graph, rank, Snap(), i);
      assert MergedAt(graph, s0, Snap(), i);
    }

    /** The loop of `generate` over `extends`: each name must resolve; its
        schema is generated and then inherited from. */
    method ResolveExtends(i: Id) returns (r: Outcome)
      requires Valid() && Ranked(graph, rank) && i < |graph.defs|
      modifies this`properties, this`parents, this`schemata, this`names, this`descendants
      ensures Valid()
      ensures r.Pass? ==> Progress(graph, rank, old(Snap()), Snap(), i, |graph.defs[i].extendsNames|)
      ensures r.Pass? ==> MergedAll(graph, old(Snap()), Snap(), AncPrefix(graph, rank, i, |graph.defs[i].extendsNames|))
      ensures r.Fail? ==> Frame(graph, rank, old(Snap()), Snap(), i) && Grown(graph, old(Snap()), Snap())
      ensures r.Fail? ==> !Generated(graph, rank, old(Snap()), i)
      ensures r.Fail? ==> exists k | k in Anc(graph, rank, i) && k < |graph.defs| :: Reports(graph, k, properties[k], r.error)
      decreases rank[i], 1
    {
      ghost var s0 := Snap();
      ProgressInit(graph, rank, s0, i);
      MergingInit(graph, rank, s0, i);
      var m := 0;
      while m < |graph.defs[i].extendsNames|
        invariant m <= |graph.defs[i].extendsNames|
        invariant Valid()
        invariant Progress(graph, rank, s0, Snap(), i, m)
        invariant Merging(graph, rank, s0, Snap(), i, m)
        decreases |graph.defs[i].extendsNames| - m
      {
        r := ResolveOne(i, m, s0);
        if r.Fail? {
          return;
        }
        m := m + 1;
      }
      return Pass;
    }

    /** One name of `extends`: resolve it, generate its schema, inherit. */
    method ResolveOne(i: Id, m: nat, ghost s0: Snapshot) returns (r: Outcome)
      requires Valid() && Ranked(graph, rank) && i < |graph.defs| && m < |graph.defs[i].extendsNames|
      requires Progress(graph, rank, s0, Snap(), i, m)
      requires Merging(graph, rank, s0, Snap(), i, m)
      modifies this`properties, this`parents, this`schemata, this`names, this`descendants
      ensures Valid()
      ensures r.Pass? ==> Progress(graph, rank, s0, Snap(), i, m + 1)
      ensures r.Pass? ==> Merging(graph, rank, s0, Snap(), i, m + 1)
      ensures graph.defs[i].extendsNames[m] !in graph.index ==>
        r == Fail(InvalidExtends(graph.defs[i].extendsNames[m])) && Snap() == old(Snap())
      ensures r.Fail? ==> Frame(graph, rank, s0, Snap(), i) && Grown(graph, s0, Snap())
      ensures r.Fail? ==> !Generated(graph, rank, s0, i)
      ensures r.Fail? ==> exists k | k in Anc(graph, rank, i) && k < |graph.defs| :: Reports(graph, k, properties[k], r.error)
      decreases rank[i], 0
    {
      var n := graph.defs[i].extendsNames[m];
      if n !in graph.index {
        ProgressFrame(graph, rank, s0, Snap(), i, m);
        assert i in Anc(graph, rank, i) && Reports(graph, i, properties[i], InvalidExtends(n));
        return Fail(InvalidExtends(n));
      }
      var p := graph.index[n];
      NamedParent(graph, rank, i, m);
      ghost var s1 := Snap();
      r := Generate(p);
      if r.Fail? {
        FailFrame(graph, rank, s0, s1, Snap(), i, m);
        ghost var k :| k in Anc(graph, rank, p) && k < |graph.defs| && Reports(graph, k, properties[k], r.error);
        assert k in Anc(graph, rank, i);
        return;
      }
      ghost var s2 := Snap();
      Adopt(i, m, s0, s1);
      StepHasFields(graph, s2, i, p);
      MergedStep(graph, rank, s0, s1, s2, Snap(), i, m);
    }

    /** The rest of one name of `extends` once its schema is generated:
        inherit from it. */
    method Adopt(i: Id, m: nat, ghost s0: Snapshot, ghost s1: Snapshot)
      requires Valid() && i < |graph.defs| && m < |graph.defs[i].extendsNames|
      requires Progress(graph, rank, s0, s1, i, m) && graph.defs[i].extendsNames[m] in graph.index
      requires Generated(graph, rank, s1, graph.index[graph.defs[i].extendsNames[m]]) ==> Snap() == s1
      requires Generated(graph, rank, Snap(), graph.index[graph.defs[i].extendsNames[m]])
      requires Frame(graph, rank, s1, Snap(), graph.index[graph.defs[i].extendsNames[m]]) && Grown(graph, s1, Snap())
      modifies this`properties, this`parents, this`schemata, this`names, this`descendants
      ensures Valid() && Progress(graph, rank, s0, Snap(), i, m + 1)
      ensures Snap() == Step(graph, old(Snap()), i, graph.index[graph.defs[i].extendsNames[m]])
    {
      var p := graph.index[graph.defs[i].extendsNames[m]];
      NamedParent(graph, rank, i, m);
      ghost var s2 := Snap();
      ParentLinks(graph, rank, s2, i, p);
      InheritFrom(i, p);
      InheritStepOk(graph, rank, s0, s1, s2, Snap(), i, m);
    }

    /** The checks at the end of `generate`: each featured, caption and
        required name, in that order and each list in order, then the edge
        source and target, must name a property. The first that does not is
        reported. */
    method CheckListed(i: Id) returns (r: Outcome)
      requires Valid() && i < |graph.defs|
      ensures r.Pass? <==> ChecksPass(graph.defs[i], properties[i])
      ensures r.Fail? ==> Reports(graph, i, properties[i], r.error) && !r.error.IsInvalidData()
      ensures r.Fail? && r.error.MissingFeatured? ==> FirstAbsent(graph.defs[i].featured, properties[i], r.error.name)
      ensures r.Fail? && !r.error.MissingFeatured? ==> forall n | n in graph.defs[i].featured :: n in properties[i]
      ensures r.Fail? && r.error.MissingCaption? ==> FirstAbsent(graph.defs[i].caption, properties[i], r.error.name)
      ensures r.Fail? && !r.error.MissingFeatured? && !r.error.MissingCaption? ==>
        forall n | n in graph.defs[i].caption :: n in properties[i]
      ensures r.Fail? && r.error.MissingRequired? ==> FirstAbsent(graph.defs[i].required, properties[i], r.error.name)
      ensures r.Fail? && (r.error.MissingEdgeSource? || r.error.MissingEdgeTarget?) ==>
        forall n | n in graph.defs[i].required :: n in properties[i]
      ensures r.Fail? && r.error.MissingEdgeTarget? ==>
        graph.defs[i].edgeSource.Some? && graph.defs[i].edgeSource.value in properties[i]
    {
      var missing := FirstMissing(graph.defs[i].featured, properties[i]);
      if missing.Some? {
        assert Reports(graph, i, properties[i], MissingFeatured(missing.value));
        return Fail(MissingFeatured(missing.value));
      }
      missing := FirstMissing(graph.defs[i].caption, properties[i]);
      if missing.Some? {
        assert Reports(graph, i, properties[i], MissingCaption(missing.value));
        return Fail(MissingCaption(missing.value));
      }
      missing := FirstMissing(graph.defs[i].required, properties[i]);
      if missing.Some? {
        assert Reports(graph, i, properties[i], MissingRequired(missing.value));
        return Fail(MissingRequired(missing.value));
      }
      if graph.defs[i].edge {
        if SourceProp(i).None? {
          assert Reports(graph, i, properties[i], MissingEdgeSource(graph.defs[i].edgeSource.value));
          return Fail(MissingEdgeSource(graph.defs[i].edgeSource.value));
        }
        if TargetProp(i).None? {
          assert Reports(graph, i, properties[i], MissingEdgeTarget(graph.defs[i].edgeTarget.value));
          return Fail(MissingEdgeTarget(graph.defs[i].edgeTarget.value));
        }
      }
      return Pass;
    }

    /** `_add_reverse`: the property of the reverse name, created as a stub
        when the schema lacks it. Without a name it fails; an existing
        property of that name is returned as it is. */
    method AddReverse(i: Id, data: ReverseSpec, other: Property) returns (r: Result<Property>)
      requires Valid() && i < |graph.defs| && other.owner < |graph.defs|
      modifies this`properties
      ensures Valid()
      ensures data.name.None? ==> r == Failure(UnnamedReverse) && properties == old(properties)
      ensures data.name.Some? && data.name.value in old(properties[i]) ==>
        r == Success(old(properties[i][data.name.value])) && properties == old(properties)
      ensures data.name.Some? && data.name.value !in old(properties[i]) ==>
        && r == Success(ReverseStub(graph, i, data.name.value, data, other))
        && properties == old(properties)[i := old(properties[i])[data.name.value := r.value]]
    {
      if data.name.None? {
        return Failure(UnnamedReverse);
      }
      var name := data.name.value;
      var existing := Get(i, Some(name));
      if existing.Some? {
        return Success(existing.value);
      }
      var prop := ReverseStub(graph, i, name, data, other);
      assert i in schemata[i];
      AddOwnKeepsOwners(graph, Snap(), i, prop);
      properties := properties[i := properties[i][name := prop]];
      r := Success(prop);
    }

    /** `matchable_schemata`: computed on first use and kept from then on. */
    method MatchableSchemata(i: Id) returns (r: set<Id>)
      requires Valid() && i < |graph.defs|
      modifies this`matchableCache
      ensures Valid()
      ensures !graph.defs[i].matchable ==> r == {}
      ensures forall x | x in r :: x < |graph.defs| && graph.defs[x].matchable
      ensures old(matchableCache[i]).Some? ==> r == old(matchableCache[i].value) && matchableCache == old(matchableCache)
      ensures old(matchableCache[i]).None? ==>
        r == MatchableOf(graph, Snap(), i) && matchableCache == old(matchableCache)[i := Some(r)]
    {
      if matchableCache[i].Some? {
        return matchableCache[i].value;
      }
      r := {};
      if graph.defs[i].matchable {
        var candidates := schemata[i] + descendants[i];
        var todo := candidates;
        while todo != {}
          invariant todo <= candidates
          invariant r == set x | x in candidates - todo && x < |graph.defs| && graph.defs[x].matchable
          decreases todo
        {
          var x :| x in todo;
          assert x < |graph.defs|;
          if graph.defs[x].matchable {
            r := r + {x};
          }
          todo := todo - {x};
        }
        assert candidates - todo == candidates;
      }
      matchableCache := matchableCache[i := Some(r)];
    }

    /** `can_match`: membership in `matchable_schemata`. */
    method CanMatch(i: Id, other: Id) returns (r: bool)
      requires Valid() && i < |graph.defs|
      modifies this`matchableCache
      ensures Valid()
      ensures matchableCache[i].Some? && (r <==> other in matchableCache[i].value)
      ensures r ==> graph.defs[i].matchable && other < |graph.defs| && graph.defs[other].matchable
      ensures old(matchableCache[i]).Some? ==> matchableCache == old(matchableCache)
      ensures old(matchableCache[i]).None? ==> (r <==> other in MatchableOf(graph, Snap(), i))
    {
      var s := MatchableSchemata(i);
      r := other in s;
    }

    /** `validate`: every merged property is checked against its values; all
        errors are collected and reported together. */
    method Validate(i: Id, data: map<string, seq<string>>, check: Validator) returns (r: Outcome)
      requires Valid() && i < |graph.defs|
      ensures r.Pass? <==> Errors(properties[i], graph.defs[i].required, data, check) == map[]
      ensures r.Fail? ==> r.error == EntityInvalid(Errors(properties[i], graph.defs[i].required, data, check))
      ensures r.Fail? ==> r.error.IsInvalidData()
    {
      var errs := CollectErrors(properties[i], graph.defs[i].required, data, check);
      if |errs| > 0 {
        return Fail(EntityInvalid(errs));
      }
      return Pass;
    }

    /** `to_dict`: the sparse serialised form, with sorted name lists and the
        schema's own properties only. */
    method ToDict(i: Id) returns (d: SchemaDict)
      requires Sized(graph, Snap()) && i < |graph.defs| && forall p | p in parents[i] :: p < |graph.defs|
      ensures d.labelText == graph.defs[i].labelText && d.plural == graph.defs[i].plural
      ensures StrictlySorted(d.schemata) && forall n :: n in d.schemata <==> n in names[i]
      ensures StrictlySorted(d.extendsNames)
      ensures forall n :: n in d.extendsNames <==> exists p :: p in parents[i] && graph.defs[p].name == n
      ensures d.edge == EdgeKey(graph.defs[i])
      ensures d.featured == ListKey(graph.defs[i].featured) && d.required == ListKey(graph.defs[i].required)
      ensures d.caption == ListKey(graph.defs[i].caption)
      ensures d.description.Some? <==> Truthy(graph.defs[i].description)
      ensures d.description.Some? ==> d.description == graph.defs[i].description
      ensures d.isAbstract == FlagKey(graph.defs[i].isAbstract) && d.hidden == FlagKey(graph.defs[i].hidden)
      ensures d.generated == FlagKey(graph.defs[i].generated) && d.matchable == FlagKey(graph.defs[i].matchable)
      ensures d.properties == OwnProperties(i, properties[i])
    {
      var def := graph.defs[i];
      var schemataNames := SortNames(names[i]);
      var parentNames := SortNames(NamesOf(graph, parents[i]));
      var description := if Truthy(def.description) then def.description else None;
      var own := OwnEntries(i, properties[i]);
      d := SchemaDict(def.labelText, def.plural, schemataNames, parentNames, EdgeKey(def),
        ListKey(def.featured), ListKey(def.required), ListKey(def.caption), description,
        FlagKey(def.isAbstract), FlagKey(def.hidden), FlagKey(def.generated), FlagKey(def.matchable),
        own);
    }

    /** One parent's step of `generate`: merge the parent's properties into
        the absent names, record the parent, and link every ancestor of the
        parent with this schema. */
    method InheritFrom(i: Id, p: Id)
      requires Sized(graph, Snap()) && i < |graph.defs| && p < |graph.defs|
      requires forall a | a in schemata[p] :: a < |graph.defs| && a != i
      modifies this`properties, this`parents, this`schemata, this`names, this`descendants
      ensures Snap() == Step(graph, old(Snap()), i, p) && matchableCache == old(matchableCache)
    {
      var merged := MergeInto(properties[i], properties[p]);
      properties := properties[i := merged];
      parents := parents[i := parents[i] + {p}];
      LinkAncestors(i, p);
    }

    /** The ancestor loop of one parent: each ancestor joins `schemata` and
        `names`, and this schema joins the ancestor's `descendants`. */
    method LinkAncestors(i: Id, p: Id)
      requires Sized(graph, Snap()) && i < |graph.defs| && p < |graph.defs|
      requires forall a | a in schemata[p] :: a < |graph.defs| && a != i
      modifies this`schemata, this`names, this`descendants
      ensures Snap() == LinkAll(graph, old(Snap()), i, old(Snap()).schemata[p])
    {
      ghost var s0 := Snap();
      var ancestors := schemata[p];
      var todo := ancestors;
      assert LinkAll(graph, s0, i, ancestors - todo) == s0 by {
        assert ancestors - todo == {};
        assert NamesOf(graph, {}) == {};
        assert s0.schemata[i] + {} == s0.schemata[i];
        assert s0.names[i] + {} == s0.names[i];
      }
      while todo != {}
        invariant todo <= ancestors
        invariant forall a | a in ancestors :: a < |graph.defs| && a != i
        invariant Snap() == LinkAll(graph, s0, i, ancestors - todo)
        decreases todo
      {
        var a :| a in todo;
        ghost var before := Snap();
        LinkAllStep(graph, s0, i, ancestors - todo, a);
        schemata := schemata[i := schemata[i] + {a}];
        names := names[i := names[i] + {graph.defs[a].name}];
        descendants := descendants[a := descendants[a] + {i}];
        assert Snap() == LinkOne(graph, before, i, a);
        assert (ancestors - todo) + {a} == ancestors - (todo - {a});
        todo := todo - {a};
      }
      assert ancestors - todo == ancestors;
    }
  }
}
