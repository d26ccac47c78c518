/**
 * The inheritance graph of a model and what a completed hierarchy
 * resolution leaves behind. The graph itself (each schema's definition and
 * the name index) never changes; the hierarchy fields of all schemata are
 * gathered in a `Snapshot` so that two states can be compared.
 */
module Hierarchy {
  import opened SchemaTypes

  /** The schema definitions, by id, and the model's name lookup. */
  datatype Graph = Graph(defs: seq<SchemaDef>, index: map<string, Id>)

  /** The hierarchy fields of every schema, by id: `props` is `properties`,
      `parents` is `extends`. */
  datatype Snapshot = Snapshot(
    props: seq<map<string, Property>>,
    parents: seq<set<Id>>,
    schemata: seq<set<Id>>,
    names: seq<set<string>>,
    descendants: seq<set<Id>>)

  /** The index maps each name to the one schema of that name (identity by name). */
  predicate Indexed(g: Graph) {
    && (forall n | n in g.index :: g.index[n] < |g.defs| && g.defs[g.index[n]].name == n)
    && (forall k | 0 <= k < |g.defs| :: g.defs[k].name in g.index && g.index[g.defs[k].name] == k)
  }

  predicate Sized(g: Graph, s: Snapshot) {
    var n := |g.defs|;
    |s.props| == n && |s.parents| == n && |s.schemata| == n && |s.names| == n && |s.descendants| == n
  }

  /** The ids the first `m` names of `extends` resolve to (unresolved names are skipped). */
  function ParentPrefix(g: Graph, k: Id, m: nat): (r: set<Id>)
    requires k < |g.defs| && m <= |g.defs[k].extendsNames|
    ensures forall p | p in r :: p in g.index.Values
  {
    if m == 0 then {}
    else
      var n := g.defs[k].extendsNames[m - 1];
      ParentPrefix(g, k, m - 1) + (if n in g.index then {g.index[n]} else {})
  }

  /** The direct parents of `k` that resolve in the model. */
  function ParentIds(g: Graph, k: Id): set<Id>
    requires k < |g.defs|
  {
    ParentPrefix(g, k, |g.defs[k].extendsNames|)
  }

  lemma {:induction false} ParentPrefixMember(g: Graph, k: Id, m: nat, p: Id)
    requires k < |g.defs| && m <= |g.defs[k].extendsNames|
    ensures p in ParentPrefix(g, k, m) <==>
      exists j :: 0 <= j < m && g.defs[k].extendsNames[j] in g.index && g.index[g.defs[k].extendsNames[j]] == p
    decreases m
  {
    if m > 0 {
      ParentPrefixMember(g, k, m - 1, p);
    }
  }

  /** A ranking that decreases along every resolved `extends` edge: the
      witness that the hierarchy is acyclic. */
  ghost predicate Ranked(g: Graph, rank: seq<nat>) {
    && Indexed(g)
    && |rank| == |g.defs|
    && forall k, j | 0 <= k < |g.defs| && 0 <= j < |g.defs[k].extendsNames| && g.defs[k].extendsNames[j] in g.index ::
         rank[g.index[g.defs[k].extendsNames[j]]] < rank[k]
  }

  /** All ancestors of `k`, itself included, along resolved `extends` names. */
  ghost function Anc(g: Graph, rank: seq<nat>, k: Id): set<Id>
    requires Ranked(g, rank) && k < |g.defs|
    decreases rank[k], 1, 0
  {
    {k} + AncPrefix(g, rank, k, |g.defs[k].extendsNames|)
  }

  /** The union of the ancestors of the parents named first `m` in `extends`. */
  ghost function AncPrefix(g: Graph, rank: seq<nat>, k: Id, m: nat): set<Id>
    requires Ranked(g, rank) && k < |g.defs| && m <= |g.defs[k].extendsNames|
    decreases rank[k], 0, m
  {
    if m == 0 then {}
    else
      var n := g.defs[k].extendsNames[m - 1];
      AncPrefix(g, rank, k, m - 1) + (if n in g.index then Anc(g, rank, g.index[n]) else {})
  }

  /** Members of a prefix union come from one named parent, and every named
      parent contributes all its ancestors. */
  lemma {:induction false} AncPrefixMember(g: Graph, rank: seq<nat>, k: Id, m: nat, x: Id)
    requires Ranked(g, rank) && k < |g.defs| && m <= |g.defs[k].extendsNames|
    ensures x in AncPrefix(g, rank, k, m) <==>
      exists j :: 0 <= j < m && g.defs[k].extendsNames[j] in g.index && x in Anc(g, rank, g.index[g.defs[k].extendsNames[j]])
    decreases m
  {
    if m > 0 {
      AncPrefixMember(g, rank, k, m - 1, x);
    }
  }

  /** Ancestors are schemata of the model, ranked no higher than `k`, and
      strictly lower unless they are `k` itself. */
  lemma {:induction false} AncRank(g: Graph, rank: seq<nat>, k: Id, x: Id)
    requires Ranked(g, rank) && k < |g.defs| && x in Anc(g, rank, k)
    ensures x < |g.defs| && rank[x] <= rank[k] && (x != k ==> rank[x] < rank[k])
    decreases rank[k]
  {
    if x != k {
      var ext := g.defs[k].extendsNames;
      AncPrefixMember(g, rank, k, |ext|, x);
      var j :| 0 <= j < |ext| && ext[j] in g.index && x in Anc(g, rank, g.index[ext[j]]);
      AncRank(g, rank, g.index[ext[j]], x);
    }
  }

  /** The ancestor relation is transitive. */
  lemma {:induction false} AncTransitive(g: Graph, rank: seq<nat>, k: Id, x: Id)
    requires Ranked(g, rank) && k < |g.defs| && x in Anc(g, rank, k)
    ensures x < |g.defs| && Anc(g, rank, x) <= Anc(g, rank, k)
    decreases rank[k]
  {
    AncRank(g, rank, k, x);
    if x != k {
      var ext := g.defs[k].extendsNames;
      AncPrefixMember(g, rank, k, |ext|, x);
      var j :| 0 <= j < |ext| && ext[j] in g.index && x in Anc(g, rank, g.index[ext[j]]);
      AncTransitive(g, rank, g.index[ext[j]], x);
      forall y | y in Anc(g, rank, g.index[ext[j]]) ensures y in Anc(g, rank, k) {
        AncPrefixMember(g, rank, k, |ext|, y);
      }
    }
  }

  /** The ancestors of a resolved parent are ancestors of the child. */
  lemma ParentAnc(g: Graph, rank: seq<nat>, k: Id, p: Id)
    requires Ranked(g, rank) && k < |g.defs| && p in ParentIds(g, k)
    ensures p < |g.defs| && p in Anc(g, rank, k) && Anc(g, rank, p) <= Anc(g, rank, k)
    ensures rank[p] < rank[k]
  {
    var ext := g.defs[k].extendsNames;
    ParentPrefixMember(g, k, |ext|, p);
    var j :| 0 <= j < |ext| && ext[j] in g.index && g.index[ext[j]] == p;
    forall y | y in Anc(g, rank, p) ensures y in Anc(g, rank, k) {
      AncPrefixMember(g, rank, k, |ext|, y);
    }
  }

  /** The names that `featured`, `caption`, `required` and the edge endpoints
      list all resolve in `props`. */
  predicate ChecksPass(d: SchemaDef, props: map<string, Property>) {
    && (forall n | n in d.featured :: n in props)
    && (forall n | n in d.caption :: n in props)
    && (forall n | n in d.required :: n in props)
    && (d.edge ==> d.edgeSource.Some? && d.edgeSource.value in props && d.edgeTarget.Some? && d.edgeTarget.value in props)
  }

  /** `n` is the first name of `wanted`, in order, that `props` lacks. */
  predicate FirstAbsent(wanted: seq<string>, props: map<string, Property>, n: string) {
    exists j :: 0 <= j < |wanted| && wanted[j] == n && n !in props && forall l | 0 <= l < j :: wanted[l] in props
  }

  /** The defect that error `e`, raised while generating schema `k`, names. */
  predicate Reports(g: Graph, k: Id, props: map<string, Property>, e: SchemaError)
    requires k < |g.defs|
  {
    var d := g.defs[k];
    match e
    case InvalidExtends(n) => n in d.extendsNames && n !in g.index
    case MissingFeatured(n) => n in d.featured && n !in props
    case MissingCaption(n) => n in d.caption && n !in props
    case MissingRequired(n) => n in d.required && n !in props
    case MissingEdgeSource(n) => d.edge && d.edgeSource == Some(n) && n !in props
    case MissingEdgeTarget(n) => d.edge && d.edgeTarget == Some(n) && n !in props
    case UnnamedReverse => false
    case EntityInvalid(_) => false
  }

  /** What a successful `generate` of `k` leaves in `k`'s own fields: every
      parent resolved and recorded, the ancestor closure, every parent's names
      inherited, and every listed name resolving. */
  ghost predicate LocalGen(g: Graph, rank: seq<nat>, s: Snapshot, k: Id)
    requires Ranked(g, rank) && Sized(g, s) && k < |g.defs|
  {
    && (forall j | 0 <= j < |g.defs[k].extendsNames| :: g.defs[k].extendsNames[j] in g.index)
    && s.parents[k] == ParentIds(g, k)
    && s.schemata[k] == Anc(g, rank, k)
    && (forall p | p in ParentIds(g, k) :: p < |g.defs| && s.props[p].Keys <= s.props[k].Keys)
    && ChecksPass(g.defs[k], s.props[k])
  }

  /** `k` and all its ancestors are generated. */
  ghost predicate Generated(g: Graph, rank: seq<nat>, s: Snapshot, k: Id)
    requires Ranked(g, rank) && Sized(g, s) && k < |g.defs|
  {
    forall a | a in Anc(g, rank, k) :: a < |g.defs| && LocalGen(g, rank, s, a)
  }

  /** The fields of schema `k` (other than `descendants`) agree in two states. */
  predicate SameAt(s1: Snapshot, s2: Snapshot, k: Id)
    requires k < |s1.props| && k < |s1.parents| && k < |s1.schemata| && k < |s1.names|
    requires k < |s2.props| && k < |s2.parents| && k < |s2.schemata| && k < |s2.names|
  {
    s1.props[k] == s2.props[k] && s1.parents[k] == s2.parents[k]
    && s1.schemata[k] == s2.schemata[k] && s1.names[k] == s2.names[k]
  }

  /** Ancestors of a generated schema are generated. */
  lemma GeneratedDown(g: Graph, rank: seq<nat>, s: Snapshot, k: Id, a: Id)
    requires Ranked(g, rank) && Sized(g, s) && k < |g.defs|
    requires Generated(g, rank, s, k) && a in Anc(g, rank, k)
    ensures a < |g.defs| && Generated(g, rank, s, a)
  {
    AncTransitive(g, rank, k, a);
  }

  /** Being generated depends only on the fields of the schema's ancestors. */
  lemma GeneratedStable(g: Graph, rank: seq<nat>, s1: Snapshot, s2: Snapshot, k: Id)
    requires Ranked(g, rank) && Sized(g, s1) && Sized(g, s2) && k < |g.defs|
    requires Generated(g, rank, s1, k)
    requires forall a | a in Anc(g, rank, k) && a < |g.defs| :: SameAt(s1, s2, a)
    ensures Generated(g, rank, s2, k)
  {
    forall a | a in Anc(g, rank, k) ensures a < |g.defs| && LocalGen(g, rank, s2, a) {
      AncTransitive(g, rank, k, a);
      forall p | p in ParentIds(g, a) ensures p < |g.defs| && s2.props[p].Keys <= s2.props[a].Keys {
        ParentAnc(g, rank, a, p);
      }
    }
  }

  /** After generation, a schema's `schemata` is the fixed point
      `{k} ∪ ⋃ parent.schemata` over its resolved parents. */
  lemma ClosureFixpoint(g: Graph, rank: seq<nat>, s: Snapshot, k: Id)
    requires Ranked(g, rank) && Sized(g, s) && k < |g.defs| && Generated(g, rank, s, k)
    ensures k in s.schemata[k]
    ensures forall p | p in ParentIds(g, k) :: p < |g.defs| && s.schemata[p] <= s.schemata[k]
    ensures forall x | x in s.schemata[k] :: x == k || exists p :: p in ParentIds(g, k) && p < |g.defs| && x in s.schemata[p]
  {
    var ext := g.defs[k].extendsNames;
    assert LocalGen(g, rank, s, k);
    forall p | p in ParentIds(g, k) ensures p < |g.defs| && s.schemata[p] <= s.schemata[k] {
      ParentAnc(g, rank, k, p);
      assert LocalGen(g, rank, s, p);
    }
    forall x | x in s.schemata[k] && x != k
      ensures exists p :: p in ParentIds(g, k) && p < |g.defs| && x in s.schemata[p]
    {
      AncPrefixMember(g, rank, k, |ext|, x);
      var j :| 0 <= j < |ext| && ext[j] in g.index && x in Anc(g, rank, g.index[ext[j]]);
      var p := g.index[ext[j]];
      ParentPrefixMember(g, k, |ext|, p);
      ParentAnc(g, rank, k, p);
      assert LocalGen(g, rank, s, p);
    }
  }

  /** Inheritance visibility: every name visible on an ancestor of a generated
      schema is visible on the schema. */
  lemma {:induction false} InheritedNamesVisible(g: Graph, rank: seq<nat>, s: Snapshot, k: Id, a: Id)
    requires Ranked(g, rank) && Sized(g, s) && k < |g.defs| && Generated(g, rank, s, k)
    requires a in Anc(g, rank, k)
    ensures a < |g.defs| && s.props[a].Keys <= s.props[k].Keys
    decreases rank[k]
  {
    AncRank(g, rank, k, a);
    if a != k {
      var ext := g.defs[k].extendsNames;
      AncPrefixMember(g, rank, k, |ext|, a);
      var j :| 0 <= j < |ext| && ext[j] in g.index && a in Anc(g, rank, g.index[ext[j]]);
      var p := g.index[ext[j]];
      ParentPrefixMember(g, k, |ext|, p);
      ParentAnc(g, rank, k, p);
      GeneratedDown(g, rank, s, k, p);
      InheritedNamesVisible(g, rank, s, p, a);
      assert LocalGen(g, rank, s, k);
    }
  }

  /** Every schema with an edge has both endpoint names (construction sets the
      flag from exactly that). */
  predicate EdgesOk(g: Graph) {
    forall k | 0 <= k < |g.defs| :: g.defs[k].edge <==> g.defs[k].edgeSource.Some? && g.defs[k].edgeTarget.Some?
  }

  /** A schema whose own fields are those of a completed generation and whose
      parents are all generated is generated. */
  lemma GeneratedIntro(g: Graph, rank: seq<nat>, s: Snapshot, k: Id)
    requires Ranked(g, rank) && Sized(g, s) && k < |g.defs| && LocalGen(g, rank, s, k)
    requires forall j | 0 <= j < |g.defs[k].extendsNames| ::
      g.defs[k].extendsNames[j] in g.index && Generated(g, rank, s, g.index[g.defs[k].extendsNames[j]])
    ensures Generated(g, rank, s, k)
  {
    var ext := g.defs[k].extendsNames;
    forall a | a in Anc(g, rank, k) ensures a < |g.defs| && LocalGen(g, rank, s, a) {
      if a != k {
        AncPrefixMember(g, rank, k, |ext|, a);
        var j :| 0 <= j < |ext| && ext[j] in g.index && a in Anc(g, rank, g.index[ext[j]]);
        assert Generated(g, rank, s, g.index[ext[j]]);
      }
    }
  }

  /** Generated schemata stay generated into a state that keeps the fields of
      every generated schema. */
  lemma GeneratedKept(g: Graph, rank: seq<nat>, s1: Snapshot, s2: Snapshot, k: Id)
    requires Ranked(g, rank) && Sized(g, s1) && Sized(g, s2) && k < |g.defs|
    requires Generated(g, rank, s1, k)
    requires forall a | 0 <= a < |g.defs| && Generated(g, rank, s1, a) :: SameAt(s1, s2, a)
    ensures Generated(g, rank, s2, k)
  {
    forall a | a in Anc(g, rank, k) && a < |g.defs| ensures SameAt(s1, s2, a) {
      GeneratedDown(g, rank, s1, k, a);
    }
    GeneratedStable(g, rank, s1, s2, k);
  }

  /** The same, when the fields of every generated schema other than `i` are
      kept and the whole state is kept if `i` itself was generated. */
  lemma GeneratedKeptBut(g: Graph, rank: seq<nat>, s0: Snapshot, s1: Snapshot, k: Id, i: Id)
    requires Ranked(g, rank) && Sized(g, s0) && Sized(g, s1) && k < |g.defs| && i < |g.defs|
    requires Generated(g, rank, s0, k)
    requires Generated(g, rank, s0, i) ==> s1 == s0
    requires forall a | 0 <= a < |g.defs| && a != i && Generated(g, rank, s0, a) :: SameAt(s0, s1, a)
    ensures Generated(g, rank, s1, k)
  {
    if !Generated(g, rank, s0, i) {
      forall a | a in Anc(g, rank, k) && a < |g.defs| ensures SameAt(s0, s1, a) {
        GeneratedDown(g, rank, s0, k, a);
      }
      GeneratedStable(g, rank, s0, s1, k);
    }
  }

  /** Generated schemata stay generated when only a schema outside their
      ancestry changes. */
  lemma GeneratedKeptOutside(g: Graph, rank: seq<nat>, s1: Snapshot, s2: Snapshot, k: Id, i: Id)
    requires Ranked(g, rank) && Sized(g, s1) && Sized(g, s2) && k < |g.defs|
    requires Generated(g, rank, s1, k) && i !in Anc(g, rank, k)
    requires forall a | 0 <= a < |g.defs| && a != i :: SameAt(s1, s2, a)
    ensures Generated(g, rank, s2, k)
  {
    GeneratedStable(g, rank, s1, s2, k);
  }

  /** The hierarchy invariants that hold between any two operations: each
      schema is among its own `schemata`, ids are schemata of the model,
      `extends` holds only resolved parents, `names` is the name projection of
      `schemata`, and `descendants` is the inverse of `schemata`. */
  predicate CoreOk(g: Graph, s: Snapshot)
    requires Sized(g, s)
  {
    && (forall k | 0 <= k < |g.defs| ::
          && k in s.schemata[k]
          && (forall a | a in s.schemata[k] :: a < |g.defs|)
          && (forall a | a in s.descendants[k] :: a < |g.defs|)
          && s.parents[k] <= ParentIds(g, k)
          && s.names[k] == NamesOf(g, s.schemata[k]))
    && Inverse(|g.defs|, s.schemata, s.descendants)
  }

  /** Each property sits under its own name, was declared by one of the
      schema's `schemata`, and is the very entry its declaring schema holds. */
  predicate OwnersOk(g: Graph, s: Snapshot)
    requires Sized(g, s)
  {
    forall k, n | 0 <= k < |g.defs| && n in s.props[k] ::
      && s.props[k][n].name == n
      && s.props[k][n].owner < |g.defs|
      && s.props[k][n].owner in s.schemata[k]
      && n in s.props[s.props[k][n].owner]
      && s.props[s.props[k][n].owner][n] == s.props[k][n]
  }

  /** On an acyclic graph, `schemata` never holds anything but ancestors. */
  ghost predicate SoundOk(g: Graph, rank: seq<nat>, s: Snapshot)
    requires Sized(g, s)
  {
    Ranked(g, rank) ==> forall k | 0 <= k < |g.defs| :: s.schemata[k] <= Anc(g, rank, k)
  }

  /** The property maps of the first `m` parents named in `extends`, in order. */
  function ParentMaps(g: Graph, props: seq<map<string, Property>>, k: Id, m: nat): (r: seq<map<string, Property>>)
    requires Indexed(g) && |props| == |g.defs| && k < |g.defs| && m <= |g.defs[k].extendsNames|
    requires forall j | 0 <= j < m :: g.defs[k].extendsNames[j] in g.index
    ensures |r| == m
    ensures forall j | 0 <= j < m :: r[j] == props[g.index[g.defs[k].extendsNames[j]]]
  {
    if m == 0 then [] else ParentMaps(g, props, k, m - 1) + [props[g.index[g.defs[k].extendsNames[m - 1]]]]
  }

  /** `descendants` is the inverse of `schemata` (without the schema itself). */
  predicate Inverse(n: nat, schemata: seq<set<Id>>, descendants: seq<set<Id>>)
    requires |schemata| == n && |descendants| == n
  {
    forall a, k | 0 <= a < n && 0 <= k < n :: (a in schemata[k] && a != k) <==> k in descendants[a]
  }

  /** The names of a set of schemata. */
  function NamesOf(g: Graph, ids: set<Id>): set<string> {
    set a | a in ids && a < |g.defs| :: g.defs[a].name
  }
}
