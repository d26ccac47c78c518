/**
 * The steps of hierarchy resolution (`generate`) on snapshots of the
 * hierarchy fields: linking a schema with a parent's ancestors, the whole
 * per-parent step, and the loop invariant of resolving `extends` in order.
 */
module Generation {
  import opened SchemaTypes
  import opened Hierarchy
  import opened PropertyMerge

  /** One inheritance step keeps owners consistent: an inherited entry comes
      with its declaring schema, which joins `schemata`. */
  lemma StepOwnersOk(g: Graph, s0: Snapshot, s1: Snapshot, i: Id, p: Id)
    requires Sized(g, s0) && Sized(g, s1) && i < |g.defs| && p < |g.defs|
    requires OwnersOk(g, s0)
    requires s1.props == s0.props[i := MergeAbsent(s0.props[i], s0.props[p])]
    requires s1.schemata == s0.schemata[i := s0.schemata[i] + s0.schemata[p]]
    ensures OwnersOk(g, s1)
  {
    forall k, n | 0 <= k < |g.defs| && n in s1.props[k]
      ensures s1.props[k][n].name == n && s1.props[k][n].owner < |g.defs| && s1.props[k][n].owner in s1.schemata[k]
      ensures n in s1.props[s1.props[k][n].owner] && s1.props[s1.props[k][n].owner][n] == s1.props[k][n]
    {
      var from := if k == i && n !in s0.props[i] then p else k;
      assert s1.props[k][n] == s0.props[from][n];
      var o := s0.props[from][n].owner;
      assert s0.props[from][n].name == n && o < |g.defs| && o in s0.schemata[from];
      assert n in s0.props[o] && s0.props[o][n] == s0.props[from][n];
      StepOwnerEntry(g, s0.props, s0.schemata, s1.props, s1.schemata, i, p, k, n, from, o);
    }
  }

  /** One entry of `StepOwnersOk`: the entry of `k` comes from `from`, whose
      owner `o` keeps it. */
  lemma StepOwnerEntry(g: Graph, props0: seq<map<string, Property>>, sch0: seq<set<Id>>,
                       props1: seq<map<string, Property>>, sch1: seq<set<Id>>, i: Id, p: Id, k: Id, n: string, from: Id, o: Id)
    requires |props0| == |g.defs| && |sch0| == |g.defs| && i < |g.defs| && p < |g.defs| && k < |g.defs| && o < |g.defs|
    requires props1 == props0[i := MergeAbsent(props0[i], props0[p])]
    requires sch1 == sch0[i := sch0[i] + sch0[p]]
    requires from == if k == i && n !in props0[i] then p else k
    requires n in props1[k] && n in props0[from] && props1[k][n] == props0[from][n]
    requires props0[from][n].name == n && props0[from][n].owner == o && o in sch0[from]
    requires n in props0[o] && props0[o][n] == props0[from][n]
    ensures props1[k][n].owner in sch1[k]
    ensures n in props1[o] && props1[o][n] == props1[k][n]
  {
    if o == i {
      assert n in props0[i];
      assert props1[i][n] == props0[i][n];
    }
  }

  /** One inheritance step from a resolved parent keeps `schemata` within the
      ancestors. */
  lemma StepSoundOk(g: Graph, rank: seq<nat>, s0: Snapshot, s1: Snapshot, i: Id, p: Id)
    requires Sized(g, s0) && Sized(g, s1) && Ranked(g, rank) && i < |g.defs| && p in ParentIds(g, i)
    requires SoundOk(g, rank, s0)
    requires s1.schemata == s0.schemata[i := s0.schemata[i] + s0.schemata[p]]
    ensures SoundOk(g, rank, s1)
  {
    ParentAnc(g, rank, i, p);
  }

  /** Linking schema `i` with one more ancestor `a`. */
  function LinkOne(g: Graph, s: Snapshot, i: Id, a: Id): Snapshot
    requires Sized(g, s) && i < |g.defs| && a < |g.defs|
  {
    s.(schemata := s.schemata[i := s.schemata[i] + {a}],
       names := s.names[i := s.names[i] + {g.defs[a].name}],
       descendants := s.descendants[a := s.descendants[a] + {i}])
  }

  /** Linking schema `i` with every ancestor in `ancestors`. */
  function LinkAll(g: Graph, s: Snapshot, i: Id, ancestors: set<Id>): (t: Snapshot)
    requires Sized(g, s) && i < |g.defs|
    ensures Sized(g, t)
  {
    s.(schemata := s.schemata[i := s.schemata[i] + ancestors],
       names := s.names[i := s.names[i] + NamesOf(g, ancestors)],
       descendants := seq(|s.descendants|, a requires 0 <= a < |s.descendants| =>
         if a in ancestors then s.descendants[a] + {i} else s.descendants[a]))
  }

  /** Linking one ancestor more extends the set linked so far. */
  lemma LinkAllStep(g: Graph, s: Snapshot, i: Id, done: set<Id>, a: Id)
    requires Sized(g, s) && i < |g.defs| && a < |g.defs| && a !in done
    ensures LinkOne(g, LinkAll(g, s, i, done), i, a) == LinkAll(g, s, i, done + {a})
  {
    assert NamesOf(g, done + {a}) == NamesOf(g, done) + {g.defs[a].name};
    assert s.schemata[i] + done + {a} == s.schemata[i] + (done + {a});
    assert s.names[i] + NamesOf(g, done) + {g.defs[a].name} == s.names[i] + NamesOf(g, done + {a});
  }

  /** Linking with ancestors other than the schema itself keeps the
      hierarchy invariants. */
  lemma LinkAllOk(g: Graph, s: Snapshot, i: Id, ancestors: set<Id>)
    requires Sized(g, s) && CoreOk(g, s) && i < |g.defs|
    requires forall a | a in ancestors :: a < |g.defs| && a != i
    ensures CoreOk(g, LinkAll(g, s, i, ancestors))
  {
    var t := LinkAll(g, s, i, ancestors);
    assert NamesOf(g, s.schemata[i] + ancestors) == NamesOf(g, s.schemata[i]) + NamesOf(g, ancestors);
    forall x, k | 0 <= x < |g.defs| && 0 <= k < |g.defs|
      ensures (x in t.schemata[k] && x != k) <==> k in t.descendants[x]
    {
      assert (x in s.schemata[k] && x != k) <==> k in s.descendants[x];
    }
  }


  /** The step `generate` takes for one resolved parent `p` of `i`: merge the
      parent's properties into the absent names, record the parent, and link
      `i` with each of the parent's `schemata`. */
  function Step(g: Graph, s: Snapshot, i: Id, p: Id): (t: Snapshot)
    requires Sized(g, s) && i < |g.defs| && p < |g.defs|
    ensures Sized(g, t)
  {
    LinkAll(g, s.(props := s.props[i := MergeAbsent(s.props[i], s.props[p])],
                  parents := s.parents[i := s.parents[i] + {p}]),
            i, s.schemata[p])
  }

  /** The ancestors a parent has gathered are schemata of the graph, and, the
      graph being acyclic, never the child itself. */
  lemma ParentLinks(g: Graph, rank: seq<nat>, s: Snapshot, i: Id, p: Id)
    requires Ranked(g, rank) && Sized(g, s) && i < |g.defs| && p in ParentIds(g, i)
    requires SoundOk(g, rank, s)
    ensures p < |g.defs| && forall a | a in s.schemata[p] :: a < |g.defs| && a != i
  {
    ParentAnc(g, rank, i, p);
    forall a | a in s.schemata[p] ensures a < |g.defs| && a != i {
      AncRank(g, rank, p, a);
    }
  }

  /** A step from a resolved parent keeps every hierarchy invariant; the
      parent's `schemata` are schemata of the model other than `i`. */
  lemma StepValid(g: Graph, rank: seq<nat>, s: Snapshot, i: Id, p: Id)
    requires Ranked(g, rank) && Sized(g, s) && i < |g.defs| && p in ParentIds(g, i)
    requires CoreOk(g, s) && OwnersOk(g, s) && SoundOk(g, rank, s)
    ensures p < |g.defs| && forall a | a in s.schemata[p] :: a < |g.defs| && a != i
    ensures CoreOk(g, Step(g, s, i, p)) && OwnersOk(g, Step(g, s, i, p)) && SoundOk(g, rank, Step(g, s, i, p))
  {
    ParentLinks(g, rank, s, i, p);
    var mid := s.(props := s.props[i := MergeAbsent(s.props[i], s.props[p])],
                  parents := s.parents[i := s.parents[i] + {p}]);
    assert CoreOk(g, mid);
    LinkAllOk(g, mid, i, s.schemata[p]);
    StepOwnersOk(g, s, Step(g, s, i, p), i, p);
    StepSoundOk(g, rank, s, Step(g, s, i, p), i, p);
  }

  /** Re-running the step of a parent on a generated schema changes nothing. */
  lemma StepNoop(g: Graph, rank: seq<nat>, s: Snapshot, i: Id, p: Id)
    requires Ranked(g, rank) && Sized(g, s) && CoreOk(g, s) && i < |g.defs|
    requires Generated(g, rank, s, i) && p in ParentIds(g, i)
    ensures Step(g, s, i, p) == s
  {
    ParentAnc(g, rank, i, p);
    assert LocalGen(g, rank, s, i);
    assert LocalGen(g, rank, s, p);
    NoopFields(g, s, i, p);
    forall a | a in s.schemata[p] ensures a < |g.defs| && a != i {
      AncRank(g, rank, p, a);
    }
    NoopDescendants(g, s, i, p);
  }

  /** The property, parent and ancestor fields of a step whose parent adds
      nothing new are unchanged. */
  lemma NoopFields(g: Graph, s: Snapshot, i: Id, p: Id)
    requires Sized(g, s) && CoreOk(g, s) && i < |g.defs| && p < |g.defs|
    requires s.props[p].Keys <= s.props[i].Keys && p in s.parents[i] && s.schemata[p] <= s.schemata[i]
    ensures Step(g, s, i, p).props == s.props && Step(g, s, i, p).parents == s.parents
    ensures Step(g, s, i, p).schemata == s.schemata && Step(g, s, i, p).names == s.names
  {
    assert MergeAbsent(s.props[i], s.props[p]) == s.props[i];
    assert s.parents[i] + {p} == s.parents[i];
    assert s.schemata[i] + s.schemata[p] == s.schemata[i];
    assert NamesOf(g, s.schemata[p]) <= NamesOf(g, s.schemata[i]);
    assert s.names[i] + NamesOf(g, s.schemata[p]) == s.names[i];
  }

  /** `descendants` of a step whose parent's ancestors are all linked with `i`
      already are unchanged. */
  lemma NoopDescendants(g: Graph, s: Snapshot, i: Id, p: Id)
    requires Sized(g, s) && CoreOk(g, s) && i < |g.defs| && p < |g.defs|
    requires s.schemata[p] <= s.schemata[i]
    requires forall a | a in s.schemata[p] :: a < |g.defs| && a != i
    ensures Step(g, s, i, p).descendants == s.descendants
  {
    var t := Step(g, s, i, p);
    forall a | 0 <= a < |g.defs| ensures t.descendants[a] == s.descendants[a] {
      if a in s.schemata[p] {
        assert i in s.descendants[a];
      }
    }
  }

  /** The effect of a step on the fields `Progress` speaks of. */
  predicate StepFields(g: Graph, s2: Snapshot, s3: Snapshot, i: Id, p: Id)
    requires Sized(g, s2) && Sized(g, s3) && i < |g.defs| && p < |g.defs|
  {
    && s3.props == s2.props[i := MergeAbsent(s2.props[i], s2.props[p])]
    && s3.parents[i] == s2.parents[i] + {p}
    && s3.schemata[i] == s2.schemata[i] + s2.schemata[p]
    && forall a | 0 <= a < |g.defs| && a != i :: SameAt(s2, s3, a)
  }

  lemma StepHasFields(g: Graph, s: Snapshot, i: Id, p: Id)
    requires Sized(g, s) && i < |g.defs| && p < |g.defs|
    ensures StepFields(g, s, Step(g, s, i, p), i, p)
  {
  }

  /** Fields of the schemata outside `i`'s ancestry, and of those already
      generated, are kept. */
  ghost predicate Frame(g: Graph, rank: seq<nat>, s0: Snapshot, s: Snapshot, i: Id)
    requires Ranked(g, rank) && Sized(g, s0) && Sized(g, s) && i < |g.defs|
  {
    forall k | 0 <= k < |g.defs| && (k !in Anc(g, rank, i) || Generated(g, rank, s0, k)) :: SameAt(s0, s, k)
  }

  /** Properties are only ever added: every entry of `s0` is still there. */
  predicate Grown(g: Graph, s0: Snapshot, s: Snapshot)
    requires Sized(g, s0) && Sized(g, s)
  {
    forall k, n | 0 <= k < |g.defs| && n in s0.props[k] :: n in s.props[k] && s.props[k][n] == s0.props[k][n]
  }

  /** Like `Frame`, but for every schema other than `i` itself. */
  ghost predicate Kept(g: Graph, rank: seq<nat>, s0: Snapshot, s: Snapshot, i: Id)
    requires Ranked(g, rank) && Sized(g, s0) && Sized(g, s) && i < |g.defs|
  {
    forall k | 0 <= k < |g.defs| && k != i && (k !in Anc(g, rank, i) || Generated(g, rank, s0, k)) :: SameAt(s0, s, k)
  }

  /** The first `m` names of `extends` resolve. */
  predicate Resolved(g: Graph, i: Id, m: nat)
    requires i < |g.defs| && m <= |g.defs[i].extendsNames|
  {
    forall j | 0 <= j < m :: g.defs[i].extendsNames[j] in g.index
  }

  /** The invariant of `generate`'s loop after the first `m` names of
      `extends`: those parents are resolved and generated, their properties
      merged in order, their ancestors and themselves recorded, nothing outside
      the frame touched, and nothing at all if `i` was generated already. */
  ghost predicate Progress(g: Graph, rank: seq<nat>, s0: Snapshot, s: Snapshot, i: Id, m: nat)
  {
    && Ranked(g, rank) && Sized(g, s0) && Sized(g, s) && i < |g.defs| && m <= |g.defs[i].extendsNames|
    && Resolved(g, i, m)
    && (forall j | 0 <= j < m :: Generated(g, rank, s, g.index[g.defs[i].extendsNames[j]]))
    && s.props[i] == Inherit(s0.props[i], ParentMaps(g, s.props, i, m))
    && s.schemata[i] == s0.schemata[i] + AncPrefix(g, rank, i, m)
    && s.parents[i] == s0.parents[i] + ParentPrefix(g, i, m)
    && Kept(g, rank, s0, s, i)
    && (Generated(g, rank, s0, i) ==> s == s0)
    && Grown(g, s0, s)
  }

  lemma ProgressInit(g: Graph, rank: seq<nat>, s0: Snapshot, i: Id)
    requires Ranked(g, rank) && Sized(g, s0) && i < |g.defs|
    ensures Progress(g, rank, s0, s0, i, 0)
  {
    assert s0.schemata[i] + {} == s0.schemata[i];
    assert s0.parents[i] + {} == s0.parents[i];
  }

  /** The `m`-th name of `extends`, when it resolves, names a parent below `i`
      whose ancestry lies within `i`'s and excludes `i`. */
  lemma NamedParent(g: Graph, rank: seq<nat>, i: Id, m: nat)
    requires Ranked(g, rank) && i < |g.defs| && m < |g.defs[i].extendsNames|
    requires g.defs[i].extendsNames[m] in g.index
    ensures g.index[g.defs[i].extendsNames[m]] in ParentIds(g, i)
    ensures g.index[g.defs[i].extendsNames[m]] < |g.defs|
    ensures rank[g.index[g.defs[i].extendsNames[m]]] < rank[i]
    ensures Anc(g, rank, g.index[g.defs[i].extendsNames[m]]) <= Anc(g, rank, i)
    ensures i !in Anc(g, rank, g.index[g.defs[i].extendsNames[m]])
  {
    var p := g.index[g.defs[i].extendsNames[m]];
    ParentPrefixMember(g, i, |g.defs[i].extendsNames|, p);
    ParentAnc(g, rank, i, p);
    if i in Anc(g, rank, p) {
      AncRank(g, rank, p, i);
    }
  }

  /** A frame for the whole of `generate(i)` follows from the loop's progress. */
  lemma ProgressFrame(g: Graph, rank: seq<nat>, s0: Snapshot, s: Snapshot, i: Id, m: nat)
    requires Progress(g, rank, s0, s, i, m)
    ensures Frame(g, rank, s0, s, i) && Grown(g, s0, s)
    ensures Generated(g, rank, s0, i) ==> s == s0 && LocalGen(g, rank, s0, i)
  {
    if Generated(g, rank, s0, i) {
      assert i in Anc(g, rank, i);
    }
  }

  /** When the recursive `generate` of the `m`-th parent fails, the frame of
      `generate(i)` still holds. */
  lemma FailFrame(g: Graph, rank: seq<nat>, s0: Snapshot, s1: Snapshot, s2: Snapshot, i: Id, m: nat)
    requires Progress(g, rank, s0, s1, i, m) && Sized(g, s2) && m < |g.defs[i].extendsNames|
    requires g.defs[i].extendsNames[m] in g.index
    requires Frame(g, rank, s1, s2, g.index[g.defs[i].extendsNames[m]]) && Grown(g, s1, s2)
    requires Generated(g, rank, s1, g.index[g.defs[i].extendsNames[m]]) ==> s2 == s1
    ensures Frame(g, rank, s0, s2, i) && Grown(g, s0, s2)
    ensures Generated(g, rank, s0, i) ==> Generated(g, rank, s1, g.index[g.defs[i].extendsNames[m]])
  {
    var p := g.index[g.defs[i].extendsNames[m]];
    NamedParent(g, rank, i, m);
    if Generated(g, rank, s0, i) {
      ParentAnc(g, rank, i, p);
      GeneratedDown(g, rank, s0, i, p);
    }
    forall k | 0 <= k < |g.defs| && (k !in Anc(g, rank, i) || Generated(g, rank, s0, k))
      ensures SameAt(s0, s2, k)
    {
      if k == i {
        assert i in Anc(g, rank, i);
        GeneratedDown(g, rank, s0, i, p);
      } else if Generated(g, rank, s0, k) {
        GeneratedKeptBut(g, rank, s0, s1, k, i);
      }
    }
  }

  /** After the step of the `m`-th parent, the first `m` parents are still
      generated and so is the `m`-th. */
  lemma StepKeepsParents(g: Graph, rank: seq<nat>, s1: Snapshot, s2: Snapshot, s3: Snapshot, i: Id, m: nat)
    requires Ranked(g, rank) && Sized(g, s1) && Sized(g, s2) && Sized(g, s3) && i < |g.defs| && m < |g.defs[i].extendsNames|
    requires forall a | 0 <= a < |g.defs| && a != i :: SameAt(s2, s3, a)
    requires forall j | 0 <= j <= m :: g.defs[i].extendsNames[j] in g.index
    requires forall j | 0 <= j < m :: Generated(g, rank, s1, g.index[g.defs[i].extendsNames[j]])
    requires Generated(g, rank, s2, g.index[g.defs[i].extendsNames[m]])
    requires Frame(g, rank, s1, s2, g.index[g.defs[i].extendsNames[m]])
    ensures forall j | 0 <= j <= m :: Generated(g, rank, s3, g.index[g.defs[i].extendsNames[j]])
  {
    var ext := g.defs[i].extendsNames;
    forall j | 0 <= j <= m ensures Generated(g, rank, s3, g.index[ext[j]]) {
      var q := g.index[ext[j]];
      NamedParent(g, rank, i, j);
      if j < m {
        assert Generated(g, rank, s1, q);
        GeneratedKept(g, rank, s1, s2, q);
      }
      assert Generated(g, rank, s2, q);
      GeneratedKeptOutside(g, rank, s2, s3, q, i);
    }
  }

  /** Merging the `m`-th parent's map extends the merge of the first `m`. */
  lemma MergeNext(g: Graph, own: map<string, Property>, props1: seq<map<string, Property>>,
                  props3: seq<map<string, Property>>, i: Id, m: nat)
    requires Indexed(g) && |props1| == |g.defs| && |props3| == |g.defs| && i < |g.defs|
    requires m < |g.defs[i].extendsNames| && Resolved(g, i, m + 1)
    requires forall j | 0 <= j < m ::
      props3[g.index[g.defs[i].extendsNames[j]]] == props1[g.index[g.defs[i].extendsNames[j]]]
    requires props3[i] == MergeAbsent(Inherit(own, ParentMaps(g, props1, i, m)),
                                      props3[g.index[g.defs[i].extendsNames[m]]])
    ensures props3[i] == Inherit(own, ParentMaps(g, props3, i, m + 1))
  {
    var ps := ParentMaps(g, props3, i, m + 1);
    assert ps[..m] == ParentMaps(g, props1, i, m);
  }

  /** The ancestors recorded after the `m`-th parent's step. */
  lemma AncestorsNext(g: Graph, rank: seq<nat>, base: set<Id>, before: set<Id>, after: set<Id>, i: Id, m: nat)
    requires Ranked(g, rank) && i < |g.defs| && m < |g.defs[i].extendsNames| && Resolved(g, i, m + 1)
    requires before == base + AncPrefix(g, rank, i, m)
    requires after == before + Anc(g, rank, g.index[g.defs[i].extendsNames[m]])
    ensures after == base + AncPrefix(g, rank, i, m + 1)
  {
  }

  /** The parents recorded after the `m`-th parent's step. */
  lemma ParentsNext(g: Graph, base: set<Id>, before: set<Id>, after: set<Id>, i: Id, m: nat)
    requires Indexed(g) && i < |g.defs| && m < |g.defs[i].extendsNames| && Resolved(g, i, m + 1)
    requires before == base + ParentPrefix(g, i, m)
    requires after == before + {g.index[g.defs[i].extendsNames[m]]}
    ensures after == base + ParentPrefix(g, i, m + 1)
  {
  }

  /** The frame of the loop survives the parent's generation and step. */
  lemma KeptStep(g: Graph, rank: seq<nat>, s0: Snapshot, s1: Snapshot, s2: Snapshot, s3: Snapshot, i: Id, p: Id)
    requires Ranked(g, rank) && Sized(g, s0) && Sized(g, s1) && Sized(g, s2) && Sized(g, s3)
    requires i < |g.defs| && p < |g.defs|
    requires Kept(g, rank, s0, s1, i) && (Generated(g, rank, s0, i) ==> s1 == s0)
    requires Frame(g, rank, s1, s2, p) && Anc(g, rank, p) <= Anc(g, rank, i)
    requires forall a | 0 <= a < |g.defs| && a != i :: SameAt(s2, s3, a)
    ensures Kept(g, rank, s0, s3, i)
  {
    forall k | 0 <= k < |g.defs| && k != i && (k !in Anc(g, rank, i) || Generated(g, rank, s0, k))
      ensures SameAt(s0, s3, k)
    {
      assert SameAt(s0, s1, k);
      if Generated(g, rank, s0, k) {
        GeneratedKeptBut(g, rank, s0, s1, k, i);
        assert Generated(g, rank, s1, k);
      } else {
        assert k !in Anc(g, rank, p);
      }
      assert SameAt(s1, s2, k);
      assert SameAt(s2, s3, k);
    }
  }

  /** A generated schema stays untouched by the parent's generation and step. */
  lemma NoopStep(g: Graph, rank: seq<nat>, s0: Snapshot, s1: Snapshot, s2: Snapshot, i: Id, p: Id)
    requires Ranked(g, rank) && Sized(g, s0) && Sized(g, s1) && Sized(g, s2) && i < |g.defs|
    requires p in ParentIds(g, i) && CoreOk(g, s2)
    requires Generated(g, rank, s0, i) ==> s1 == s0
    requires Generated(g, rank, s1, p) ==> s2 == s1
    ensures Generated(g, rank, s0, i) ==> Step(g, s2, i, p) == s0
  {
    if Generated(g, rank, s0, i) {
      ParentAnc(g, rank, i, p);
      GeneratedDown(g, rank, s0, i, p);
      StepNoop(g, rank, s0, i, p);
    }
  }

  /** Properties only grow in a step. */
  lemma GrownStep(g: Graph, s0: Snapshot, s1: Snapshot, s2: Snapshot, s3: Snapshot, i: Id, p: Id)
    requires Sized(g, s0) && Sized(g, s1) && Sized(g, s2) && Sized(g, s3) && i < |g.defs| && p < |g.defs|
    requires Grown(g, s0, s1) && Grown(g, s1, s2) && StepFields(g, s2, s3, i, p)
    ensures Grown(g, s0, s3)
  {
  }

  /** The first `m` parents' fields survive the `m`-th parent's generation. */
  lemma ParentsKept(g: Graph, rank: seq<nat>, s1: Snapshot, s2: Snapshot, i: Id, m: nat)
    requires Ranked(g, rank) && Sized(g, s1) && Sized(g, s2) && i < |g.defs| && m < |g.defs[i].extendsNames|
    requires Resolved(g, i, m + 1)
    requires forall j | 0 <= j < m :: Generated(g, rank, s1, g.index[g.defs[i].extendsNames[j]])
    requires Frame(g, rank, s1, s2, g.index[g.defs[i].extendsNames[m]])
    ensures forall j | 0 <= j < m :: SameAt(s1, s2, g.index[g.defs[i].extendsNames[j]])
  {
    var ext := g.defs[i].extendsNames;
    forall j | 0 <= j < m ensures SameAt(s1, s2, g.index[ext[j]]) {
      NamedParent(g, rank, i, j);
      assert Generated(g, rank, s1, g.index[ext[j]]);
    }
  }

  /** The loop invariant is kept by one resolved parent's recursive
      generation followed by its step. */
  lemma ProgressStep(g: Graph, rank: seq<nat>, s0: Snapshot, s1: Snapshot, s2: Snapshot, s3: Snapshot, i: Id, m: nat)
    requires Progress(g, rank, s0, s1, i, m) && Sized(g, s2) && Sized(g, s3) && m < |g.defs[i].extendsNames|
    requires g.defs[i].extendsNames[m] in g.index
    requires Generated(g, rank, s2, g.index[g.defs[i].extendsNames[m]])
    requires Frame(g, rank, s1, s2, g.index[g.defs[i].extendsNames[m]]) && Grown(g, s1, s2)
    requires StepFields(g, s2, s3, i, g.index[g.defs[i].extendsNames[m]])
    requires Generated(g, rank, s0, i) ==> s3 == s0
    ensures Progress(g, rank, s0, s3, i, m + 1)
  {
    ProgressStepGenerated(g, rank, s0, s1, s2, s3, i, m);
    NamedParent(g, rank, i, m);
    assert SameAt(s1, s2, i);
    ParentsKept(g, rank, s1, s2, i, m);
    forall j | 0 <= j < m ensures g.index[g.defs[i].extendsNames[j]] != i {
      NamedParent(g, rank, i, j);
    }
    forall j | 0 <= j < m
      ensures s2.props[g.index[g.defs[i].extendsNames[j]]] == s1.props[g.index[g.defs[i].extendsNames[j]]]
    {
      assert SameAt(s1, s2, g.index[g.defs[i].extendsNames[j]]);
    }
    ProgressStepMerged(g, s0.props[i], s1.props, s2.props, s3.props, i, m);
    ProgressStepLinked(g, rank, s0, s1, s2, s3, i, m);
  }

  /** The parents handled so far, and the `m`-th, stay generated. */
  lemma ProgressStepGenerated(g: Graph, rank: seq<nat>, s0: Snapshot, s1: Snapshot, s2: Snapshot, s3: Snapshot, i: Id, m: nat)
    requires Progress(g, rank, s0, s1, i, m) && Sized(g, s2) && Sized(g, s3) && m < |g.defs[i].extendsNames|
    requires g.defs[i].extendsNames[m] in g.index
    requires Generated(g, rank, s2, g.index[g.defs[i].extendsNames[m]])
    requires Frame(g, rank, s1, s2, g.index[g.defs[i].extendsNames[m]]) && Grown(g, s1, s2)
    requires StepFields(g, s2, s3, i, g.index[g.defs[i].extendsNames[m]])
    ensures Resolved(g, i, m + 1)
    ensures forall j | 0 <= j < m + 1 :: Generated(g, rank, s3, g.index[g.defs[i].extendsNames[j]])
  {
    NamedParent(g, rank, i, m);
    assert Resolved(g, i, m + 1);
    StepKeepsParents(g, rank, s1, s2, s3, i, m);
  }

  /** The first `m + 1` parents' maps are merged in order: the step merged
      the `m`-th parent's map, and the earlier parents' maps are unchanged. */
  lemma ProgressStepMerged(g: Graph, own: map<string, Property>, props1: seq<map<string, Property>>,
                           props2: seq<map<string, Property>>, props3: seq<map<string, Property>>, i: Id, m: nat)
    requires Indexed(g) && |props1| == |g.defs| && |props2| == |g.defs| && i < |g.defs|
    requires m < |g.defs[i].extendsNames| && Resolved(g, i, m + 1)
    requires props1[i] == Inherit(own, ParentMaps(g, props1, i, m)) && props2[i] == props1[i]
    requires g.index[g.defs[i].extendsNames[m]] != i
    requires forall j | 0 <= j < m ::
      props2[g.index[g.defs[i].extendsNames[j]]] == props1[g.index[g.defs[i].extendsNames[j]]]
      && g.index[g.defs[i].extendsNames[j]] != i
    requires props3 == props2[i := MergeAbsent(props2[i], props2[g.index[g.defs[i].extendsNames[m]]])]
    ensures props3[i] == Inherit(own, ParentMaps(g, props3, i, m + 1))
  {
    var ext := g.defs[i].extendsNames;
    forall j | 0 <= j < m ensures props3[g.index[ext[j]]] == props1[g.index[ext[j]]] {
    }
    MergeNext(g, own, props1, props3, i, m);
  }

  /** The ancestors and parents recorded, the frame and the growth of
      properties after the step. */
  lemma ProgressStepLinked(g: Graph, rank: seq<nat>, s0: Snapshot, s1: Snapshot, s2: Snapshot, s3: Snapshot, i: Id, m: nat)
    requires Progress(g, rank, s0, s1, i, m) && Sized(g, s2) && Sized(g, s3) && m < |g.defs[i].extendsNames|
    requires g.defs[i].extendsNames[m] in g.index
    requires Generated(g, rank, s2, g.index[g.defs[i].extendsNames[m]])
    requires Frame(g, rank, s1, s2, g.index[g.defs[i].extendsNames[m]]) && Grown(g, s1, s2)
    requires StepFields(g, s2, s3, i, g.index[g.defs[i].extendsNames[m]])
    ensures Resolved(g, i, m + 1)
    ensures s3.schemata[i] == s0.schemata[i] + AncPrefix(g, rank, i, m + 1)
    ensures s3.parents[i] == s0.parents[i] + ParentPrefix(g, i, m + 1)
    ensures Kept(g, rank, s0, s3, i) && Grown(g, s0, s3)
  {
    var ext := g.defs[i].extendsNames;
    var p := g.index[ext[m]];
    NamedParent(g, rank, i, m);
    assert Resolved(g, i, m + 1);
    assert SameAt(s1, s2, i);
    assert LocalGen(g, rank, s2, p);
    AncestorsNext(g, rank, s0.schemata[i], s2.schemata[i], s3.schemata[i], i, m);
    ParentsNext(g, s0.parents[i], s2.parents[i], s3.parents[i], i, m);
    KeptStep(g, rank, s0, s1, s2, s3, i, p);
    GrownStep(g, s0, s1, s2, s3, i, p);
  }

  /** When all of `extends` is processed, `i`'s own fields are those of a
      completed generation, apart from the listed-name checks. */
  lemma ProgressDone(g: Graph, rank: seq<nat>, s0: Snapshot, s: Snapshot, i: Id)
    requires i < |g.defs| && Progress(g, rank, s0, s, i, |g.defs[i].extendsNames|)
    requires CoreOk(g, s0) && SoundOk(g, rank, s0)
    ensures s.parents[i] == ParentIds(g, i)
    ensures s.schemata[i] == Anc(g, rank, i)
    ensures forall p | p in ParentIds(g, i) :: p < |g.defs| && s.props[p].Keys <= s.props[i].Keys
    ensures s.props[i] == Inherit(s0.props[i], ParentMaps(g, s.props, i, |g.defs[i].extendsNames|))
  {
    var ext := g.defs[i].extendsNames;
    var ps := ParentMaps(g, s.props, i, |ext|);
    InheritKeys(s0.props[i], ps);
    forall p | p in ParentIds(g, i) ensures p < |g.defs| && s.props[p].Keys <= s.props[i].Keys {
      ParentPrefixMember(g, i, |ext|, p);
      var j :| 0 <= j < |ext| && ext[j] in g.index && g.index[ext[j]] == p;
      assert ps[j] == s.props[p];
    }
  }

  /** Schema `a`'s properties in `s` are the in-order merge of its
      properties in `s0` with its parents' maps in `s`: what a successful
      `generate` of `a` started in `s0` leaves. */
  predicate MergedAt(g: Graph, s0: Snapshot, s: Snapshot, a: Id)
    requires Indexed(g) && Sized(g, s0) && Sized(g, s) && a < |g.defs|
  {
    && Resolved(g, a, |g.defs[a].extendsNames|)
    && s.props[a] == Inherit(s0.props[a], ParentMaps(g, s.props, a, |g.defs[a].extendsNames|))
  }

  /** Every schema of `ks` is merged since `s0`. */
  predicate MergedAll(g: Graph, s0: Snapshot, s: Snapshot, ks: set<Id>)
    requires Indexed(g) && Sized(g, s0) && Sized(g, s)
  {
    forall a {:trigger MergedAt(g, s0, s, a)} | a in ks && a < |g.defs| :: MergedAt(g, s0, s, a)
  }

  /** The loop state of `ResolveExtends` after `m` names of `extends`: every
      ancestor reached through them carries its merge against `s0`, and
      nothing else except the schema itself has moved. */
  ghost predicate Merging(g: Graph, rank: seq<nat>, s0: Snapshot, s: Snapshot, i: Id, m: nat)
  {
    && Ranked(g, rank) && Sized(g, s0) && Sized(g, s) && i < |g.defs| && m <= |g.defs[i].extendsNames|
    && MergedAll(g, s0, s, AncPrefix(g, rank, i, m))
    && Untouched(g, s0, s, AncPrefix(g, rank, i, m) + {i})
  }

  lemma MergingInit(g: Graph, rank: seq<nat>, s0: Snapshot, i: Id)
    requires Ranked(g, rank) && Sized(g, s0) && i < |g.defs|
    ensures Merging(g, rank, s0, s0, i, 0)
  {
    assert AncPrefix(g, rank, i, 0) == {};
  }

  /** No schema outside `ks` has changed its properties since `s0`. */
  predicate Untouched(g: Graph, s0: Snapshot, s: Snapshot, ks: set<Id>)
    requires Sized(g, s0) && Sized(g, s)
  {
    forall k {:trigger s.props[k]} | 0 <= k < |g.defs| && k !in ks :: s.props[k] == s0.props[k]
  }

  /** The parents' maps of `a` agree in two property sequences that agree on
      every parent of `a`. */
  lemma ParentMapsSame(g: Graph, props1: seq<map<string, Property>>, props2: seq<map<string, Property>>, a: Id)
    requires Indexed(g) && |props1| == |g.defs| && |props2| == |g.defs| && a < |g.defs|
    requires Resolved(g, a, |g.defs[a].extendsNames|)
    requires forall j | 0 <= j < |g.defs[a].extendsNames| ::
      props1[g.index[g.defs[a].extendsNames[j]]] == props2[g.index[g.defs[a].extendsNames[j]]]
    ensures ParentMaps(g, props1, a, |g.defs[a].extendsNames|) == ParentMaps(g, props2, a, |g.defs[a].extendsNames|)
  {
  }

  /** The merge of every ancestor reached through the first `m + 1` parents
      holds after the `m`-th parent's generation and step, and no other
      schema's properties move. */
  lemma MergedStep(g: Graph, rank: seq<nat>, s0: Snapshot, s1: Snapshot, s2: Snapshot, s3: Snapshot, i: Id, m: nat)
    requires Progress(g, rank, s0, s1, i, m) && Sized(g, s2) && Sized(g, s3) && m < |g.defs[i].extendsNames|
    requires g.defs[i].extendsNames[m] in g.index
    requires MergedAll(g, s0, s1, AncPrefix(g, rank, i, m))
    requires Untouched(g, s0, s1, AncPrefix(g, rank, i, m) + {i})
    requires MergedAll(g, s1, s2, Anc(g, rank, g.index[g.defs[i].extendsNames[m]]))
    requires Frame(g, rank, s1, s2, g.index[g.defs[i].extendsNames[m]])
    requires StepFields(g, s2, s3, i, g.index[g.defs[i].extendsNames[m]])
    ensures MergedAll(g, s0, s3, AncPrefix(g, rank, i, m + 1))
    ensures Untouched(g, s0, s3, AncPrefix(g, rank, i, m + 1) + {i})
  {
    var p := g.index[g.defs[i].extendsNames[m]];
    NamedParent(g, rank, i, m);
    assert Resolved(g, i, m + 1);
    assert forall k | 0 <= k < |g.defs| && Generated(g, rank, s1, k) :: SameAt(s1, s2, k);
    assert forall k | 0 <= k < |g.defs| && k != i :: s3.props[k] == s2.props[k] by {
      forall k | 0 <= k < |g.defs| && k != i ensures s3.props[k] == s2.props[k] {
        assert SameAt(s2, s3, k);
      }
    }
    forall a | a in AncPrefix(g, rank, i, m + 1) && a < |g.defs| ensures MergedAt(g, s0, s3, a) {
      PrefixRank(g, rank, i, m + 1, a);
      if a in AncPrefix(g, rank, i, m) {
        PrefixGenerated(g, rank, s1, i, m, a);
        assert MergedAt(g, s0, s1, a);
        MergedKept(g, rank, s0, s1, s2, s3, i, a);
      } else {
        assert a in Anc(g, rank, p);
        assert MergedAt(g, s1, s2, a) && s1.props[a] == s0.props[a];
        MergedMoved(g, rank, s0, s1, s2, s3, i, a);
      }
    }
    forall k | 0 <= k < |g.defs| && k !in AncPrefix(g, rank, i, m + 1) + {i} ensures s3.props[k] == s0.props[k] {
      assert k !in Anc(g, rank, p);
      assert SameAt(s1, s2, k);
    }
  }

  /** Members of a prefix union are ancestors strictly below `i`. */
  lemma PrefixRank(g: Graph, rank: seq<nat>, i: Id, m: nat, a: Id)
    requires Ranked(g, rank) && i < |g.defs| && m <= |g.defs[i].extendsNames|
    requires a in AncPrefix(g, rank, i, m)
    ensures a < |g.defs| && rank[a] < rank[i]
  {
    var ext := g.defs[i].extendsNames;
    AncPrefixMember(g, rank, i, m, a);
    var j :| 0 <= j < m && ext[j] in g.index && a in Anc(g, rank, g.index[ext[j]]);
    NamedParent(g, rank, i, j);
    AncRank(g, rank, g.index[ext[j]], a);
  }

  /** Members of a prefix union of generated parents are generated. */
  lemma PrefixGenerated(g: Graph, rank: seq<nat>, s: Snapshot, i: Id, m: nat, a: Id)
    requires Ranked(g, rank) && Sized(g, s) && i < |g.defs| && m <= |g.defs[i].extendsNames|
    requires Resolved(g, i, m)
    requires forall j | 0 <= j < m :: Generated(g, rank, s, g.index[g.defs[i].extendsNames[j]])
    requires a in AncPrefix(g, rank, i, m)
    ensures a < |g.defs| && Generated(g, rank, s, a)
  {
    var ext := g.defs[i].extendsNames;
    AncPrefixMember(g, rank, i, m, a);
    var j :| 0 <= j < m && ext[j] in g.index && a in Anc(g, rank, g.index[ext[j]]);
    NamedParent(g, rank, i, j);
    GeneratedDown(g, rank, s, g.index[ext[j]], a);
  }

  /** An ancestor generated before the parent's generation keeps its merge:
      neither it nor its parents change. */
  lemma MergedKept(g: Graph, rank: seq<nat>, s0: Snapshot, s1: Snapshot, s2: Snapshot, s3: Snapshot, i: Id, a: Id)
    requires Ranked(g, rank) && Sized(g, s0) && Sized(g, s1) && Sized(g, s2) && Sized(g, s3)
    requires i < |g.defs| && a < |g.defs| && rank[a] < rank[i]
    requires Generated(g, rank, s1, a) && MergedAt(g, s0, s1, a)
    requires forall k | 0 <= k < |g.defs| && Generated(g, rank, s1, k) :: SameAt(s1, s2, k)
    requires forall k | 0 <= k < |g.defs| && k != i :: s3.props[k] == s2.props[k]
    ensures MergedAt(g, s0, s3, a)
  {
    var ea := g.defs[a].extendsNames;
    assert SameAt(s1, s2, a);
    forall jj | 0 <= jj < |ea| ensures s3.props[g.index[ea[jj]]] == s1.props[g.index[ea[jj]]] {
      var q := g.index[ea[jj]];
      ParentPrefixMember(g, a, |ea|, q);
      ParentAnc(g, rank, a, q);
      GeneratedDown(g, rank, s1, a, q);
      assert SameAt(s1, s2, q);
    }
    ParentMapsSame(g, s3.props, s1.props, a);
  }

  /** An ancestor first generated by the parent's generation is merged from
      its untouched earlier map, and the step of `i` leaves it and its
      parents alone. */
  lemma MergedMoved(g: Graph, rank: seq<nat>, s0: Snapshot, s1: Snapshot, s2: Snapshot, s3: Snapshot, i: Id, a: Id)
    requires Ranked(g, rank) && Sized(g, s0) && Sized(g, s1) && Sized(g, s2) && Sized(g, s3)
    requires i < |g.defs| && a < |g.defs| && rank[a] < rank[i]
    requires MergedAt(g, s1, s2, a) && s1.props[a] == s0.props[a]
    requires forall k | 0 <= k < |g.defs| && k != i :: s3.props[k] == s2.props[k]
    ensures MergedAt(g, s0, s3, a)
  {
    var ea := g.defs[a].extendsNames;
    forall jj | 0 <= jj < |ea| ensures s3.props[g.index[ea[jj]]] == s2.props[g.index[ea[jj]]] {
      assert rank[g.index[ea[jj]]] < rank[a];
    }
    ParentMapsSame(g, s3.props, s2.props, a);
  }

  /** The step of `generate` for the `m`-th parent, once that parent is
      generated: it keeps the invariant and advances the progress to `m + 1`. */
  lemma InheritStepOk(g: Graph, rank: seq<nat>, s0: Snapshot, s1: Snapshot, s2: Snapshot, s3: Snapshot, i: Id, m: nat)
    requires Progress(g, rank, s0, s1, i, m) && m < |g.defs[i].extendsNames|
    requires g.defs[i].extendsNames[m] in g.index && Sized(g, s2)
    requires CoreOk(g, s2) && OwnersOk(g, s2) && SoundOk(g, rank, s2)
    requires Generated(g, rank, s1, g.index[g.defs[i].extendsNames[m]]) ==> s2 == s1
    requires Generated(g, rank, s2, g.index[g.defs[i].extendsNames[m]])
    requires Frame(g, rank, s1, s2, g.index[g.defs[i].extendsNames[m]]) && Grown(g, s1, s2)
    requires s3 == Step(g, s2, i, g.index[g.defs[i].extendsNames[m]])
    ensures CoreOk(g, s3) && OwnersOk(g, s3) && SoundOk(g, rank, s3)
    ensures Progress(g, rank, s0, s3, i, m + 1)
  {
    var p := g.index[g.defs[i].extendsNames[m]];
    NamedParent(g, rank, i, m);
    NoopStep(g, rank, s0, s1, s2, i, p);
    StepHasFields(g, s2, i, p);
    StepValid(g, rank, s2, i, p);
    ProgressStep(g, rank, s0, s1, s2, s3, i, m);
  }
}
