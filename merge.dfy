/**
 * Property inheritance: a child takes each parent's properties whose names it
 * does not have yet, parent by parent in the order of its `extends` list, so
 * that its own declarations and the first parent to declare a name win.
 */
module PropertyMerge {
  import opened SchemaTypes

  /** One parent's contribution: the names `own` lacks are added with the
      parent's property, every name `own` has keeps its property. */
  function MergeAbsent(own: map<string, Property>, parent: map<string, Property>): (r: map<string, Property>)
    ensures r.Keys == own.Keys + parent.Keys
    ensures forall n | n in own :: r[n] == own[n]
    ensures forall n | n in parent && n !in own :: r[n] == parent[n]
  {
    map n | n in own.Keys + parent.Keys :: if n in own then own[n] else parent[n]
  }

  /** The merge loop of one parent, over the parent's entries. */
  method MergeInto(own: map<string, Property>, parent: map<string, Property>) returns (r: map<string, Property>)
    ensures r == MergeAbsent(own, parent)
  {
    r := own;
    var todo := parent.Keys;
    while todo != {}
      invariant todo <= parent.Keys
      invariant r == MergeAbsent(own, parent - todo)
      decreases todo
    {
      var n :| n in todo;
      if n !in r {
        r := r[n := parent[n]];
      }
      todo := todo - {n};
    }
    assert parent - todo == parent;
  }

  /** The properties of a child after merging the parents' maps `ps`, in order. */
  function Inherit(own: map<string, Property>, ps: seq<map<string, Property>>): map<string, Property>
    decreases |ps|
  {
    if ps == [] then own else MergeAbsent(Inherit(own, ps[..|ps| - 1]), ps[|ps| - 1])
  }

  /** The merged names are the child's own names and every parent's names. */
  lemma {:induction false} InheritKeys(own: map<string, Property>, ps: seq<map<string, Property>>)
    ensures forall n :: n in Inherit(own, ps) <==> n in own || exists j :: 0 <= j < |ps| && n in ps[j]
    decreases |ps|
  {
    if ps != [] {
      var init := ps[..|ps| - 1];
      InheritKeys(own, init);
      forall n ensures n in Inherit(own, ps) <==> n in own || exists j :: 0 <= j < |ps| && n in ps[j] {
        if exists j :: 0 <= j < |ps| && n in ps[j] {
          var j :| 0 <= j < |ps| && n in ps[j];
          if j < |ps| - 1 {
            assert init[j] == ps[j];
          }
        }
        if exists j :: 0 <= j < |init| && n in init[j] {
          var j :| 0 <= j < |init| && n in init[j];
          assert ps[j] == init[j];
        }
      }
    }
  }

  /** The merge never overwrites a name the child already had. */
  lemma {:induction false} InheritKeepsOwn(own: map<string, Property>, ps: seq<map<string, Property>>, n: string)
    requires n in own
    ensures n in Inherit(own, ps) && Inherit(own, ps)[n] == own[n]
    decreases |ps|
  {
    if ps != [] {
      InheritKeepsOwn(own, ps[..|ps| - 1], n);
    }
  }

  /** A name the child lacks gets the property of the first parent that has it. */
  lemma {:induction false} InheritFirstWins(own: map<string, Property>, ps: seq<map<string, Property>>, n: string, j: nat)
    requires n !in own
    requires j < |ps| && n in ps[j]
    requires forall k | 0 <= k < j :: n !in ps[k]
    ensures n in Inherit(own, ps) && Inherit(own, ps)[n] == ps[j][n]
    decreases |ps|
  {
    var init := ps[..|ps| - 1];
    if j == |ps| - 1 {
      InheritKeys(own, init);
      assert n !in Inherit(own, init) by {
        forall k | 0 <= k < |init| ensures n !in init[k] {
          assert init[k] == ps[k];
        }
      }
    } else {
      forall k | 0 <= k < j ensures n !in init[k] {
        assert init[k] == ps[k];
      }
      InheritFirstWins(own, init, n, j);
      assert init[j] == ps[j];
    }
  }

  /** Every merged property is the child's own or a parent's, unchanged. */
  lemma {:induction false} InheritSources(own: map<string, Property>, ps: seq<map<string, Property>>, n: string)
    requires n in Inherit(own, ps)
    ensures (n in own && Inherit(own, ps)[n] == own[n])
         || exists j :: 0 <= j < |ps| && n in ps[j] && Inherit(own, ps)[n] == ps[j][n]
    decreases |ps|
  {
    if ps != [] {
      var init := ps[..|ps| - 1];
      var last := |ps| - 1;
      if n in Inherit(own, init) {
        InheritSources(own, init, n);
        if !(n in own && Inherit(own, ps)[n] == own[n]) {
          var j :| 0 <= j < |init| && n in init[j] && Inherit(own, init)[n] == init[j][n];
          assert ps[j] == init[j];
        }
      } else {
        assert n in ps[last] && Inherit(own, ps)[n] == ps[last][n];
      }
    }
  }

  /** Merging maps whose names the child already has changes nothing. */
  lemma {:induction false} InheritNoop(own: map<string, Property>, ps: seq<map<string, Property>>)
    requires forall j | 0 <= j < |ps| :: ps[j].Keys <= own.Keys
    ensures Inherit(own, ps) == own
    decreases |ps|
  {
    if ps != [] {
      InheritNoop(own, ps[..|ps| - 1]);
      assert MergeAbsent(own, ps[|ps| - 1]) == own;
    }
  }

  /** Merging the same parents a second time leaves the map unchanged. */
  lemma InheritIdempotent(own: map<string, Property>, ps: seq<map<string, Property>>)
    ensures Inherit(Inherit(own, ps), ps) == Inherit(own, ps)
  {
    InheritKeys(own, ps);
    InheritNoop(Inherit(own, ps), ps);
  }

  /** One parent merged twice is merged once. */
  lemma MergeAbsentIdempotent(own: map<string, Property>, parent: map<string, Property>)
    ensures MergeAbsent(MergeAbsent(own, parent), parent) == MergeAbsent(own, parent)
  {
    assert MergeAbsent(MergeAbsent(own, parent), parent).Keys == MergeAbsent(own, parent).Keys;
  }
}
