/**
 * A trie of file-system paths that counts how many times each path was
 * inserted. A path is modelled as the sequence of its components; component
 * parsing and normalisation are not part of this model, so the component type
 * is a type parameter.
 */
module PathTrie {
  import opened Wrappers

  /** A node: its children keyed by the next path component, and how many inserted paths end here. */
  datatype Trie<C(==)> = Trie(children: map<C, Trie<C>>, count: nat)

  type Path<C> = seq<C>

  /** The derived `Default` trie: no children, count 0. */
  function Empty<C(==)>(): (r: Trie<C>)
    ensures IsLeaf(r) && r.count == 0
  {
    Trie(map[], 0)
  }

  /** The child under `c`, or a fresh default node when there is none (`entry(c).or_default()`). */
  function ChildOrDefault<C(==)>(t: Trie<C>, c: C): Trie<C>
  {
    if c in t.children then t.children[c] else Empty()
  }

  /** `q` is a (not necessarily strict) prefix of `p`. */
  predicate IsPrefix<C(==)>(q: Path<C>, p: Path<C>)
  {
    |q| <= |p| && q == p[..|q|]
  }

  /** The node reached from `t` by following the components of `p`, if every step exists. */
  function Find<C(==)>(t: Trie<C>, p: Path<C>): Option<Trie<C>>
    decreases |p|
  {
    if |p| == 0 then Some(t)
    else if p[0] in t.children then Find(t.children[p[0]], p[1..])
    else None
  }

  /** How many inserted paths end at the node reached by `p`; 0 when there is no such node. */
  function CountAt<C(==)>(t: Trie<C>, p: Path<C>): nat
  {
    match Find(t, p)
    case None => 0
    case Some(n) => n.count
  }

  /**
   * Walks the components of `p`, creating every missing child on the way, and
   * bumps the count of the node the walk ends at.
   */
  function Insert<C(==)>(t: Trie<C>, p: Path<C>): (r: Trie<C>)
    // only the final node's count moves; for a non-empty path the root's count stays
    ensures r.count == if |p| == 0 then t.count + 1 else t.count
    // the root's children only ever gain the first component
    ensures |p| == 0 ==> r.children == t.children
    ensures |p| > 0 ==> r.children.Keys == t.children.Keys + {p[0]}
    decreases |p|
  {
    if |p| == 0 then t.(count := t.count + 1)
    else t.(children := t.children[p[0] := Insert(ChildOrDefault(t, p[0]), p[1..])])
  }

  /** A node is a leaf when it has no children. */
  predicate IsLeaf<C(==)>(t: Trie<C>)
  {
    |t.children| == 0
  }

  /** `extend`: insert each path in order. */
  function Extend<C(==)>(t: Trie<C>, paths: seq<Path<C>>): Trie<C>
    decreases |paths|
  {
    if |paths| == 0 then t else Extend(Insert(t, paths[0]), paths[1..])
  }

  /** `from_iter`: extend the default trie. */
  function FromIter<C(==)>(paths: seq<Path<C>>): Trie<C>
  {
    Extend(Empty(), paths)
  }

  /** The sum of the counts of every node of `t`. */
  ghost function TotalCount<C>(t: Trie<C>): nat
    decreases t
  {
    t.count + ChildrenTotal(t, t.children.Keys)
  }

  /** The sum of `TotalCount` over the children of `t` under `keys`. */
  ghost function ChildrenTotal<C>(t: Trie<C>, keys: set<C>): nat
    requires keys <= t.children.Keys
    decreases t, keys
  {
    if keys == {} then 0
    else
      var k :| k in keys;
      TotalCount(t.children[k]) + ChildrenTotal(t, keys - {k})
  }

  // ---------------------------------------------------------------------------
  // Leaves and the empty trie

  /** `is_leaf` holds exactly when no one-component path leads anywhere. */
  lemma IsLeafIffNoChild<C>(t: Trie<C>)
    ensures IsLeaf(t) <==> forall c :: Find(t, [c]).None?
  {
    if !IsLeaf(t) {
      assert t.children.Keys != {};
      var c :| c in t.children.Keys;
      assert Find(t, [c]).Some?;
    }
  }

  /** In the default trie only the root exists, and nothing has been counted. */
  lemma {:induction false} FindEmpty<C>(q: Path<C>)
    ensures Find(Empty<C>(), q).Some? <==> |q| == 0
    ensures CountAt(Empty<C>(), q) == 0
  {
  }

  // ---------------------------------------------------------------------------
  // What one insert does

  /** Inserting the empty path bumps the root's count and touches nothing else. */
  lemma InsertEmptyPath<C>(t: Trie<C>)
    ensures CountAt(Insert(t, []), []) == t.count + 1
    ensures forall q :: |q| > 0 ==> Find(Insert(t, []), q) == Find(t, q)
  {
    forall q: Path<C> | |q| > 0
      ensures Find(Insert(t, []), q) == Find(t, q)
    {
      InsertElsewhere(t, [], q);
    }
  }

  /** After inserting `p` a node exists along every prefix of `p`, and nowhere new otherwise. */
  lemma {:induction false} InsertReaches<C>(t: Trie<C>, p: Path<C>, q: Path<C>)
    ensures Find(Insert(t, p), q).Some? <==> Find(t, q).Some? || IsPrefix(q, p)
    decreases |q|
  {
    if |q| == 0 || |p| == 0 {
    } else if q[0] == p[0] {
      assert IsPrefix(q, p) <==> IsPrefix(q[1..], p[1..]);
      InsertReaches(ChildOrDefault(t, p[0]), p[1..], q[1..]);
      FindEmpty<C>(q[1..]);
    }
  }

  /** Every prefix of an inserted path is present afterwards. */
  lemma InsertCreatesPrefixes<C>(t: Trie<C>, p: Path<C>)
    ensures forall k :: 0 <= k <= |p| ==> Find(Insert(t, p), p[..k]).Some?
  {
    forall k | 0 <= k <= |p|
      ensures Find(Insert(t, p), p[..k]).Some?
    {
      InsertReaches(t, p, p[..k]);
    }
  }

  /**
   * The subtree under any path that is not a prefix of `p` is exactly what it
   * was: an insert never removes or replaces an existing child.
   */
  lemma {:induction false} InsertElsewhere<C>(t: Trie<C>, p: Path<C>, q: Path<C>)
    requires !IsPrefix(q, p)
    ensures Find(Insert(t, p), q) == Find(t, q)
    decreases |q|
  {
    if |p| == 0 {
    } else if q[0] == p[0] {
      assert !IsPrefix(q[1..], p[1..]);
      InsertElsewhere(ChildOrDefault(t, p[0]), p[1..], q[1..]);
      FindEmpty<C>(q[1..]);
    }
  }

  /** Inserting `p` adds exactly one to the count at `p` and leaves every other count alone. */
  lemma {:induction false} InsertCountAt<C>(t: Trie<C>, p: Path<C>, q: Path<C>)
    ensures CountAt(Insert(t, p), q) == CountAt(t, q) + (if q == p then 1 else 0)
    decreases |q|
  {
    if |q| == 0 || |p| == 0 {
    } else if q[0] == p[0] {
      assert q == p <==> q[1..] == p[1..];
      InsertCountAt(ChildOrDefault(t, p[0]), p[1..], q[1..]);
      FindEmpty<C>(q[1..]);
    }
  }

  /** Inserting a non-empty path only rebinds the root's child under its first component. */
  lemma InsertStep<C>(t: Trie<C>, p: Path<C>)
    requires |p| > 0
    ensures Insert(t, p) == Trie(t.children[p[0] := Insert(ChildOrDefault(t, p[0]), p[1..])], t.count)
  {
  }

  /** Two inserts commute: the order in which paths arrive does not matter. */
  lemma {:induction false} InsertCommutes<C>(t: Trie<C>, p: Path<C>, q: Path<C>)
    ensures Insert(Insert(t, p), q) == Insert(Insert(t, q), p)
    decreases |p| + |q|
  {
    if |p| == 0 && |q| == 0 {
    } else if |p| == 0 {
      InsertBumpCommutes(t, q);
    } else if |q| == 0 {
      InsertBumpCommutes(t, p);
    } else if p[0] == q[0] {
      InsertCommutes(ChildOrDefault(t, p[0]), p[1..], q[1..]);
      InsertSameHeadCommutes(t, p, q);
    } else {
      InsertDisjointCommutes(t, p, q);
    }
  }

  /** Paths sharing a first component commute when their tails commute under that component. */
  lemma InsertSameHeadCommutes<C>(t: Trie<C>, p: Path<C>, q: Path<C>)
    requires |p| > 0 && |q| > 0 && p[0] == q[0]
    requires var child := ChildOrDefault(t, p[0]);
             Insert(Insert(child, p[1..]), q[1..]) == Insert(Insert(child, q[1..]), p[1..])
    ensures Insert(Insert(t, p), q) == Insert(Insert(t, q), p)
  {
    InsertAfterSame(t, p, q);
    InsertAfterSame(t, q, p);
  }

  /** Inserting `q` after a path with the same first component inserts both tails under that component. */
  lemma InsertAfterSame<C>(t: Trie<C>, p: Path<C>, q: Path<C>)
    requires |p| > 0 && |q| > 0 && p[0] == q[0]
    ensures Insert(Insert(t, p), q)
         == Trie(t.children[p[0] := Insert(Insert(ChildOrDefault(t, p[0]), p[1..]), q[1..])], t.count)
  {
    InsertStep(t, p);
    InsertIntoRebound(t, Insert(ChildOrDefault(t, p[0]), p[1..]), q);
  }

  /** Inserting into a node whose child under `q[0]` was just rebound to `a` inserts the tail into `a`. */
  lemma InsertIntoRebound<C>(t: Trie<C>, a: Trie<C>, q: Path<C>)
    requires |q| > 0
    ensures Insert(Trie(t.children[q[0] := a], t.count), q) == Trie(t.children[q[0] := Insert(a, q[1..])], t.count)
  {
    var u := Trie(t.children[q[0] := a], t.count);
    InsertStep(u, q);
    assert ChildOrDefault(u, q[0]) == a;
    assert u.children[q[0] := Insert(a, q[1..])] == t.children[q[0] := Insert(a, q[1..])];
  }

  /** Paths with different first components touch disjoint children, so they commute. */
  lemma InsertDisjointCommutes<C>(t: Trie<C>, p: Path<C>, q: Path<C>)
    requires |p| > 0 && |q| > 0 && p[0] != q[0]
    ensures Insert(Insert(t, p), q) == Insert(Insert(t, q), p)
  {
    var c, d := p[0], q[0];
    var a := Insert(ChildOrDefault(t, c), p[1..]);
    var b := Insert(ChildOrDefault(t, d), q[1..]);
    InsertAfterOther(t, p, q);
    InsertAfterOther(t, q, p);
    UpdatesCommute(t.children, c, a, d, b);
  }

  /** Updates of a map at two different keys commute. */
  lemma UpdatesCommute<K, V>(m: map<K, V>, c: K, a: V, d: K, b: V)
    requires c != d
    ensures m[c := a][d := b] == m[d := b][c := a]
  {
  }

  /** Inserting `q` after a path with another first component reuses the original child under `q[0]`. */
  lemma InsertAfterOther<C>(t: Trie<C>, p: Path<C>, q: Path<C>)
    requires |p| > 0 && |q| > 0 && p[0] != q[0]
    ensures Insert(Insert(t, p), q)
         == Trie(t.children[p[0] := Insert(ChildOrDefault(t, p[0]), p[1..])]
                          [q[0] := Insert(ChildOrDefault(t, q[0]), q[1..])], t.count)
  {
    var pt := Insert(t, p);
    InsertStep(t, p);
    assert ChildOrDefault(pt, q[0]) == ChildOrDefault(t, q[0]);
    InsertStep(pt, q);
  }

  /** Inserting the empty path commutes with inserting any path. */
  lemma InsertBumpCommutes<C>(t: Trie<C>, q: Path<C>)
    requires |q| > 0
    ensures Insert(Insert(t, []), q) == Insert(Insert(t, q), [])
  {
    var bt := Insert(t, []);
    InsertStep(bt, q);
    InsertStep(t, q);
    assert ChildOrDefault(bt, q[0]) == ChildOrDefault(t, q[0]);
  }

  // ---------------------------------------------------------------------------
  // Total count

  /** Summing the children in any order: `k` may be taken out first. */
  lemma {:induction false} ChildrenTotalPick<C>(t: Trie<C>, keys: set<C>, k: C)
    requires keys <= t.children.Keys && k in keys
    ensures ChildrenTotal(t, keys) == TotalCount(t.children[k]) + ChildrenTotal(t, keys - {k})
    decreases keys
  {
    var j :| j in keys && ChildrenTotal(t, keys) == TotalCount(t.children[j]) + ChildrenTotal(t, keys - {j});
    if j != k {
      ChildrenTotalPick(t, keys - {j}, k);
      ChildrenTotalPick(t, keys - {k}, j);
      assert keys - {j} - {k} == keys - {k} - {j};
    }
  }

  /** The children sum only depends on the children it sums. */
  lemma {:induction false} ChildrenTotalAgree<C>(t: Trie<C>, u: Trie<C>, keys: set<C>)
    requires keys <= t.children.Keys && keys <= u.children.Keys
    requires forall k :: k in keys ==> t.children[k] == u.children[k]
    ensures ChildrenTotal(t, keys) == ChildrenTotal(u, keys)
    decreases keys
  {
    if keys != {} {
      var j :| j in keys && ChildrenTotal(t, keys) == TotalCount(t.children[j]) + ChildrenTotal(t, keys - {j});
      ChildrenTotalPick(u, keys, j);
      ChildrenTotalAgree(t, u, keys - {j});
    }
  }

  /** Each insert adds exactly one to the sum of all counts. */
  lemma {:induction false} InsertTotal<C>(t: Trie<C>, p: Path<C>)
    ensures TotalCount(Insert(t, p)) == TotalCount(t) + 1
    decreases |p|
  {
    if |p| == 0 {
      ChildrenTotalAgree(Insert(t, p), t, t.children.Keys);
    } else {
      InsertTotal(ChildOrDefault(t, p[0]), p[1..]);
      InsertStep(t, p);
      var x := Insert(ChildOrDefault(t, p[0]), p[1..]);
      if p[0] in t.children {
        RebindPresentTotal(t, p[0], x);
      } else {
        DefaultChildTotal(t, p[0]);
        RebindAbsentTotal(t, p[0], x);
      }
    }
  }

  /** Replacing the child under `c` changes the sum by the difference between the new and the old child. */
  lemma RebindPresentTotal<C>(t: Trie<C>, c: C, x: Trie<C>)
    requires c in t.children
    ensures TotalCount(Trie(t.children[c := x], t.count)) + TotalCount(t.children[c]) == TotalCount(t) + TotalCount(x)
  {
    var r := Trie(t.children[c := x], t.count);
    RootTotalSplit(r, c);
    OthersTotal(t, r, c);
    RootTotalSplit(t, c);
  }

  /** Adding a child under a new component `c` adds that child's sum. */
  lemma RebindAbsentTotal<C>(t: Trie<C>, c: C, x: Trie<C>)
    requires c !in t.children
    ensures TotalCount(Trie(t.children[c := x], t.count)) == TotalCount(t) + TotalCount(x)
  {
    var r := Trie(t.children[c := x], t.count);
    RootTotalSplit(r, c);
    OthersTotal(t, r, c);
    NewChildTotal(t, c);
  }

  /** The default child under a missing component counts nothing. */
  lemma DefaultChildTotal<C>(t: Trie<C>, c: C)
    requires c !in t.children
    ensures TotalCount(ChildOrDefault(t, c)) == 0
  {
    var e := Empty<C>();
    EmptyTotal<C>();
    assert ChildOrDefault(t, c) == e;
  }

  /** Children other than `c` sum the same in two nodes that only differ at `c`. */
  lemma OthersTotal<C>(t: Trie<C>, r: Trie<C>, c: C)
    requires r.children.Keys == t.children.Keys + {c}
    requires forall k :: k in t.children && k != c ==> r.children[k] == t.children[k]
    ensures ChildrenTotal(r, r.children.Keys - {c}) == ChildrenTotal(t, t.children.Keys - {c})
  {
    assert r.children.Keys - {c} == t.children.Keys - {c};
    ChildrenTotalAgree(r, t, t.children.Keys - {c});
  }

  /** Without a child under `c`, leaving `c` out of the children sum changes nothing. */
  lemma NewChildTotal<C>(t: Trie<C>, c: C)
    requires c !in t.children
    ensures ChildrenTotal(t, t.children.Keys - {c}) == ChildrenTotal(t, t.children.Keys)
  {
    var keys := t.children.Keys;
    assert keys - {c} == keys;
  }

  /** The default trie counts nothing. */
  lemma EmptyTotal<C>()
    ensures TotalCount(Empty<C>()) == 0
  {
    var e := Empty<C>();
    assert e.children.Keys == {};
    assert ChildrenTotal(e, {}) == 0;
  }

  /** The sum of a node splits into its own count, the child under `c`, and the other children. */
  lemma RootTotalSplit<C>(t: Trie<C>, c: C)
    requires c in t.children
    ensures TotalCount(t) == t.count + TotalCount(t.children[c]) + ChildrenTotal(t, t.children.Keys - {c})
  {
    ChildrenTotalPick(t, t.children.Keys, c);
  }

  // ---------------------------------------------------------------------------
  // extend and from_iter

  /** Extending by a concatenation is extending twice. */
  lemma {:induction false} ExtendAppend<C>(t: Trie<C>, xs: seq<Path<C>>, ys: seq<Path<C>>)
    ensures Extend(t, xs + ys) == Extend(Extend(t, xs), ys)
    decreases |xs|
  {
    if |xs| == 0 {
      assert xs + ys == ys;
    } else {
      assert (xs + ys)[1..] == xs[1..] + ys;
      ExtendAppend(Insert(t, xs[0]), xs[1..], ys);
    }
  }

  /** Extending by two paths is inserting them one after the other. */
  lemma ExtendPair<C>(t: Trie<C>, p: Path<C>, q: Path<C>)
    ensures Extend(t, [p, q]) == Insert(Insert(t, p), q)
  {
    assert [p, q][1..] == [q];
    assert [q][1..] == [];
    assert Extend(t, [p, q]) == Extend(Insert(t, p), [q]);
    assert Extend(Insert(t, p), [q]) == Extend(Insert(Insert(t, p), q), []);
  }

  /** Swapping two neighbouring paths of a batch does not change the trie it builds. */
  lemma ExtendSwapAdjacent<C>(t: Trie<C>, xs: seq<Path<C>>, p: Path<C>, q: Path<C>, ys: seq<Path<C>>)
    ensures Extend(t, xs + [p, q] + ys) == Extend(t, xs + [q, p] + ys)
  {
    var mid := Extend(t, xs);
    ExtendAppend(t, xs + [p, q], ys);
    ExtendAppend(t, xs, [p, q]);
    ExtendAppend(t, xs + [q, p], ys);
    ExtendAppend(t, xs, [q, p]);
    ExtendPair(mid, p, q);
    ExtendPair(mid, q, p);
    InsertCommutes(mid, p, q);
  }

  /** The count at each path grows by the number of times the path occurs in the batch. */
  lemma {:induction false} ExtendCountAt<C>(t: Trie<C>, paths: seq<Path<C>>, q: Path<C>)
    ensures CountAt(Extend(t, paths), q) == CountAt(t, q) + multiset(paths)[q]
    decreases |paths|
  {
    if |paths| > 0 {
      assert paths == [paths[0]] + paths[1..];
      assert multiset(paths) == multiset([paths[0]]) + multiset(paths[1..]);
      InsertCountAt(t, paths[0], q);
      ExtendCountAt(Insert(t, paths[0]), paths[1..], q);
    }
  }

  /** Extending by a batch adds the batch's length to the sum of all counts. */
  lemma {:induction false} ExtendTotal<C>(t: Trie<C>, paths: seq<Path<C>>)
    ensures TotalCount(Extend(t, paths)) == TotalCount(t) + |paths|
    decreases |paths|
  {
    if |paths| > 0 {
      InsertTotal(t, paths[0]);
      ExtendTotal(Insert(t, paths[0]), paths[1..]);
    }
  }

  /** Extending a trie that counts nothing yields a sum equal to the batch's length. */
  lemma ExtendTotalFromZero<C>(t: Trie<C>, paths: seq<Path<C>>)
    requires TotalCount(t) == 0
    ensures TotalCount(Extend(t, paths)) == |paths|
  {
    ExtendTotal(t, paths);
  }

  /** A trie built from a batch counts every path exactly as often as it occurs. */
  lemma FromIterCountAt<C>(paths: seq<Path<C>>, q: Path<C>)
    ensures CountAt(FromIter(paths), q) == multiset(paths)[q]
  {
    ExtendCountAt(Empty(), paths, q);
    FindEmpty<C>(q);
  }

  /** The counts of a trie built from a batch sum to the batch's length. */
  lemma FromIterTotal<C>(paths: seq<Path<C>>)
    ensures TotalCount(FromIter(paths)) == |paths|
  {
    var e := Empty<C>();
    EmptyTotal<C>();
    ExtendTotalFromZero(e, paths);
    assert FromIter(paths) == Extend(e, paths);
  }

  /** `Extend::extend` as the loop the source runs, one insert per path in order. */
  method ExtendLoop<C(==)>(t: Trie<C>, paths: seq<Path<C>>) returns (r: Trie<C>)
    ensures r == Extend(t, paths)
    ensures forall q :: CountAt(r, q) == CountAt(t, q) + multiset(paths)[q]
  {
    r := t;
    for i := 0 to |paths|
      invariant r == Extend(t, paths[..i])
    {
      ExtendAppend(t, paths[..i], [paths[i]]);
      assert paths[..i + 1] == paths[..i] + [paths[i]];
      r := Insert(r, paths[i]);
    }
    assert paths[..|paths|] == paths;
    forall q: Path<C>
      ensures CountAt(r, q) == CountAt(t, q) + multiset(paths)[q]
    {
      ExtendCountAt(t, paths, q);
    }
  }

  /** `FromIterator::from_iter`: start from the default trie and extend it. */
  method FromIterLoop<C(==)>(paths: seq<Path<C>>) returns (r: Trie<C>)
    ensures r == FromIter(paths)
    ensures forall q :: CountAt(r, q) == multiset(paths)[q]
  {
    r := ExtendLoop(Empty(), paths);
    forall q: Path<C>
      ensures CountAt(r, q) == multiset(paths)[q]
    {
      FindEmpty<C>(q);
    }
  }
}
