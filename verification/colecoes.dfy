/** The parent/child layout shared by opinions and their notes and by
    dossiers and their activity reports. A child document gets a key that
    the store generates and carries the id of its owner; the parent
    document, stored under its own id, keeps the list of its children's
    keys. Reads rebuild the children from the back-references, so the key
    list is only a cache; `Mirrored` says that the cache is exact. */
module Colecoes {

  /** A store-generated key of a child document. */
  type ObjectId = nat

  /** A child document: its payload and the id of its owner. */
  datatype Child<T> = Child(payload: T, owner: string)

  /** A parent document: its own fields and the cached keys of its children. */
  datatype Parent<F> = Parent(fields: F, keys: seq<ObjectId>)

  function Elements(s: seq<ObjectId>): set<ObjectId>
  {
    set x | x in s
  }

  /** No entry of `s` occurs twice. */
  predicate Distinct<X(==)>(s: seq<X>)
  {
    forall i, j :: 0 <= i < j < |s| ==> s[i] != s[j]
  }

  /** The keys of the children whose back-reference is `id`. */
  function ChildKeys<T>(children: map<ObjectId, Child<T>>, id: string): set<ObjectId>
  {
    set k | k in children && children[k].owner == id
  }

  /** Every key in use is below the next key the counter will hand out. */
  ghost predicate Fresh<T>(children: map<ObjectId, Child<T>>, next: ObjectId)
  {
    forall k :: k in children ==> k < next
  }

  /** No child is orphaned, and each parent's cached key list names
      exactly its children, each once. */
  ghost predicate Mirrored<F, T>(parents: map<string, Parent<F>>, children: map<ObjectId, Child<T>>)
  {
    && (forall k :: k in children ==> children[k].owner in parents)
    && (forall id {:trigger ChildKeys(children, id)} :: id in parents ==>
          Distinct(parents[id].keys) && Elements(parents[id].keys) == ChildKeys(children, id))
  }

  /** `order` lists the children of `id`, each exactly once, in some order. */
  ghost predicate Enumerates<T>(order: seq<ObjectId>, children: map<ObjectId, Child<T>>, id: string)
  {
    Distinct(order) && Elements(order) == ChildKeys(children, id)
  }

  /** The payloads of the children listed in `order`, in that order. */
  function Payloads<T>(children: map<ObjectId, Child<T>>, order: seq<ObjectId>): (items: seq<T>)
    requires forall k :: k in order ==> k in children
    ensures |items| == |order|
    ensures forall i :: 0 <= i < |order| ==> items[i] == children[order[i]].payload
  {
    if order == [] then []
    else Payloads(children, order[..|order| - 1]) + [children[order[|order| - 1]].payload]
  }

  /** The keys `start`, `start + 1`, ... handed out by `n` inserts in a row. */
  function KeyRange(start: ObjectId, n: nat): seq<ObjectId>
  {
    if n == 0 then [] else KeyRange(start, n - 1) + [start + n - 1]
  }

  /** The run of keys has length `n` and holds `start + i` at position `i`. */
  lemma {:induction false} KeyRangeShape(start: ObjectId, n: nat)
    ensures |KeyRange(start, n)| == n
    ensures forall i :: 0 <= i < n ==> KeyRange(start, n)[i] == start + i
  {
    if n != 0 {
      KeyRangeShape(start, n - 1);
    }
  }

  /** The child documents that inserting the first `n` of `items` in a row
      creates, each tagged with `owner`. */
  function Tagged<T>(start: ObjectId, items: seq<T>, n: nat, owner: string): map<ObjectId, Child<T>>
    requires n <= |items|
  {
    if n == 0 then map[]
    else Tagged(start, items, n - 1, owner)[start + n - 1 := Child(items[n - 1], owner)]
  }

  /** The run occupies exactly the keys `start` to `start + n - 1`, and
      key `start + i` holds the `i`-th item. */
  lemma {:induction false} TaggedShape<T>(start: ObjectId, items: seq<T>, n: nat, owner: string)
    requires n <= |items|
    ensures forall k :: k in Tagged(start, items, n, owner) <==> start <= k < start + n
    ensures forall i :: 0 <= i < n ==> Tagged(start, items, n, owner)[start + i] == Child(items[i], owner)
  {
    if n != 0 {
      TaggedShape(start, items, n - 1, owner);
    }
  }

  /** A non-empty list is its head followed by its tail. */
  lemma Unfold(s: seq<ObjectId>)
    requires s != []
    ensures Elements(s) == {s[0]} + Elements(s[1..])
    ensures Distinct(s) <==> s[0] !in s[1..] && Distinct(s[1..])
  {
  }

  /** Appending a key adds it to the set of elements, and keeps the list
      free of repetitions exactly when the key is new. */
  lemma Snoc(s: seq<ObjectId>, k: ObjectId)
    ensures Elements(s + [k]) == Elements(s) + {k}
    ensures Distinct(s + [k]) <==> Distinct(s) && k !in s
  {
    var t := s + [k];
    assert forall i | 0 <= i < |s| :: t[i] == s[i];
    assert t[|s|] == k;
    if Distinct(t) {
      forall i | 0 <= i < |s| ensures s[i] != k {
        assert t[i] != t[|s|];
      }
    }
  }

  /** Adding one entry to the right operand of a union adds it to the union. */
  lemma UnionUpdate<V>(a: map<ObjectId, V>, b: map<ObjectId, V>, k: ObjectId, v: V)
    ensures a + b[k := v] == (a + b)[k := v]
  {
  }

  /** The store's array pull: removes every occurrence of `k`, keeping the
      order of the rest. */
  function Pull(s: seq<ObjectId>, k: ObjectId): (r: seq<ObjectId>)
    ensures Elements(r) == Elements(s) - {k}
    ensures Distinct(s) ==> Distinct(r)
    ensures k !in s ==> r == s
  {
    if s == [] then []
    else
      var rest := Pull(s[1..], k);
      Unfold(s);
      if s[0] == k then rest
      else
        Unfold([s[0]] + rest);
        assert ([s[0]] + rest)[1..] == rest;
        [s[0]] + rest
  }

  /** The list with every element of `ks` filtered out, order kept. */
  function Without(s: seq<ObjectId>, ks: set<ObjectId>): (r: seq<ObjectId>)
    ensures Elements(r) == Elements(s) - ks
    ensures Distinct(s) ==> Distinct(r)
  {
    if s == [] then []
    else
      var rest := Without(s[1..], ks);
      Unfold(s);
      if s[0] in ks then rest
      else
        Unfold([s[0]] + rest);
        assert ([s[0]] + rest)[1..] == rest;
        [s[0]] + rest
  }

  /** Pulling keys one at a time, in any order, filters them all out. */
  lemma {:induction false} PullWithout(s: seq<ObjectId>, ks: set<ObjectId>, k: ObjectId)
    ensures Pull(Without(s, ks), k) == Without(s, ks + {k})
  {
    if s != [] {
      PullWithout(s[1..], ks, k);
    }
  }

  /** Filtering out nothing leaves the list as it was. */
  lemma {:induction false} WithoutNothing(s: seq<ObjectId>)
    ensures Without(s, {}) == s
  {
    if s != [] {
      WithoutNothing(s[1..]);
      assert s == [s[0]] + s[1..];
    }
  }

  /** A list without repetitions has as many elements as its set. */
  lemma {:induction false} DistinctCard(s: seq<ObjectId>)
    requires Distinct(s)
    ensures |Elements(s)| == |s|
  {
    if s != [] {
      DistinctCard(s[1..]);
      assert Elements(s) == {s[0]} + Elements(s[1..]);
      assert s[0] !in Elements(s[1..]);
    }
  }

  /** The cached key list is as long as the list of children a read
      rebuilds. */
  lemma CachedKeysCountChildren<F, T>(parents: map<string, Parent<F>>, children: map<ObjectId, Child<T>>, id: string)
    requires Mirrored(parents, children) && id in parents
    ensures |parents[id].keys| == |ChildKeys(children, id)|
  {
    assert Elements(parents[id].keys) == ChildKeys(children, id);
    DistinctCard(parents[id].keys);
  }

  /** Rewriting a parent's own fields leaves its key list, and so the
      cache, as it was. */
  lemma UpdateFieldsKeepsMirrored<F, T>(parents: map<string, Parent<F>>, children: map<ObjectId, Child<T>>, id: string, fields: F)
    requires Mirrored(parents, children) && id in parents
    ensures Mirrored(parents[id := parents[id].(fields := fields)], children)
  {
    var parents' := parents[id := parents[id].(fields := fields)];
    forall id' | id' in parents'
      ensures Elements(parents'[id'].keys) == ChildKeys(children, id')
    {
      assert parents'[id'].keys == parents[id'].keys;
    }
  }

  /** Under the invariant an id that names no stored parent has no
      children: every child points at a stored parent. */
  lemma NoChildrenYet<F, T>(parents: map<string, Parent<F>>, children: map<ObjectId, Child<T>>, id: string)
    requires Mirrored(parents, children) && id !in parents
    ensures ChildKeys(children, id) == {}
  {
    forall k | k in children
      ensures children[k].owner != id
    {
      assert children[k].owner in parents;
    }
  }

  /** Storing a new parent without children keeps the cache exact: no
      orphan already points at its id. */
  lemma AddParentKeepsMirrored<F, T>(parents: map<string, Parent<F>>, children: map<ObjectId, Child<T>>, id: string, fields: F)
    requires Mirrored(parents, children) && id !in parents
    ensures Mirrored(parents[id := Parent(fields, [])], children)
  {
    var parents' := parents[id := Parent(fields, [])];
    forall id' | id' in parents'
      ensures Distinct(parents'[id'].keys) && Elements(parents'[id'].keys) == ChildKeys(children, id')
    {
      if id' == id {
        NoChildrenYet(parents, children, id);
      } else {
        assert id' in parents;
        assert parents'[id'] == parents[id'];
        assert Elements(parents[id'].keys) == ChildKeys(children, id');
        assert Distinct(parents[id'].keys);
      }
    }
  }

  /** Inserting a child with a fresh key and then pushing that key onto its
      parent keeps the cache exact. */
  lemma AddChildKeepsMirrored<F, T>(parents: map<string, Parent<F>>, children: map<ObjectId, Child<T>>,
                                     id: string, k: ObjectId, payload: T)
    requires Mirrored(parents, children) && id in parents && k !in children
    ensures Mirrored(parents[id := parents[id].(keys := parents[id].keys + [k])], children[k := Child(payload, id)])
    ensures ChildKeys(children[k := Child(payload, id)], id) == ChildKeys(children, id) + {k}
  {
    var children' := children[k := Child(payload, id)];
    forall id' | id' in parents
      ensures ChildKeys(children', id') == if id' == id then ChildKeys(children, id) + {k} else ChildKeys(children, id')
    {
    }
    assert k !in parents[id].keys;
    assert Elements(parents[id].keys + [k]) == Elements(parents[id].keys) + {k};
  }

  /** Inserting a child under a fresh key gives its owner exactly one more
      child, so a read of the owner returns one more item. */
  lemma AddChildGrowsByOne<T>(children: map<ObjectId, Child<T>>, id: string, k: ObjectId, payload: T)
    requires k !in children
    ensures ChildKeys(children[k := Child(payload, id)], id) == ChildKeys(children, id) + {k}
    ensures |ChildKeys(children[k := Child(payload, id)], id)| == |ChildKeys(children, id)| + 1
  {
  }

  /** Deleting some children of one parent and filtering their keys out
      of its key list keeps the cache exact; the parent is left with the
      rest of its children. */
  lemma DropChildrenKeepsMirrored<F, T>(parents: map<string, Parent<F>>, children: map<ObjectId, Child<T>>,
                                        id: string, gone: set<ObjectId>)
    requires Mirrored(parents, children) && id in parents && gone <= ChildKeys(children, id)
    ensures Mirrored(parents[id := parents[id].(keys := Without(parents[id].keys, gone))], children - gone)
    ensures ChildKeys(children - gone, id) == ChildKeys(children, id) - gone
  {
    var parents' := parents[id := parents[id].(keys := Without(parents[id].keys, gone))];
    var children' := children - gone;
    forall id' | id' in parents'
      ensures Distinct(parents'[id'].keys)
      ensures Elements(parents'[id'].keys) == ChildKeys(children', id')
    {
      assert Elements(parents[id'].keys) == ChildKeys(children, id');
      if id' == id {
        assert ChildKeys(children', id) == ChildKeys(children, id) - gone;
      } else {
        assert ChildKeys(children', id') == ChildKeys(children, id');
      }
    }
  }

  /** Deleting every child of a parent and then the parent keeps the cache
      exact; afterwards nothing points at the id. */
  lemma CascadeKeepsMirrored<F, T>(parents: map<string, Parent<F>>, children: map<ObjectId, Child<T>>, id: string)
    requires Mirrored(parents, children)
    ensures Mirrored(parents - {id}, children - ChildKeys(children, id))
    ensures ChildKeys(children - ChildKeys(children, id), id) == {}
  {
    var children' := children - ChildKeys(children, id);
    forall id' | id' in parents && id' != id
      ensures ChildKeys(children', id') == ChildKeys(children, id')
    {
    }
  }

  /** A run of fresh children tagged with `id` gives `id` exactly the keys
      of the run, when it had no children before, and leaves every other
      owner's children as they were. */
  lemma {:induction false} AdoptedChildKeys<T>(children: map<ObjectId, Child<T>>, id: string, start: ObjectId, items: seq<T>)
    requires Fresh(children, start) && ChildKeys(children, id) == {}
    ensures ChildKeys(children + Tagged(start, items, |items|, id), id) == Elements(KeyRange(start, |items|))
    ensures forall id' | id' != id :: ChildKeys(children + Tagged(start, items, |items|, id), id') == ChildKeys(children, id')
  {
    var tagged: map<ObjectId, Child<T>> := Tagged(start, items, |items|, id);
    var children': map<ObjectId, Child<T>> := children + tagged;
    var keys := KeyRange(start, |items|);
    TaggedShape(start, items, |items|, id);
    KeyRangeShape(start, |items|);
    forall k | k in tagged
      ensures k !in children && tagged[k].owner == id
    {
      assert tagged[start + (k - start)] == Child(items[k - start], id);
    }
    forall id' | id' != id
      ensures ChildKeys(children', id') == ChildKeys(children, id')
    {
    }
    forall k | k in children
      ensures children[k].owner != id
    {
      assert k !in ChildKeys(children, id);
    }
    forall k | k in ChildKeys(children', id)
      ensures k in Elements(keys)
    {
      assert k in tagged;
      assert keys[k - start] == k;
    }
    forall k | k in Elements(keys)
      ensures k in ChildKeys(children', id)
    {
      var i :| 0 <= i < |keys| && keys[i] == k;
      assert k in tagged;
    }
  }

  /** Inserting a run of fresh children for a new id and then storing the
      parent with their keys, in insertion order, leaves the cache exact. */
  lemma AdoptKeepsMirrored<F, T>(parents: map<string, Parent<F>>, children: map<ObjectId, Child<T>>,
                                  id: string, fields: F, start: ObjectId, items: seq<T>)
    requires Mirrored(parents, children) && Fresh(children, start) && id !in parents
    ensures Mirrored(parents[id := Parent(fields, KeyRange(start, |items|))], children + Tagged(start, items, |items|, id))
    ensures ChildKeys(children + Tagged(start, items, |items|, id), id) == Elements(KeyRange(start, |items|))
  {
    var tagged: map<ObjectId, Child<T>> := Tagged(start, items, |items|, id);
    var children': map<ObjectId, Child<T>> := children + tagged;
    var keys := KeyRange(start, |items|);
    var parents' := parents[id := Parent(fields, keys)];
    NoChildrenYet(parents, children, id);
    AdoptedChildKeys(children, id, start, items);
    TaggedShape(start, items, |items|, id);
    KeyRangeShape(start, |items|);
    forall k | k in children'
      ensures children'[k].owner in parents'
    {
      if k !in tagged {
        assert children'[k] == children[k];
      } else {
        assert tagged[start + (k - start)] == Child(items[k - start], id);
      }
    }
    forall id' | id' in parents'
      ensures Distinct(parents'[id'].keys)
      ensures Elements(parents'[id'].keys) == ChildKeys(children', id')
    {
      if id' != id {
        assert Elements(parents[id'].keys) == ChildKeys(children, id');
      }
    }
  }

  /** The cursor has visited the keys in `order`, has those in `pending`
      still to visit, and `items` holds the payloads visited so far. */
  ghost predicate Visited<T>(children: map<ObjectId, Child<T>>, id: string, order: seq<ObjectId>,
                             pending: set<ObjectId>, items: seq<T>)
  {
    && Distinct(order)
    && Elements(order) !! pending
    && Elements(order) + pending == ChildKeys(children, id)
    && (forall k :: k in order ==> k in children)
    && items == Payloads(children, order)
  }

  /** Visiting one more pending key keeps the cursor's bookkeeping. */
  lemma VisitStep<T>(children: map<ObjectId, Child<T>>, id: string, order: seq<ObjectId>,
                     pending: set<ObjectId>, items: seq<T>, k: ObjectId)
    requires Visited(children, id, order, pending, items) && k in pending
    ensures Visited(children, id, order + [k], pending - {k}, items + [children[k].payload])
  {
    Snoc(order, k);
    assert (order + [k])[..|order|] == order;
  }

  /** Walks the cursor over the children of `id`, in the store's order,
      collecting their payloads. */
  method Gather<T>(children: map<ObjectId, Child<T>>, id: string) returns (items: seq<T>, ghost order: seq<ObjectId>)
    ensures Enumerates(order, children, id)
    ensures forall k :: k in order ==> k in children
    ensures items == Payloads(children, order)
    ensures |items| == |ChildKeys(children, id)|
  {
    var pending := ChildKeys(children, id);
    items, order := [], [];
    while pending != {}
      invariant Visited(children, id, order, pending, items)
      decreases pending
    {
      var k :| k in pending;
      VisitStep(children, id, order, pending, items, k);
      items := items + [children[k].payload];
      order := order + [k];
      pending := pending - {k};
    }
    DistinctCard(order);
  }

  /** Each entry of a list without repetitions occurs in it exactly once. */
  lemma {:induction false} DistinctMultiplicity(s: seq<ObjectId>, x: ObjectId)
    requires Distinct(s)
    ensures multiset(s)[x] == if x in s then 1 else 0
  {
    if s != [] {
      assert s == [s[0]] + s[1..];
      Unfold(s);
      DistinctMultiplicity(s[1..], x);
    }
  }

  /** Two lists without repetitions that name the same keys are
      permutations of each other. */
  lemma SameKeysSameMultiset(a: seq<ObjectId>, b: seq<ObjectId>)
    requires Distinct(a) && Distinct(b) && Elements(a) == Elements(b)
    ensures multiset(a) == multiset(b)
  {
    forall x
      ensures multiset(a)[x] == multiset(b)[x]
    {
      DistinctMultiplicity(a, x);
      DistinctMultiplicity(b, x);
      assert x in a <==> x in Elements(a);
      assert x in b <==> x in Elements(b);
    }
  }

  /** Collecting the payloads of two lists of keys, one after the other,
      collects the payloads of their concatenation. */
  lemma PayloadsAppend<T>(children: map<ObjectId, Child<T>>, s: seq<ObjectId>, t: seq<ObjectId>)
    requires forall k :: k in s ==> k in children
    requires forall k :: k in t ==> k in children
    ensures Payloads(children, s + t) == Payloads(children, s) + Payloads(children, t)
  {
    var st := s + t;
    assert forall i | 0 <= i < |s| :: st[i] == s[i];
    assert forall i | 0 <= i < |t| :: st[|s| + i] == t[i];
  }

  /** A list is its entry at `j` between what comes before and after. */
  lemma SplitAt(b: seq<ObjectId>, j: nat)
    requires j < |b|
    ensures b == b[..j] + [b[j]] + b[j + 1..]
    ensures multiset(b[..j] + b[j + 1..]) == multiset(b) - multiset{b[j]}
  {
    assert b == b[..j] + [b[j]] + b[j + 1..];
  }

  /** Taking the key at `j` out of a list takes one occurrence of its
      payload out of the payloads collected. */
  lemma PayloadsTakeOut<T>(children: map<ObjectId, Child<T>>, b: seq<ObjectId>, j: nat)
    requires forall k :: k in b ==> k in children
    requires j < |b|
    ensures multiset(Payloads(children, b)) ==
      multiset(Payloads(children, b[..j] + b[j + 1..])) + multiset{children[b[j]].payload}
  {
    var b1, x, b2 := b[..j], b[j], b[j + 1..];
    SplitAt(b, j);
    PayloadsAppend(children, b1 + [x], b2);
    PayloadsAppend(children, b1, [x]);
    PayloadsAppend(children, b1, b2);
  }

  /** Visiting the same keys in another order collects the same payloads
      in another order. */
  lemma {:induction false} PayloadsPermutation<T>(children: map<ObjectId, Child<T>>, a: seq<ObjectId>, b: seq<ObjectId>)
    requires forall k :: k in a ==> k in children
    requires forall k :: k in b ==> k in children
    requires multiset(a) == multiset(b)
    ensures multiset(Payloads(children, a)) == multiset(Payloads(children, b))
    decreases |a|
  {
    if a == [] {
      assert |b| == |multiset(b)| == 0;
    } else {
      var i := |a| - 1;
      SplitAt(a, i);
      assert a[i] in multiset(b);
      var j :| 0 <= j < |b| && b[j] == a[i];
      SplitAt(b, j);
      PayloadsPermutation(children, a[..i] + a[i + 1..], b[..j] + b[j + 1..]);
      PayloadsTakeOut(children, a, i);
      PayloadsTakeOut(children, b, j);
    }
  }

  /** Reading a run of inserts back by its keys, in insertion order, gives
      the inserted items in order. */
  lemma RunPayloads<T>(children: map<ObjectId, Child<T>>, start: ObjectId, items: seq<T>, owner: string)
    ensures forall k :: k in KeyRange(start, |items|) ==> k in children + Tagged(start, items, |items|, owner)
    ensures Payloads(children + Tagged(start, items, |items|, owner), KeyRange(start, |items|)) == items
  {
    var run := KeyRange(start, |items|);
    var tagged := Tagged(start, items, |items|, owner);
    KeyRangeShape(start, |items|);
    TaggedShape(start, items, |items|, owner);
    forall k | k in run
      ensures k in children + tagged
    {
      var i :| 0 <= i < |run| && run[i] == k;
    }
    var read := Payloads(children + tagged, run);
    forall i | 0 <= i < |items|
      ensures read[i] == items[i]
    {
      assert run[i] == start + i && (children + tagged)[start + i] == tagged[start + i];
    }
  }

  /** Whatever order a read visits the children of a freshly stored
      parent in, it returns exactly the items stored, each as often as it
      was stored. */
  lemma ReadBackIsPermutation<T>(children: map<ObjectId, Child<T>>, id: string, start: ObjectId, items: seq<T>,
                                 order: seq<ObjectId>)
    requires Fresh(children, start) && ChildKeys(children, id) == {}
    requires Enumerates(order, children + Tagged(start, items, |items|, id), id)
    ensures forall k :: k in order ==> k in children + Tagged(start, items, |items|, id)
    ensures multiset(Payloads(children + Tagged(start, items, |items|, id), order)) == multiset(items)
  {
    var children' := children + Tagged(start, items, |items|, id);
    var run := KeyRange(start, |items|);
    assert forall k :: k in order ==> k in ChildKeys(children', id);
    AdoptedChildKeys(children, id, start, items);
    KeyRangeShape(start, |items|);
    assert Distinct(run);
    SameKeysSameMultiset(order, run);
    RunPayloads(children, start, items, id);
    PayloadsPermutation(children', order, run);
  }
}
