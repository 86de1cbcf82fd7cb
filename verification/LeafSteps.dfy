/** Atomic writes to one leaf: insert, replace, remove. */
module LeafSteps {
  import opened Pages
  import opened Stores
  import opened LinkSteps
  import opened Abstraction

  /** The records of a leaf after inserting or replacing `k`. */
  function LeafPut(es: seq<Entry>, k: Key, v: Value): seq<Entry> {
    match Search(es, k)
    case Found(i) => es[i := Entry(k, v)]
    case Missing(i) => es[..i] + [Entry(k, v)] + es[i..]
  }

  function LeafDrop(es: seq<Entry>, k: Key): seq<Entry> {
    match Search(es, k)
    case Found(i) => es[..i] + es[i + 1..]
    case Missing(_) => es
  }

  /** The value a leaf holds for `k`. */
  function LeafGet(es: seq<Entry>, k: Key): Option<Value> {
    match Search(es, k)
    case Found(i) => Some(es[i].value)
    case Missing(_) => None
  }

  /** The value a map holds for `k`. */
  function Lookup(m: map<Key, Value>, k: Key): Option<Value> {
    if k in m then Some(m[k]) else None
  }

  function WriteLeaf(s: Store, p: PageId, es: seq<Entry>): Store
    requires Valid(s, p)
  {
    Put(s, p, s.pages[p].(kind := Leaf(es)))
  }

  lemma ReplaceEffect(es: seq<Entry>, i: nat, v: Value)
    requires SortedEntries(es) && i < |es|
    ensures SortedEntries(es[i := Entry(es[i].key, v)])
    ensures forall e: Entry ::
              e in es[i := Entry(es[i].key, v)] <==> e == Entry(es[i].key, v) || (e in es && e.key != es[i].key)
  {
    var (k, out) := (es[i].key, es[i := Entry(es[i].key, v)]);
    assert out[i] == Entry(k, v);
    forall e: Entry ensures e in out <==> e == Entry(k, v) || (e in es && e.key != k) {
      if e in es && e.key != k { var j :| 0 <= j < |es| && es[j] == e; assert out[j] == e; }
    }
  }

  lemma InsertEffect(es: seq<Entry>, i: nat, n: Entry)
    requires SortedEntries(es) && i <= |es|
    requires forall j :: 0 <= j < i ==> es[j].key < n.key
    requires i < |es| ==> n.key < es[i].key
    ensures SortedEntries(es[..i] + [n] + es[i..])
    ensures forall e: Entry :: e in es[..i] + [n] + es[i..] <==> e == n || (e in es && e.key != n.key)
  {
  }

  /** Putting a record keeps a leaf sorted and changes nothing but `k`. */
  lemma LeafPutEffect(es: seq<Entry>, k: Key, v: Value)
    requires SortedEntries(es)
    ensures SortedEntries(LeafPut(es, k, v))
    ensures forall e: Entry :: e in LeafPut(es, k, v) <==> e == Entry(k, v) || (e in es && e.key != k)
    ensures |LeafPut(es, k, v)| == if Search(es, k).Found? then |es| else |es| + 1
  {
    match Search(es, k) {
      case Found(i) => ReplaceEffect(es, i, v);
      case Missing(i) =>
        assert i == LowerBound(es, k);
        assert i < |es| ==> es[i] in es;
        InsertEffect(es, i, Entry(k, v));
    }
  }

  lemma LeafDropEffect(es: seq<Entry>, k: Key)
    requires SortedEntries(es) && Search(es, k).Found?
    ensures SortedEntries(LeafDrop(es, k))
    ensures forall e: Entry :: e in LeafDrop(es, k) <==> e in es && e.key != k
    ensures |LeafDrop(es, k)| == |es| - 1
  {
  }

  /** A leaf with `k` added or dropped answers every search accordingly. */
  lemma LeafGetFromMembers(es: seq<Entry>, k: Key, v: Value)
    requires SortedEntries(es) && Entry(k, v) in es
    ensures LeafGet(es, k) == Some(v)
  {
  }

  lemma EntryIsFound(es: seq<Entry>, i: nat)
    requires SortedEntries(es) && i < |es|
    ensures Search(es, es[i].key) == Found(i)
  {
  }

  lemma SameLookupsSameMap(m: map<Key, Value>, n: map<Key, Value>)
    requires forall j :: Lookup(m, j) == Lookup(n, j)
    ensures m == n
  {
    forall j ensures j in m <==> j in n {
      assert Lookup(m, j) == Lookup(n, j);
    }
    assert m.Keys == n.Keys;
    forall j | j in m ensures m[j] == n[j] {
      assert Lookup(m, j) == Lookup(n, j);
    }
  }

  /** A leaf write inside the leaf's fences keeps the invariant. */
  lemma WriteLeafKeepsInv(s: Store, p: PageId, es: seq<Entry>)
    requires Inv(s) && Valid(s, p) && s.pages[p].kind.Leaf?
    requires SortedEntries(es) && |es| <= N && (s.pages[p].isRoot || N / 2 <= |es|)
    requires forall e: Entry :: e in es ==> Owns(s.pages[p], e.key)
    ensures Inv(WriteLeaf(s, p, es))
  {
    assert PageOk(s, p);
    var page := s.pages[p].(kind := Leaf(es));
    var t := Put(s, p, page);
    assert forall i :: 0 <= i < |es| ==> es[i] in es;
    forall q: PageId | q < |s.pages| ensures GapOk(t, p, q) {
      assert GapOk(s, p, q);
    }
    PutKeepsInv(s, p, page);
  }

  lemma OtherRecordsStay(s: Store, p: PageId, es: seq<Entry>, k: Key)
    requires Valid(s, p) && s.pages[p].kind.Leaf?
    requires forall e: Entry :: e.key != k ==> (e in es <==> e in s.pages[p].kind.entries)
    ensures forall e: Entry :: e.key != k ==> (e in Records(WriteLeaf(s, p, es)) <==> e in Records(s))
  {
    var t := WriteLeaf(s, p, es);
    forall e: Entry | e.key != k ensures e in Records(t) <==> e in Records(s) {
      if e in Records(t) {
        var q: PageId :| q < |t.pages| && e in Entries(t.pages[q]);
        assert e in Entries(s.pages[q]);
      }
      if e in Records(s) {
        var q: PageId :| q < |s.pages| && e in Entries(s.pages[q]);
        assert e in Entries(t.pages[q]);
      }
    }
  }

  /** Maps that agree on every key but `k`. */
  lemma AgreeElsewhere(s: Store, t: Store, k: Key)
    requires Inv(s) && Inv(t)
    requires forall e: Entry :: e.key != k ==> (e in Records(t) <==> e in Records(s))
    ensures forall j :: j != k ==> Lookup(Contents(t), j) == Lookup(Contents(s), j)
  {
  }

  /** The owning leaf answers a lookup for the whole map. */
  lemma OwnerAnswers(s: Store, p: PageId, k: Key)
    requires Inv(s) && Valid(s, p) && s.pages[p].kind.Leaf? && Owns(s.pages[p], k)
    ensures LeafGet(s.pages[p].kind.entries, k) == Lookup(Contents(s), k)
  {
    OwnerDecides(s, p, k);
  }

  lemma PutKeepsTree(s: Store, p: PageId, k: Key, v: Value)
    requires Inv(s) && Valid(s, p) && s.pages[p].kind.Leaf? && Owns(s.pages[p], k)
    requires Search(s.pages[p].kind.entries, k).Missing? ==> |s.pages[p].kind.entries| < N
    ensures Inv(WriteLeaf(s, p, LeafPut(s.pages[p].kind.entries, k, v)))
  {
    assert PageOk(s, p);
    LeafPutEffect(s.pages[p].kind.entries, k, v);
    assert LeafShape(s.pages[p]);
    WriteLeafKeepsInv(s, p, LeafPut(s.pages[p].kind.entries, k, v));
  }

  /** A map with `k` set to `v`, or dropped. */
  function Assign(m: map<Key, Value>, k: Key, v: Option<Value>): map<Key, Value> {
    if v.Some? then m[k := v.value] else m - {k}
  }

  lemma AssignsOnly(m: map<Key, Value>, n: map<Key, Value>, k: Key, v: Option<Value>)
    requires Lookup(n, k) == v && forall j :: j != k ==> Lookup(n, j) == Lookup(m, j)
    ensures n == Assign(m, k, v)
  {
    forall j ensures Lookup(n, j) == Lookup(Assign(m, k, v), j) {}
    SameLookupsSameMap(n, Assign(m, k, v));
  }

  /** Rewriting the owner of `k`, and only for `k`, updates the map at `k`. */
  lemma LeafWriteIsAssign(s: Store, p: PageId, k: Key, out: seq<Entry>)
    requires Inv(s) && Valid(s, p) && s.pages[p].kind.Leaf? && Owns(s.pages[p], k)
    requires Inv(WriteLeaf(s, p, out))
    requires forall e: Entry :: e.key != k ==> (e in out <==> e in s.pages[p].kind.entries)
    ensures Contents(WriteLeaf(s, p, out)) == Assign(Contents(s), k, LeafGet(out, k))
  {
    var t := WriteLeaf(s, p, out);
    OtherRecordsStay(s, p, out, k);
    AgreeElsewhere(s, t, k);
    OwnerAnswers(t, p, k);
    AssignsOnly(Contents(s), Contents(t), k, LeafGet(out, k));
  }

  /** Inserting or replacing at the owning leaf is a map update. */
  lemma PutIsUpdate(s: Store, p: PageId, k: Key, v: Value)
    requires Inv(s) && Valid(s, p) && s.pages[p].kind.Leaf? && Owns(s.pages[p], k)
    requires Search(s.pages[p].kind.entries, k).Missing? ==> |s.pages[p].kind.entries| < N
    ensures Inv(WriteLeaf(s, p, LeafPut(s.pages[p].kind.entries, k, v)))
    ensures Contents(WriteLeaf(s, p, LeafPut(s.pages[p].kind.entries, k, v))) == Contents(s)[k := v]
  {
    var es := s.pages[p].kind.entries;
    assert PageOk(s, p);
    assert SortedEntries(es);
    PutKeepsTree(s, p, k, v);
    LeafPutEffect(es, k, v);
    LeafGetFromMembers(LeafPut(es, k, v), k, v);
    LeafWriteIsAssign(s, p, k, LeafPut(es, k, v));
  }

  lemma DropKeepsTree(s: Store, p: PageId, k: Key)
    requires Inv(s) && Valid(s, p) && s.pages[p].kind.Leaf?
    requires Search(s.pages[p].kind.entries, k).Found?
    requires s.pages[p].isRoot || N / 2 < |s.pages[p].kind.entries|
    ensures Inv(WriteLeaf(s, p, LeafDrop(s.pages[p].kind.entries, k)))
  {
    assert PageOk(s, p);
    LeafDropEffect(s.pages[p].kind.entries, k);
    assert LeafShape(s.pages[p]);
    WriteLeafKeepsInv(s, p, LeafDrop(s.pages[p].kind.entries, k));
  }

  lemma DroppedIsMissing(es: seq<Entry>, k: Key)
    requires SortedEntries(es) && Search(es, k).Found?
    ensures LeafGet(LeafDrop(es, k), k) == None
  {
  }

  /** Removing at the owning leaf removes the key from the map. */
  lemma DropIsRemoval(s: Store, p: PageId, k: Key)
    requires Inv(s) && Valid(s, p) && s.pages[p].kind.Leaf? && Owns(s.pages[p], k)
    requires Search(s.pages[p].kind.entries, k).Found?
    requires s.pages[p].isRoot || N / 2 < |s.pages[p].kind.entries|
    ensures Inv(WriteLeaf(s, p, LeafDrop(s.pages[p].kind.entries, k)))
    ensures Contents(WriteLeaf(s, p, LeafDrop(s.pages[p].kind.entries, k))) == Contents(s) - {k}
  {
    var es := s.pages[p].kind.entries;
    assert PageOk(s, p);
    assert SortedEntries(es);
    DropKeepsTree(s, p, k);
    LeafDropEffect(es, k);
    DroppedIsMissing(es, k);
    LeafWriteIsAssign(s, p, k, LeafDrop(es, k));
  }
}
