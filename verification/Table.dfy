/**
 * The value model of the chained hash table: a bucket array of overflow chains
 * and the list of used buckets that iteration follows.  The operators hold their
 * tables as values of this type; class HashTable is proved to refine it.
 */
module Table {

  datatype Item<+K, +V> = Item(key: K, val: V)

  /** `chains[b]` is the overflow chain of bucket b, newest first; `used` lists the non-empty buckets. */
  datatype Table<K, V> = Table(chains: seq<seq<Item<K, V>>>, used: seq<nat>)

  ghost predicate NoDup<X>(s: seq<X>) {
    forall i, j :: 0 <= i < j < |s| ==> s[i] != s[j]
  }

  /** Bucket of a key: `hasher(key) & hash_mask`, where the bucket count is a power of two. */
  function Bucket<K, V>(t: Table<K, V>, hash: K -> nat, k: K): (b: nat)
    requires |t.chains| > 0
    ensures b < |t.chains|
  {
    hash(k) % |t.chains|
  }

  ghost predicate UsedOk<K, V>(t: Table<K, V>) {
    && NoDup(t.used)
    && (forall i :: 0 <= i < |t.used| ==> t.used[i] < |t.chains|)
    && (forall b: nat :: b < |t.chains| ==> (t.chains[b] != [] <==> b in t.used))
  }

  ghost predicate Placed<K, V>(t: Table<K, V>, hash: K -> nat)
    requires |t.chains| > 0
  {
    forall b: nat, i: nat :: b < |t.chains| && i < |t.chains[b]| ==>
      Bucket(t, hash, t.chains[b][i].key) == b
  }

  ghost predicate Valid<K, V>(t: Table<K, V>, hash: K -> nat) {
    |t.chains| > 0 && UsedOk(t) && Placed(t, hash)
  }

  function Empty<K, V>(n: nat): (t: Table<K, V>)
    requires n > 0
    ensures |t.chains| == n && Items(t) == []
    ensures UsedOk(t)
  {
    Table(seq(n, _ => []), [])
  }

  /** The default bucket count. */
  const BUCKETS: nat := 131072

  /** clear() followed by rehash(): the bucket array doubles when the load at the peak size exceeded one half. */
  function Rehashed<K, V>(t: Table<K, V>, peak: nat): (r: Table<K, V>)
    requires |t.chains| > 0
    ensures |r.chains| > 0
  {
    Empty(if 2 * peak > |t.chains| then 2 * |t.chains| else |t.chains|)
  }

  /** The same for a table that nothing was erased from since the last time: its size is its peak. */
  function Cleared<K, V>(t: Table<K, V>): (r: Table<K, V>)
    requires |t.chains| > 0
    ensures |r.chains| > 0
  {
    Rehashed(t, |Items(t)|)
  }

  // ---------------------------------------------------------------- iteration

  /** Concatenation of the chains of the given buckets: the order in which `++` visits the items. */
  function Flat<K, V>(chains: seq<seq<Item<K, V>>>, used: seq<nat>): seq<Item<K, V>>
    requires forall i :: 0 <= i < |used| ==> used[i] < |chains|
  {
    if used == [] then [] else chains[used[0]] + Flat(chains, used[1..])
  }

  function Items<K, V>(t: Table<K, V>): seq<Item<K, V>> {
    if forall i :: 0 <= i < |t.used| ==> t.used[i] < |t.chains| then Flat(t.chains, t.used) else []
  }

  lemma {:induction false} FlatConcat<K, V>(c: seq<seq<Item<K, V>>>, u: seq<nat>, v: seq<nat>)
    requires forall i :: 0 <= i < |u| ==> u[i] < |c|
    requires forall i :: 0 <= i < |v| ==> v[i] < |c|
    ensures Flat(c, u + v) == Flat(c, u) + Flat(c, v)
  {
    if u == [] {
      assert u + v == v;
    } else {
      assert (u + v)[1..] == u[1..] + v;
      FlatConcat(c, u[1..], v);
    }
  }

  lemma {:induction false} FlatFrame<K, V>(c: seq<seq<Item<K, V>>>, d: seq<seq<Item<K, V>>>, u: seq<nat>)
    requires |c| == |d|
    requires forall i :: 0 <= i < |u| ==> u[i] < |c| && c[u[i]] == d[u[i]]
    ensures Flat(c, u) == Flat(d, u)
  {
    if u != [] {
      FlatFrame(c, d, u[1..]);
    }
  }

  /** Iteration around the i-th used bucket. */
  lemma FlatSplit<K, V>(c: seq<seq<Item<K, V>>>, u: seq<nat>, i: nat)
    requires forall j :: 0 <= j < |u| ==> u[j] < |c|
    requires i < |u|
    ensures Flat(c, u) == Flat(c, u[..i]) + c[u[i]] + Flat(c, u[i + 1..])
  {
    assert u == u[..i] + u[i..];
    FlatConcat(c, u[..i], u[i..]);
    assert u[i..][0] == u[i] && u[i..][1..] == u[i + 1..];
  }

  lemma FlatUpdate<K, V>(c: seq<seq<Item<K, V>>>, u: seq<nat>, i: nat, chain: seq<Item<K, V>>)
    requires forall j :: 0 <= j < |u| ==> u[j] < |c|
    requires i < |u| && NoDup(u)
    ensures Flat(c[u[i] := chain], u) == Flat(c, u[..i]) + chain + Flat(c, u[i + 1..])
  {
    var d := c[u[i] := chain];
    FlatFrame(c, d, u[..i]);
    FlatFrame(c, d, u[i + 1..]);
    hide Flat;
    FlatSplit(d, u, i);
  }

  /** Changing the chain of one used bucket changes exactly that stretch of the iteration. */
  lemma ItemsWithChain<K, V>(t: Table<K, V>, b: nat, chain: seq<Item<K, V>>) returns (lo: nat)
    requires UsedOk(t) && b < |t.chains| && b in t.used
    ensures var t' := t.(chains := t.chains[b := chain]);
            var n := |t.chains[b]|;
            && lo + n <= |Items(t)|
            && Items(t)[lo..lo + n] == t.chains[b]
            && Items(t') == Items(t)[..lo] + chain + Items(t)[lo + n..]
  {
    hide Flat;
    var i: nat :| i < |t.used| && t.used[i] == b;
    var before, after := Flat(t.chains, t.used[..i]), Flat(t.chains, t.used[i + 1..]);
    FlatSplit(t.chains, t.used, i);
    FlatUpdate(t.chains, t.used, i, chain);
    lo := |before|;
    Stretch(before, t.chains[b], after, chain);
  }

  lemma Stretch<X>(before: seq<X>, mid: seq<X>, after: seq<X>, mid': seq<X>)
    ensures var s := before + mid + after;
            && s[|before|..|before| + |mid|] == mid
            && s[..|before|] + mid' + s[|before| + |mid|..] == before + mid' + after
  {
  }

  /** Every iterated item comes from the chain its key hashes to, and conversely. */
  lemma {:induction false} FlatMember<K, V>(c: seq<seq<Item<K, V>>>, u: seq<nat>, x: Item<K, V>)
    requires forall j :: 0 <= j < |u| ==> u[j] < |c|
    ensures x in Flat(c, u) <==> exists j :: 0 <= j < |u| && x in c[u[j]]
  {
    if u != [] {
      FlatMember(c, u[1..], x);
      assert forall j :: 0 <= j < |u| - 1 ==> u[1..][j] == u[j + 1];
      if j :| 0 <= j < |u| && x in c[u[j]] {
        if j > 0 { assert x in c[u[1..][j - 1]]; }
      }
    }
  }

  lemma ItemBucket<K, V>(t: Table<K, V>, hash: K -> nat, x: Item<K, V>)
    requires Valid(t, hash)
    ensures x in Items(t) <==> x in t.chains[Bucket(t, hash, x.key)]
  {
    FlatMember(t.chains, t.used, x);
    var b := Bucket(t, hash, x.key);
    if x in t.chains[b] {
      var j :| 0 <= j < |t.used| && t.used[j] == b;
    }
  }

  // ---------------------------------------------------------------- lookup

  /** Position of the first item of the chain with the key; the chain length if there is none. */
  function FirstAt<K(==), V>(chain: seq<Item<K, V>>, k: K): (p: nat)
    ensures p <= |chain|
    ensures p < |chain| ==> chain[p].key == k
    ensures forall i :: 0 <= i < p ==> chain[i].key != k
  {
    if chain == [] || chain[0].key == k then 0 else 1 + FirstAt(chain[1..], k)
  }

  predicate Has<K(==), V>(t: Table<K, V>, hash: K -> nat, k: K)
    requires |t.chains| > 0
  {
    FirstAt(t.chains[Bucket(t, hash, k)], k) < |t.chains[Bucket(t, hash, k)]|
  }

  function Get<K(==), V>(t: Table<K, V>, hash: K -> nat, k: K): V
    requires |t.chains| > 0 && Has(t, hash, k)
  {
    var chain := t.chains[Bucket(t, hash, k)];
    chain[FirstAt(chain, k)].val
  }

  /** `find` succeeds exactly on the keys that iteration visits. */
  lemma HasIffStored<K, V>(t: Table<K, V>, hash: K -> nat, k: K)
    requires Valid(t, hash)
    ensures Has(t, hash, k) <==> exists x :: x in Items(t) && x.key == k
    ensures Has(t, hash, k) ==> Item(k, Get(t, hash, k)) in Items(t)
  {
    var chain := t.chains[Bucket(t, hash, k)];
    var p := FirstAt(chain, k);
    if p < |chain| {
      ItemBucket(t, hash, chain[p]);
    }
    if x :| x in Items(t) && x.key == k {
      ItemBucket(t, hash, x);
    }
  }

  // ---------------------------------------------------------------- updates

  function Insert<K(==), V>(t: Table<K, V>, hash: K -> nat, k: K, v: V): Table<K, V>
    requires |t.chains| > 0
  {
    var b := Bucket(t, hash, k);
    Table(t.chains[b := [Item(k, v)] + t.chains[b]],
          if t.chains[b] == [] then t.used + [b] else t.used)
  }

  /** Insertion adds the new item at one place of the iteration and keeps the rest in order. */
  lemma InsertItems<K, V>(t: Table<K, V>, hash: K -> nat, k: K, v: V) returns (p: nat)
    requires Valid(t, hash)
    ensures Valid(Insert(t, hash, k, v), hash)
    ensures p <= |Items(t)|
    ensures Items(Insert(t, hash, k, v)) == Items(t)[..p] + [Item(k, v)] + Items(t)[p..]
  {
    var b := Bucket(t, hash, k);
    InsertValid(t, hash, k, v);
    if t.chains[b] == [] {
      p := |Items(t)|;
      hide Flat, Placed;
      FlatNew(t.chains, t.used, b, Item(k, v));
      assert [Item(k, v)] + t.chains[b] == [Item(k, v)];
    } else {
      p := InsertOld(t, b, Item(k, v));
    }
  }

  lemma InsertOld<K, V>(t: Table<K, V>, b: nat, x: Item<K, V>) returns (p: nat)
    requires UsedOk(t) && b < |t.chains| && b in t.used
    ensures p <= |Items(t)|
    ensures Items(t.(chains := t.chains[b := [x] + t.chains[b]])) == Items(t)[..p] + [x] + Items(t)[p..]
  {
    hide *;
    p := ItemsWithChain(t, b, [x] + t.chains[b]);
    Regroup(Items(t), p, |t.chains[b]|, x);
  }

  lemma FlatNew<K, V>(c: seq<seq<Item<K, V>>>, u: seq<nat>, b: nat, x: Item<K, V>)
    requires forall j :: 0 <= j < |u| ==> u[j] < |c|
    requires b < |c| && b !in u
    ensures Flat(c[b := [x]], u + [b]) == Flat(c, u) + [x]
  {
    var d := c[b := [x]];
    FlatConcat(d, u, [b]);
    FlatFrame(c, d, u);
    assert Flat(d, [b]) == d[b] + Flat(d, [b][1..]);
  }

  lemma Regroup<X>(s: seq<X>, p: nat, n: nat, x: X)
    requires p + n <= |s|
    ensures s[..p] + ([x] + s[p..p + n]) + s[p + n..] == s[..p] + [x] + s[p..]
  {
  }

  lemma InsertValid<K, V>(t: Table<K, V>, hash: K -> nat, k: K, v: V)
    requires Valid(t, hash)
    ensures Valid(Insert(t, hash, k, v), hash)
  {
    var b := Bucket(t, hash, k);
    var t' := Insert(t, hash, k, v);
    forall c: nat, i: nat | c < |t'.chains| && i < |t'.chains[c]|
      ensures Bucket(t', hash, t'.chains[c][i].key) == c
    {
      if c == b && i > 0 {
        assert t'.chains[c][i] == t.chains[c][i - 1];
      }
    }
  }

  /** Overwrite the value of the first item with the key (the aggregate is updated through its pointer). */
  function Put<K(==), V>(t: Table<K, V>, hash: K -> nat, k: K, v: V): Table<K, V>
    requires |t.chains| > 0 && Has(t, hash, k)
  {
    var b := Bucket(t, hash, k);
    var p := FirstAt(t.chains[b], k);
    t.(chains := t.chains[b := t.chains[b][p := Item(k, v)]])
  }

  lemma PutItems<K, V>(t: Table<K, V>, hash: K -> nat, k: K, v: V) returns (p: nat)
    requires Valid(t, hash) && Has(t, hash, k)
    ensures Valid(Put(t, hash, k, v), hash)
    ensures p < |Items(t)| && Items(t)[p] == Item(k, Get(t, hash, k))
    ensures Items(Put(t, hash, k, v)) == Items(t)[p := Item(k, v)]
  {
    var b := Bucket(t, hash, k);
    var i := FirstAt(t.chains[b], k);
    var chain := t.chains[b][i := Item(k, v)];
    var lo := ItemsWithChain(t, b, chain);
    p := lo + i;
    assert Items(t)[p] == Items(t)[lo..lo + |chain|][i];
    assert Items(t)[..lo] + chain + Items(t)[lo + |chain|..] == Items(t)[p := Item(k, v)];
  }

  /** Remove the first item with the key; a bucket that becomes empty leaves the used list. */
  function Erase<K(==), V>(t: Table<K, V>, hash: K -> nat, k: K): Table<K, V>
    requires |t.chains| > 0
  {
    var b := Bucket(t, hash, k);
    var p := FirstAt(t.chains[b], k);
    if p == |t.chains[b]| then t else
    var chain := t.chains[b][..p] + t.chains[b][p + 1..];
    Table(t.chains[b := chain], if chain == [] then Without(t.used, b) else t.used)
  }

  function Without(s: seq<nat>, x: nat): (r: seq<nat>)
    ensures forall y :: y in r ==> y in s
  {
    if s == [] then [] else if s[0] == x then s[1..] else [s[0]] + Without(s[1..], x)
  }

  lemma {:induction false} WithoutAt(s: seq<nat>, i: nat)
    requires i < |s| && NoDup(s)
    ensures Without(s, s[i]) == s[..i] + s[i + 1..]
  {
    if i > 0 {
      WithoutAt(s[1..], i - 1);
      assert s[1..][..i - 1] == s[1..i] && s[..i] == [s[0]] + s[1..i];
    }
  }

  lemma EraseValid<K, V>(t: Table<K, V>, hash: K -> nat, k: K)
    requires Valid(t, hash)
    ensures Valid(Erase(t, hash, k), hash)
  {
    var b := Bucket(t, hash, k);
    var p := FirstAt(t.chains[b], k);
    if p < |t.chains[b]| {
      var t' := Erase(t, hash, k);
      EraseUsed(t, b, t'.chains[b]);
      forall c: nat, i: nat | c < |t'.chains| && i < |t'.chains[c]|
        ensures Bucket(t', hash, t'.chains[c][i].key) == c
      {
        if c == b { assert t'.chains[c][i] == t.chains[c][if i < p then i else i + 1]; }
      }
    }
  }

  lemma EraseUsed<K, V>(t: Table<K, V>, b: nat, chain: seq<Item<K, V>>)
    requires UsedOk(t) && b < |t.chains| && b in t.used
    ensures UsedOk(Table(t.chains[b := chain], if chain == [] then Without(t.used, b) else t.used))
  {
    hide NoDup, Without;
    WithoutMembers(t.used, b);
    assert forall y :: y in t.used ==> y < |t.chains|;
    assert forall i :: 0 <= i < |Without(t.used, b)| ==> Without(t.used, b)[i] in t.used;
  }

  lemma {:induction false} WithoutMembers(s: seq<nat>, x: nat)
    requires NoDup(s)
    ensures NoDup(Without(s, x))
    ensures forall y :: y in Without(s, x) <==> y in s && y != x
  {
    if s != [] {
      WithoutMembers(s[1..], x);
      var r := Without(s[1..], x);
      assert s == [s[0]] + s[1..];
      assert s[0] !in s[1..];
      if s[0] != x {
        assert Without(s, x) == [s[0]] + r && s[0] !in r;
      }
    }
  }

  /** Erasing a stored key removes exactly one item, one with that key, and keeps the others in order. */
  lemma EraseItems<K, V>(t: Table<K, V>, hash: K -> nat, k: K) returns (p: nat)
    requires Valid(t, hash) && Has(t, hash, k)
    ensures Valid(Erase(t, hash, k), hash)
    ensures p < |Items(t)| && Items(t)[p] == Item(k, Get(t, hash, k))
    ensures Items(Erase(t, hash, k)) == Items(t)[..p] + Items(t)[p + 1..]
  {
    EraseValid(t, hash, k);
    var b := Bucket(t, hash, k);
    var i := FirstAt(t.chains[b], k);
    assert b in t.used;
    hide FirstAt, Valid, Placed;
    p := EraseAt(t, b, i);
  }

  lemma EraseAt<K, V>(t: Table<K, V>, b: nat, i: nat) returns (p: nat)
    requires UsedOk(t) && b < |t.chains| && b in t.used && i < |t.chains[b]|
    ensures p < |Items(t)| && Items(t)[p] == t.chains[b][i]
    ensures var chain := t.chains[b][..i] + t.chains[b][i + 1..];
            Items(Table(t.chains[b := chain], if chain == [] then Without(t.used, b) else t.used))
            == Items(t)[..p] + Items(t)[p + 1..]
  {
    hide *;
    var chain := t.chains[b][..i] + t.chains[b][i + 1..];
    var lo := ItemsWithChain(t, b, chain);
    p := lo + i;
    if chain == [] {
      EmptiedItems(t, b);
    }
    CutStretch(Items(t), lo, t.chains[b], i);
  }

  /** Dropping an emptied bucket from the used list does not change the iteration. */
  lemma EmptiedItems<K, V>(t: Table<K, V>, b: nat)
    requires UsedOk(t) && b < |t.chains| && b in t.used
    ensures var c := t.chains[b := []]; Items(Table(c, Without(t.used, b))) == Items(Table(c, t.used))
  {
    var c := t.chains[b := []];
    var i: nat :| i < |t.used| && t.used[i] == b;
    WithoutAt(t.used, i);
    FlatDrop(c, t.used, i);
    assert forall j :: 0 <= j < |Without(t.used, b)| ==> Without(t.used, b)[j] < |c| by {
      forall j | 0 <= j < |Without(t.used, b)| ensures Without(t.used, b)[j] < |c| {
        assert Without(t.used, b)[j] in t.used;
      }
    }
    hide Flat, Without, NoDup;
  }

  lemma FlatDrop<K, V>(c: seq<seq<Item<K, V>>>, u: seq<nat>, i: nat)
    requires i < |u| && (forall j :: 0 <= j < |u| ==> u[j] < |c|) && c[u[i]] == []
    ensures Flat(c, u[..i] + u[i + 1..]) == Flat(c, u)
  {
    hide Flat;
    FlatSplit(c, u, i);
    FlatConcat(c, u[..i], u[i + 1..]);
    assert Flat(c, u[..i]) + [] == Flat(c, u[..i]);
  }

  lemma CutStretch<X>(s: seq<X>, lo: nat, mid: seq<X>, i: nat)
    requires lo + |mid| <= |s| && s[lo..lo + |mid|] == mid && i < |mid|
    ensures s[lo + i] == mid[i]
    ensures s[..lo] + (mid[..i] + mid[i + 1..]) + s[lo + |mid|..] == s[..lo + i] + s[lo + i + 1..]
  {
    assert s[lo + i] == s[lo..lo + |mid|][i];
  }

  // ---------------------------------------------------------------- positions of an iterator

  /** Index in the iteration of the p-th item of the u-th used bucket. */
  ghost function Offset<K, V>(t: Table<K, V>, u: nat, p: nat): nat
    requires UsedOk(t) && u <= |t.used|
  {
    |Flat(t.chains, t.used[..u])| + p
  }

  lemma OffsetItem<K, V>(t: Table<K, V>, u: nat, p: nat)
    requires UsedOk(t) && u < |t.used| && p < |t.chains[t.used[u]]|
    ensures Offset(t, u, p) < |Items(t)| && Items(t)[Offset(t, u, p)] == t.chains[t.used[u]][p]
  {
    FlatSplit(t.chains, t.used, u);
    var before, chain, after := Flat(t.chains, t.used[..u]), t.chains[t.used[u]], Flat(t.chains, t.used[u + 1..]);
    hide Flat;
    assert (before + chain + after)[|before| + p] == chain[p];
  }

  /** Past the last item of a bucket comes the first item of the next. */
  lemma OffsetNext<K, V>(t: Table<K, V>, u: nat)
    requires UsedOk(t) && u < |t.used|
    ensures Offset(t, u + 1, 0) == Offset(t, u, |t.chains[t.used[u]]|)
  {
    assert t.used[..u + 1] == t.used[..u] + [t.used[u]];
    FlatConcat(t.chains, t.used[..u], [t.used[u]]);
    assert Flat(t.chains, [t.used[u]]) == t.chains[t.used[u]] + Flat(t.chains, [t.used[u]][1..]);
  }

  lemma OffsetEnd<K, V>(t: Table<K, V>)
    requires UsedOk(t)
    ensures Offset(t, |t.used|, 0) == |Items(t)|
  {
    assert t.used[..|t.used|] == t.used;
  }

  /** Cutting an item out of the u-th used bucket leaves the offsets up to that bucket unchanged. */
  lemma OffsetCut<K, V>(t: Table<K, V>, u: nat, chain: seq<Item<K, V>>)
    requires UsedOk(t) && u < |t.used|
    ensures var b := t.used[u];
            var t' := Table(t.chains[b := chain], if chain == [] then Without(t.used, b) else t.used);
            && UsedOk(t') && u <= |t'.used| && Offset(t', u, 0) == Offset(t, u, 0)
            && (chain == [] ==> t'.used == t.used[..u] + t.used[u + 1..])
  {
    var b := t.used[u];
    EraseUsed(t, b, chain);
    WithoutAt(t.used, u);
    var used' := if chain == [] then Without(t.used, b) else t.used;
    assert used'[..u] == t.used[..u];
    FlatFrame(t.chains, t.chains[b := chain], t.used[..u]);
  }

  // ---------------------------------------------------------------- equal keys

  /** The values stored under a key, in order. */
  function ValuesOf<K(==), V>(items: seq<Item<K, V>>, k: K): seq<V> {
    if items == [] then [] else (if items[0].key == k then [items[0].val] else []) + ValuesOf(items[1..], k)
  }

  lemma {:induction false} ValuesConcat<K, V>(a: seq<Item<K, V>>, b: seq<Item<K, V>>, k: K)
    ensures ValuesOf(a + b, k) == ValuesOf(a, k) + ValuesOf(b, k)
  {
    if a == [] {
      assert a + b == b;
    } else {
      assert (a + b)[1..] == a[1..] + b && (a + b)[0] == a[0];
      ValuesConcat(a[1..], b, k);
      var front := if a[0].key == k then [a[0].val] else [];
      assert front + (ValuesOf(a[1..], k) + ValuesOf(b, k)) == (front + ValuesOf(a[1..], k)) + ValuesOf(b, k);
    }
  }

  lemma {:induction false} ValuesNone<K, V>(items: seq<Item<K, V>>, k: K)
    requires forall i :: 0 <= i < |items| ==> items[i].key != k
    ensures ValuesOf(items, k) == []
  {
    if items != [] {
      ValuesNone(items[1..], k);
    }
  }

  lemma {:induction false} ValuesFlat<K, V>(c: seq<seq<Item<K, V>>>, u: seq<nat>, b: nat, k: K)
    requires b < |c| && NoDup(u) && forall i :: 0 <= i < |u| ==> u[i] < |c|
    requires forall d: nat, i: nat :: d < |c| && d != b && i < |c[d]| ==> c[d][i].key != k
    ensures ValuesOf(Flat(c, u), k) == if b in u then ValuesOf(c[b], k) else []
  {
    if u != [] {
      hide ValuesOf;
      ValuesFlat(c, u[1..], b, k);
      ValuesConcat(c[u[0]], Flat(c, u[1..]), k);
      assert u[0] !in u[1..];
      if u[0] != b {
        ValuesNone(c[u[0]], k);
      }
      assert b in u <==> b == u[0] || b in u[1..];
    } else {
      assert ValuesOf(Flat(c, u), k) == [];
    }
  }

  /** The equal-key items of the key's chain are the equal-key items of the whole table. */
  lemma ValuesInChain<K, V>(t: Table<K, V>, hash: K -> nat, k: K)
    requires Valid(t, hash)
    ensures ValuesOf(t.chains[Bucket(t, hash, k)], k) == ValuesOf(Items(t), k)
  {
    hide ValuesOf, NoDup, Flat;
    var b := Bucket(t, hash, k);
    ValuesFlat(t.chains, t.used, b, k);
    if b !in t.used {
      ValuesNone(t.chains[b], k);
    }
  }

  ghost predicate UniqueKeys<K, V>(items: seq<Item<K, V>>) {
    forall i, j :: 0 <= i < j < |items| ==> items[i].key != items[j].key
  }

  /** Inserting an absent key keeps the keys unique. */
  lemma UniqueInsert<K, V>(t: Table<K, V>, hash: K -> nat, k: K, v: V)
    requires Valid(t, hash) && UniqueKeys(Items(t)) && !Has(t, hash, k)
    ensures Valid(Insert(t, hash, k, v), hash) && UniqueKeys(Items(Insert(t, hash, k, v)))
  {
    hide Valid, Items, Insert, Has;
    HasIffStored(t, hash, k);
    var p := InsertItems(t, hash, k, v);
    UniqueAt(Items(t), p, Item(k, v));
  }

  lemma UniqueAt<K, V>(s: seq<Item<K, V>>, p: nat, x: Item<K, V>)
    requires UniqueKeys(s) && p <= |s| && forall y :: y in s ==> y.key != x.key
    ensures UniqueKeys(s[..p] + [x] + s[p..])
  {
    var r := s[..p] + [x] + s[p..];
    assert forall i :: 0 <= i < |r| ==> r[i] == if i < p then s[i] else if i == p then x else s[i - 1];
    assert forall i :: 0 <= i < |s| ==> s[i].key != x.key;
  }
}
