/** The hash table with its chains and bucket list as linked objects, refining the value model. */
module HashTables {
  import T = Table

  /** Keys and values are stored once and never reassigned (in the operators both are pointers). */
  class DataItem<K, V> {
    const first: K
    const second: V
    var next: DataItem?<K, V>

    constructor (k: K, v: V)
      ensures first == k && second == v && next == null
    {
      first, second, next := k, v, null;
    }
  }

  class HashBucket<K, V> {
    var data: DataItem?<K, V>
    var nextBucket: HashBucket?<K, V>
    var prevBucket: HashBucket?<K, V>

    constructor ()
      ensures data == null && nextBucket == null && prevBucket == null
    {
      data, nextBucket, prevBucket := null, null, null;
    }
  }

  ghost function ItemAt<K, V>(s: seq<DataItem<K, V>>, i: int): DataItem?<K, V> {
    if 0 <= i < |s| then s[i] else null
  }

  ghost function BucketAt<K, V>(bs: seq<HashBucket<K, V>>, used: seq<nat>, i: int): HashBucket?<K, V> {
    if 0 <= i < |used| && used[i] < |bs| then bs[used[i]] else null
  }

  /** d heads the overflow chain s. */
  ghost predicate Linked<K, V>(d: DataItem?<K, V>, s: seq<DataItem<K, V>>)
    reads s`next
  {
    && d == ItemAt(s, 0)
    && T.NoDup(s)
    && forall i {:trigger s[i].next} :: 0 <= i < |s| ==> s[i].next == ItemAt(s, i + 1)
  }

  ghost predicate InRange(used: seq<nat>, n: nat) {
    forall i :: 0 <= i < |used| ==> used[i] < n
  }

  /**
   * `link` gives the links of all buckets: the i-th used bucket is linked to the (i + step)-th one,
   * and buckets off the list are linked to nothing.
   */
  ghost predicate Linking<K, V>(bs: seq<HashBucket<K, V>>, used: seq<nat>, link: seq<HashBucket?<K, V>>, step: int) {
    && |link| == |bs| && InRange(used, |bs|)
    && (forall i {:trigger link[used[i]]} :: 0 <= i < |used| ==> link[used[i]] == BucketAt(bs, used, i + step))
    && (forall b: nat {:trigger link[b]} :: b < |bs| && b !in used ==> link[b] == null)
  }

  ghost function Nexts<K, V>(bs: seq<HashBucket<K, V>>): (r: seq<HashBucket?<K, V>>)
    reads bs
    ensures |r| == |bs| && forall b {:trigger r[b]} :: 0 <= b < |bs| ==> r[b] == bs[b].nextBucket
  {
    seq(|bs|, b requires 0 <= b < |bs| reads bs => bs[b].nextBucket)
  }

  ghost function Prevs<K, V>(bs: seq<HashBucket<K, V>>): (r: seq<HashBucket?<K, V>>)
    reads bs
    ensures |r| == |bs| && forall b {:trigger r[b]} :: 0 <= b < |bs| ==> r[b] == bs[b].prevBucket
  {
    seq(|bs|, b requires 0 <= b < |bs| reads bs => bs[b].prevBucket)
  }

  ghost function Datas<K, V>(bs: seq<HashBucket<K, V>>): (r: seq<DataItem?<K, V>>)
    reads bs
    ensures |r| == |bs| && forall b {:trigger r[b]} :: 0 <= b < |bs| ==> r[b] == bs[b].data
  {
    seq(|bs|, b requires 0 <= b < |bs| reads bs => bs[b].data)
  }

  /** From the i-th used bucket on, the forward links are those of the list. */
  ghost predicate LinkedFrom<K, V>(bs: seq<HashBucket<K, V>>, used: seq<nat>, next: seq<HashBucket?<K, V>>, i: nat) {
    && i <= |used| && |next| == |bs| && InRange(used, |bs|)
    && forall j {:trigger next[used[j]]} :: i <= j < |used| ==> next[used[j]] == BucketAt(bs, used, j + 1)
  }

  /** Outside the used buckets from the i-th on, all entries are z. */
  ghost predicate BlankBefore<Y>(used: seq<nat>, i: nat, xs: seq<Y>, z: Y) {
    i <= |used| && forall b: nat {:trigger xs[b]} :: b < |xs| && b !in used[i..] ==> xs[b] == z
  }

  lemma LinkedNext<K, V>(bs: seq<HashBucket<K, V>>, used: seq<nat>, next: seq<HashBucket?<K, V>>, i: nat)
    requires LinkedFrom(bs, used, next, i) && i < |used| && T.NoDup(used)
    ensures LinkedFrom(bs, used, next[used[i] := null], i + 1)
  {
    forall j | i + 1 <= j < |used| ensures used[j] != used[i] { Distinct(used, i, j); }
    hide T.NoDup;
  }

  lemma BlankNext<Y>(used: seq<nat>, i: nat, xs: seq<Y>, z: Y)
    requires BlankBefore(used, i, xs, z) && i < |used| && used[i] < |xs|
    ensures BlankBefore(used, i + 1, xs[used[i] := z], z)
  {
    assert used[i..] == [used[i]] + used[i + 1..];
  }

  lemma LinkingRange<K, V>(bs: seq<HashBucket<K, V>>, used: seq<nat>, link: seq<HashBucket?<K, V>>, step: int)
    requires Linking(bs, used, link, step)
    ensures InRange(used, |bs|)
  {
  }

  lemma NoDupSnoc<X>(s: seq<X>, x: X)
    requires T.NoDup(s) && x !in s
    ensures T.NoDup(s + [x])
  {
  }

  lemma EndsSnoc<K, V>(bs: seq<HashBucket<K, V>>, used: seq<nat>, b: nat)
    requires InRange(used, |bs|) && b < |bs|
    ensures var u := used + [b];
            && BucketAt(bs, u, |u| - 1) == bs[b]
            && BucketAt(bs, u, 0) == (if used == [] then bs[b] else BucketAt(bs, used, 0))
            && (used == [] <==> BucketAt(bs, used, 0) == null)
            && (used == [] <==> BucketAt(bs, used, |used| - 1) == null)
            && (used != [] ==> BucketAt(bs, used, |used| - 1) == bs[used[|used| - 1]])
  {
  }

  lemma AppendNext<K, V>(bs: seq<HashBucket<K, V>>, used: seq<nat>, next: seq<HashBucket?<K, V>>, b: nat)
    requires Linking(bs, used, next, 1) && T.NoDup(used) && b < |bs| && b !in used
    ensures Linking(bs, used + [b], if used == [] then next else next[used[|used| - 1] := bs[b]], 1)
  {
    var u, n := used + [b], |used| - 1;
    var next' := if used == [] then next else next[used[n] := bs[b]];
    forall i | 0 <= i < |u| ensures u[i] < |bs| && next'[u[i]] == BucketAt(bs, u, i + 1) {
      if i < n { assert used[i] != used[n]; }
    }
    assert forall c :: c in used ==> c in u;
  }

  lemma AppendPrev<K, V>(bs: seq<HashBucket<K, V>>, used: seq<nat>, prev: seq<HashBucket?<K, V>>, b: nat)
    requires Linking(bs, used, prev, -1) && b < |bs| && b !in used
    ensures Linking(bs, used + [b], if used == [] then prev else prev[b := bs[used[|used| - 1]]], -1)
  {
    var u, n := used + [b], |used| - 1;
    var prev' := if used == [] then prev else prev[b := bs[used[n]]];
    forall i | 0 <= i < |u| ensures u[i] < |bs| && prev'[u[i]] == BucketAt(bs, u, i - 1) {
    }
    assert forall c :: c in used ==> c in u;
  }

  lemma RemoveMembers(used: seq<nat>, i: nat)
    requires i < |used| && T.NoDup(used)
    ensures var u := used[..i] + used[i + 1..];
            && (forall j :: 0 <= j < |u| ==> u[j] == used[if j < i then j else j + 1] && u[j] != used[i])
            && (forall c :: c in used ==> c == used[i] || c in u) && T.NoDup(u)
  {
    var u := used[..i] + used[i + 1..];
    forall c | c in used && c != used[i] ensures c in u {
      var j :| 0 <= j < |used| && used[j] == c;
      assert u[if j < i then j else j - 1] == c;
    }
  }

  lemma Distinct<X>(s: seq<X>, i: nat, j: nat)
    requires T.NoDup(s) && i < |s| && j < |s| && i != j
    ensures s[i] != s[j]
  {
  }

  lemma RemoveNextAt<K, V>(bs: seq<HashBucket<K, V>>, used: seq<nat>, next: seq<HashBucket?<K, V>>, i: nat, j: nat)
    requires Linking(bs, used, next, 1) && T.NoDup(used) && i < |used| && j + 1 < |used|
    ensures var u := used[..i] + used[i + 1..];
            var next' := (if i > 0 then next[used[i - 1] := next[used[i]]] else next)[used[i] := null];
            u[j] < |bs| && next'[u[j]] == BucketAt(bs, u, j + 1)
  {
    var k := if j < i then j else j + 1;
    Distinct(used, k, i);
    if i > 0 && k != i - 1 { Distinct(used, k, i - 1); }
    hide T.NoDup;
  }

  lemma RemoveNext<K, V>(bs: seq<HashBucket<K, V>>, used: seq<nat>, next: seq<HashBucket?<K, V>>, i: nat)
    requires Linking(bs, used, next, 1) && T.NoDup(used) && i < |used|
    ensures var next' := if i > 0 then next[used[i - 1] := next[used[i]]] else next;
            Linking(bs, used[..i] + used[i + 1..], next'[used[i] := null], 1)
  {
    var u := used[..i] + used[i + 1..];
    var next' := (if i > 0 then next[used[i - 1] := next[used[i]]] else next)[used[i] := null];
    forall j | 0 <= j < |u| ensures u[j] < |bs| && next'[u[j]] == BucketAt(bs, u, j + 1) {
      RemoveNextAt(bs, used, next, i, j);
    }
    RemoveMembers(used, i);
    hide BucketAt, T.NoDup;
    forall b: nat | b < |bs| && b !in u ensures next'[b] == null {
      if i > 0 { assert u[i - 1] == used[i - 1]; }
      RemovedNull(bs, used, next, 1, i, b);
    }
  }

  lemma RemovePrevAt<K, V>(bs: seq<HashBucket<K, V>>, used: seq<nat>, prev: seq<HashBucket?<K, V>>, i: nat, j: nat)
    requires Linking(bs, used, prev, -1) && T.NoDup(used) && i < |used| && j + 1 < |used|
    ensures var u := used[..i] + used[i + 1..];
            var prev' := (if i + 1 < |used| then prev[used[i + 1] := prev[used[i]]] else prev)[used[i] := null];
            u[j] < |bs| && prev'[u[j]] == BucketAt(bs, u, j - 1)
  {
    var k := if j < i then j else j + 1;
    Distinct(used, k, i);
    if i + 1 < |used| && k != i + 1 { Distinct(used, k, i + 1); }
    hide T.NoDup;
  }

  lemma RemovePrev<K, V>(bs: seq<HashBucket<K, V>>, used: seq<nat>, prev: seq<HashBucket?<K, V>>, i: nat)
    requires Linking(bs, used, prev, -1) && T.NoDup(used) && i < |used|
    ensures var prev' := if i + 1 < |used| then prev[used[i + 1] := prev[used[i]]] else prev;
            Linking(bs, used[..i] + used[i + 1..], prev'[used[i] := null], -1)
  {
    var u := used[..i] + used[i + 1..];
    var prev' := (if i + 1 < |used| then prev[used[i + 1] := prev[used[i]]] else prev)[used[i] := null];
    forall j | 0 <= j < |u| ensures u[j] < |bs| && prev'[u[j]] == BucketAt(bs, u, j - 1) {
      RemovePrevAt(bs, used, prev, i, j);
    }
    RemoveMembers(used, i);
    hide BucketAt, T.NoDup;
    forall b: nat | b < |bs| && b !in u ensures prev'[b] == null {
      if i + 1 < |used| { assert u[i] == used[i + 1]; }
      RemovedNull(bs, used, prev, -1, i, b);
    }
  }

  /** Off the shortened list: the removed bucket, or one that was not on the list. */
  lemma RemovedNull<K, V>(bs: seq<HashBucket<K, V>>, used: seq<nat>, link: seq<HashBucket?<K, V>>, step: int, i: nat,
      b: nat)
    requires Linking(bs, used, link, step) && T.NoDup(used) && i < |used| && b < |bs| && b !in used[..i] + used[i + 1..]
    ensures b == used[i] || link[b] == null
  {
    RemoveMembers(used, i);
    hide BucketAt, T.NoDup;
  }

  ghost predicate AllNull<K, V>(bs: seq<HashBucket<K, V>>)
    reads bs
  {
    forall b :: 0 <= b < |bs| ==> bs[b].data == null && bs[b].nextBucket == null && bs[b].prevBucket == null
  }

  lemma NoDupNil<X>()
    ensures T.NoDup<X>([])
  {
  }

  ghost function ItemOf<K, V>(d: DataItem<K, V>): T.Item<K, V> {
    T.Item(d.first, d.second)
  }

  ghost function ItemSeq<K, V>(s: seq<DataItem<K, V>>): (r: seq<T.Item<K, V>>)
    ensures |r| == |s|
  {
    seq(|s|, i requires 0 <= i < |s| => ItemOf(s[i]))
  }

  ghost function AbsOf<K, V>(chains: seq<seq<DataItem<K, V>>>, used: seq<nat>): (t: T.Table<K, V>)
    ensures |t.chains| == |chains|
  {
    T.Table(seq(|chains|, b requires 0 <= b < |chains| => ItemSeq(chains[b])), used)
  }

  predicate PowerOfTwo(n: nat) {
    n == 1 || (n > 1 && n % 2 == 0 && PowerOfTwo(n / 2))
  }

  /** Chain s belongs to bucket b of n: its items are owned by the table and hash to b. */
  ghost predicate Housed<K, V>(s: seq<DataItem<K, V>>, hash: K -> nat, n: nat, b: nat, items: set<DataItem<K, V>>)
    requires n > 0
  {
    forall i :: 0 <= i < |s| ==> s[i] in items && hash(s[i].first) % n == b
  }

  /** The iterator (bucket, data) stands at the p-th item of the u-th used bucket, or at the end. */
  ghost predicate AtPosition<K, V>(buckets: seq<HashBucket<K, V>>, chains: seq<seq<DataItem<K, V>>>, used: seq<nat>,
                                   bucket: HashBucket?<K, V>, data: DataItem?<K, V>, u: nat, p: nat) {
    && |chains| == |buckets| && InRange(used, |buckets|) && u <= |used|
    && (u == |used| ==> bucket == null && data == null && p == 0)
    && (u < |used| ==> bucket == buckets[used[u]] && p < |chains[used[u]]| && data == chains[used[u]][p])
  }

  class HashTable<K(==), V> {
    const hash: K -> nat
    const load: real
    var size: nat
    var maxSize: nat
    var buckets: seq<HashBucket<K, V>>
    var first: HashBucket?<K, V>
    var last: HashBucket?<K, V>

    ghost var chains: seq<seq<DataItem<K, V>>>
    ghost var used: seq<nat>
    ghost var items: set<DataItem<K, V>>

    ghost predicate HousedOk()
      reads this`chains, this`buckets, this`items
    {
      && |chains| == |buckets| > 0
      && forall b: nat :: b < |chains| ==> Housed(chains[b], hash, |buckets|, b, items)
    }

    ghost predicate ChainsOk()
      reads this`chains, this`buckets, this`items, buckets`data, items`next
    {
      && HousedOk()
      && forall b: nat :: b < |chains| ==> Linked(buckets[b].data, chains[b])
    }

    /** The list of used buckets is threaded through the bucket array. */
    ghost predicate Threads()
      reads this`used, this`buckets, this`first, this`last, buckets
    {
      && T.NoDup(buckets) && T.NoDup(used)
      && Linking(buckets, used, Nexts(buckets), 1) && Linking(buckets, used, Prevs(buckets), -1)
      && first == BucketAt(buckets, used, 0) && last == BucketAt(buckets, used, |used| - 1)
    }

    /** It holds exactly the non-empty buckets. */
    ghost predicate ListOk()
      reads this`used, this`buckets, this`first, this`last, this`chains, buckets
    {
      && Threads()
      && |chains| == |buckets| && forall b: nat :: b < |chains| ==> (chains[b] != [] <==> b in used)
    }

    ghost predicate Valid()
      reads this, buckets, items
    {
      && PowerOfTwo(|buckets|) && ChainsOk() && ListOk()
      && size == |T.Items(Abs())| && size <= maxSize
    }

    /** The table as a value: the contents of its chains and the order of its used buckets. */
    ghost function Abs(): T.Table<K, V>
      reads this`chains, this`used
    {
      AbsOf(chains, used)
    }

    constructor (hash: K -> nat, n: nat, load: real)
      ensures Valid() && this.hash == hash && this.load == load
      ensures fresh(buckets) && items == {} && T.Items(Abs()) == []
      ensures size == 0 && maxSize == 0 && n <= |buckets|
    {
      this.hash, this.load := hash, load;
      size, maxSize, first, last := 0, 0, null, null;
      used, items, buckets, chains := [], {}, [], [];
      var nb := 2;
      assert PowerOfTwo(2 / 2);
      while nb < n
        invariant nb > 1 && PowerOfTwo(nb)
        decreases n - nb
      {
        DoublePower(nb);
        nb := nb * 2;
      }
      new;
      FreshBuckets(nb);
    }

    /** A new array of n empty buckets. */
    method FreshBuckets(n: nat)
      requires n > 0 && PowerOfTwo(n)
      modifies this`buckets, this`first, this`last, this`chains, this`used, this`items
      ensures |buckets| == n && fresh(buckets) && ChainsOk() && ListOk()
      ensures used == [] && items == {} && T.Items(Abs()) == []
    {
      hide HousedOk, ChainsOk, ListOk, T.Items, T.NoDup;
      var bs: seq<HashBucket<K, V>> := [];
      NoDupNil<HashBucket<K, V>>();
      while |bs| < n
        invariant |bs| <= n && T.NoDup(bs) && fresh(bs) && AllNull(bs)
      {
        var b := new HashBucket();
        NoDupSnoc(bs, b);
        bs := bs + [b];
      }
      buckets := bs;
      items := {};
      Reset();
    }

    // ---------------------------------------------------------------- insert

    method SetNext(x: HashBucket<K, V>, v: HashBucket?<K, V>, ghost c: nat)
      requires T.NoDup(buckets) && c < |buckets| && buckets[c] == x
      modifies x`nextBucket
      ensures Nexts(buckets) == old(Nexts(buckets))[c := v]
      ensures Prevs(buckets) == old(Prevs(buckets)) && Datas(buckets) == old(Datas(buckets))
    {
      x.nextBucket := v;
      forall b | 0 <= b < |buckets| ensures Nexts(buckets)[b] == old(Nexts(buckets))[c := v][b] {
        if b != c { Distinct(buckets, b, c); }
        assert old(Nexts(buckets))[b] == old(buckets[b].nextBucket);
      }
    }

    method SetPrev(x: HashBucket<K, V>, v: HashBucket?<K, V>, ghost c: nat)
      requires T.NoDup(buckets) && c < |buckets| && buckets[c] == x
      modifies x`prevBucket
      ensures Prevs(buckets) == old(Prevs(buckets))[c := v]
      ensures Nexts(buckets) == old(Nexts(buckets)) && Datas(buckets) == old(Datas(buckets))
    {
      x.prevBucket := v;
      forall b | 0 <= b < |buckets| ensures Prevs(buckets)[b] == old(Prevs(buckets))[c := v][b] {
        if b != c { Distinct(buckets, b, c); }
        assert old(Prevs(buckets))[b] == old(buckets[b].prevBucket);
      }
    }

    /** Link the last used bucket and a new one to each other; with no used bucket there is nothing to link. */
    method Couple(b: nat)
      requires T.NoDup(buckets) && InRange(used, |buckets|) && b < |buckets|
      requires last == BucketAt(buckets, used, |used| - 1) && first == BucketAt(buckets, used, 0)
      modifies this`first, buckets`nextBucket, buckets`prevBucket
      ensures first == if used == [] then buckets[b] else old(first)
      ensures Nexts(buckets) == if used == [] then old(Nexts(buckets))
          else old(Nexts(buckets))[used[|used| - 1] := buckets[b]]
      ensures Prevs(buckets) == if used == [] then old(Prevs(buckets))
          else old(Prevs(buckets))[b := buckets[used[|used| - 1]]]
    {
      hide Nexts, Prevs, T.NoDup;
      if first == null {
        first := buckets[b];
      } else {
        SetNext(last, buckets[b], used[|used| - 1]);
      }
      if last != null {
        SetPrev(buckets[b], last, b);
      }
    }

    /** Append a bucket to the list of used buckets. */
    method LinkLast(b: nat)
      requires Threads() && b < |buckets| && b !in used
      modifies this`first, this`last, this`used, buckets`nextBucket, buckets`prevBucket
      ensures Threads() && used == old(used) + [b]
    {
      hide Linking, Nexts, Prevs, T.NoDup, BucketAt, InRange;
      AppendNext(buckets, used, Nexts(buckets), b);
      AppendPrev(buckets, used, Prevs(buckets), b);
      LinkingRange(buckets, used, Nexts(buckets), 1);
      NoDupSnoc(used, b);
      EndsSnoc(buckets, used, b);
      Couple(b);
      last := buckets[b];
      used := used + [b];
    }

    /** Put a new item in front of the chain of bucket b. */
    method Prepend(b: nat, d: DataItem<K, V>)
      requires ChainsOk() && b < |buckets| && d !in items && hash(d.first) % |buckets| == b && d.next == null
      requires T.NoDup(buckets)
      modifies this`chains, this`items, buckets`data, d
      ensures ChainsOk() && chains == old(chains)[b := [d] + old(chains)[b]] && items == old(items) + {d}
      ensures Nexts(buckets) == old(Nexts(buckets)) && Prevs(buckets) == old(Prevs(buckets))
    {
      hide Nexts, Prevs, Housed, T.NoDup;
      ghost var c, o := chains, items;
      forall a: nat | a < |c| && a != b ensures buckets[a] != buckets[b] { Distinct(buckets, a, b); }
      if buckets[b].data == null {
        buckets[b].data := d;
      } else {
        var temp := buckets[b].data;
        buckets[b].data := d;
        d.next := temp;
      }
      chains := chains[b := [d] + chains[b]];
      items := items + {d};
      SameLinks(buckets);
      forall a: nat | a < |c| ensures d !in c[a] && Housed(chains[a], hash, |buckets|, a, items) {
        HousedMore(c[a], hash, |buckets|, a, o, d);
      }
      LinkedCons(d, c[b]);
    }

    /** The pointer work of an insertion: a new item heads its chain, and an empty bucket joins the list. */
    method Place(d: DataItem<K, V>)
      requires ChainsOk() && Threads() && d !in items && d.next == null
      requires forall b: nat :: b < |chains| ==> (chains[b] != [] <==> b in used)
      modifies this`chains, this`items, this`used, this`first, this`last, buckets, d
      ensures ChainsOk() && Threads() && items == old(items) + {d}
      ensures var b := hash(d.first) % |buckets|;
              && chains == old(chains)[b := [d] + old(chains)[b]]
              && used == if old(chains)[b] == [] then old(used) + [b] else old(used)
    {
      hide Linked, Housed, Linking, Nexts, Prevs, T.NoDup, BucketAt;
      var b := hash(d.first) % |buckets|;
      HeadNull(buckets[b].data, chains[b]);
      if buckets[b].data == null {
        LinkLast(b);
      }
      Prepend(b, d);
    }

    method Insert(key: K, val: V)
      requires Valid()
      modifies this, buckets
      ensures Valid() && buckets == old(buckets) && fresh(items - old(items)) && old(items) <= items
      ensures Abs() == T.Insert(old(Abs()), hash, key, val)
      ensures size == old(size) + 1 && maxSize == if size > old(maxSize) then size else old(maxSize)
    {
      hide HousedOk, ChainsOk, Threads, T.Insert, T.Items, T.Valid, AbsOf, PowerOfTwo;
      ghost var c, u := chains, used;
      TableValid();
      ghost var p := T.InsertItems(Abs(), hash, key, val);
      TablePositive();
      ghost var b := hash(key) % |buckets|;
      var d := new DataItem(key, val);
      AbsInsert(chains, used, hash, d, b);
      Place(d);
      size := size + 1;
      if size > maxSize {
        maxSize := size;
      }
      TablePositive();
      UsedInsert(c, u, b, d);
    }

    lemma ThreadsNoDup()
      requires Threads()
      ensures T.NoDup(buckets) && T.NoDup(used)
    {
    }

    lemma NextNull(b: nat, p: nat)
      requires ChainsOk() && b < |buckets| && p < |chains[b]|
      ensures chains[b][p].next == null <==> p + 1 == |chains[b]|
    {
      assert Linked(buckets[b].data, chains[b]);
    }

    lemma TablePositive()
      requires ChainsOk()
      ensures |chains| == |buckets| > 0
    {
    }

    lemma TableValid()
      requires ChainsOk() && ListOk()
      ensures T.Valid(Abs(), hash)
    {
      hide Housed, Linked, Linking, T.NoDup, T.Valid, BucketAt;
      LinkingRange(buckets, used, Nexts(buckets), 1);
      AbsValid(chains, used, hash, items);
    }

    // ---------------------------------------------------------------- find and erase

    /** Walk chain b to the first item with the key; `prev` is the item before it. */
    method Search(b: nat, key: K) returns (prev: DataItem?<K, V>, data: DataItem?<K, V>, ghost p: nat)
      requires ChainsOk() && b < |buckets|
      ensures p == T.FirstAt(ItemSeq(chains[b]), key)
      ensures p <= |chains[b]| && data == ItemAt(chains[b], p) && prev == ItemAt(chains[b], p - 1)
    {
      hide Housed;
      ghost var s := chains[b];
      data, prev, p := buckets[b].data, null, 0;
      while data != null && data.first != key
        invariant p <= |s| && data == ItemAt(s, p) && prev == ItemAt(s, p - 1)
        invariant forall j :: 0 <= j < p ==> s[j].first != key
        decreases |s| - p
      {
        prev := data;
        data := data.next;
        p := p + 1;
      }
      FirstIs(s, key, p);
    }

    /** `find`: the first item of the key's chain that has the key. */
    method Find(key: K) returns (bucket: HashBucket?<K, V>, data: DataItem?<K, V>)
      requires Valid()
      ensures data != null <==> T.Has(Abs(), hash, key)
      ensures data != null ==> data.first == key && data.second == T.Get(Abs(), hash, key)
      ensures var b := hash(key) % |buckets|;
              && data == ItemAt(chains[b], T.FirstAt(ItemSeq(chains[b]), key))
              && bucket == if data == null then null else buckets[b]
    {
      hide ChainsOk, ListOk, Housed, T.FirstAt;
      TablePositive();
      var b := hash(key) % |buckets|;
      var prev;
      ghost var p;
      prev, data, p := Search(b, key);
      bucket := if data == null then null else buckets[b];
    }

    /** Take bucket b, the i-th used one, out of the list. */
    method Unlink(b: nat, ghost i: nat)
      requires Threads() && b < |buckets| && i < |used| && used[i] == b
      modifies this`first, this`last, this`used, buckets`nextBucket, buckets`prevBucket
      ensures Threads() && used == old(used)[..i] + old(used)[i + 1..]
    {
      hide Linking, Nexts, Prevs, Datas, T.NoDup, InRange, BucketAt;
      LinkingRange(buckets, used, Nexts(buckets), 1);
      LinkAt(buckets, used, Nexts(buckets), i, 1);
      LinkAt(buckets, used, Prevs(buckets), i, -1);
      RemoveLinks(buckets, used, Nexts(buckets), Prevs(buckets), i);
      Release(b, i);
      used := used[..i] + used[i + 1..];
    }

    /** The pointer writes of Unlink: the neighbours bypass bucket b and its own links are cleared. */
    method Release(b: nat, ghost i: nat)
      requires T.NoDup(buckets) && T.NoDup(used) && InRange(used, |buckets|) && b < |buckets| && i < |used|
      requires used[i] == b
      requires buckets[b].nextBucket == BucketAt(buckets, used, i + 1)
      requires buckets[b].prevBucket == BucketAt(buckets, used, i - 1)
      modifies this`first, this`last, buckets`nextBucket, buckets`prevBucket
      ensures Nexts(buckets) == NextsWithout(used, old(Nexts(buckets)), i)
      ensures Prevs(buckets) == PrevsWithout(used, old(Prevs(buckets)), i)
      ensures last == if i + 1 < |used| then old(last) else BucketAt(buckets, used, i - 1)
      ensures first == if i > 0 then old(first) else BucketAt(buckets, used, i + 1)
    {
      hide Nexts, Prevs, Datas, T.NoDup, BucketAt;
      Bypass(b, i);
      SetNext(buckets[b], null, b);
      SetPrev(buckets[b], null, b);
    }

    /** Make the neighbours of bucket b, or the ends of the list, point past it. */
    method Bypass(b: nat, ghost i: nat)
      requires T.NoDup(buckets) && T.NoDup(used) && InRange(used, |buckets|) && b < |buckets| && i < |used|
      requires used[i] == b
      requires buckets[b].nextBucket == BucketAt(buckets, used, i + 1)
      requires buckets[b].prevBucket == BucketAt(buckets, used, i - 1)
      modifies this`first, this`last, buckets`nextBucket, buckets`prevBucket
      ensures Nexts(buckets) == if i > 0 then old(Nexts(buckets))[used[i - 1] := old(Nexts(buckets))[b]]
          else old(Nexts(buckets))
      ensures Prevs(buckets) == if i + 1 < |used| then old(Prevs(buckets))[used[i + 1] := old(Prevs(buckets))[b]]
          else old(Prevs(buckets))
      ensures last == if i + 1 < |used| then old(last) else BucketAt(buckets, used, i - 1)
      ensures first == if i > 0 then old(first) else BucketAt(buckets, used, i + 1)
    {
      hide T.NoDup;
      var next, prev := buckets[b].nextBucket, buckets[b].prevBucket;
      if i > 0 { Distinct(used, i, i - 1); }
      if i + 1 < |used| { Distinct(used, i, i + 1); }
      if next != null {
        SetPrev(next, prev, used[i + 1]);
      } else {
        last := prev;
      }
      if prev != null {
        SetNext(prev, next, used[i - 1]);
      } else {
        first := next;
      }
    }

    /** Take the p-th item out of chain b. */
    method Cut(b: nat, prev: DataItem?<K, V>, data: DataItem<K, V>, ghost p: nat)
      requires ChainsOk() && Threads() && b < |buckets| && p < |chains[b]|
      requires data == chains[b][p] && prev == ItemAt(chains[b], p - 1)
      modifies this`chains, buckets`data, items`next
      ensures ChainsOk() && chains == old(chains)[b := old(chains)[b][..p] + old(chains)[b][p + 1..]]
      ensures Threads()
      ensures data.next == old(data.next)
    {
      hide Nexts, Prevs, Housed, T.NoDup, Linked, Linking, BucketAt;
      ghost var c := chains;
      forall a: nat | a < |c| && a != b ensures buckets[a] != buckets[b] { Distinct(buckets, a, b); }
      forall a: nat | a < |c| && a != b && p > 0 ensures c[b][p - 1] !in c[a] {
        HousedApart(c[a], c[b], hash, |buckets|, a, b, items, p - 1);
      }
      HousedCut(c[b], hash, |buckets|, b, items, p);
      LinkedFacts(buckets[b].data, c[b]);
      forall i | 0 <= i < |c[b]| && i != p - 1 && p > 0 ensures c[b][i] != c[b][p - 1] { Distinct(c[b], i, p - 1); }
      if prev == null {
        buckets[b].data := data.next;
      } else {
        prev.next := data.next;
      }
      chains := chains[b := chains[b][..p] + chains[b][p + 1..]];
      SameLinks(buckets);
      assert forall a: nat :: a < |c| && a != b ==> Linked(buckets[a].data, c[a]);
      CutChain(buckets[b].data, c[b], p);
    }

    /** The pointer work of an erasure: the item leaves its chain, and an emptied bucket leaves the list. */
    method Remove(b: nat, prev: DataItem?<K, V>, data: DataItem<K, V>, ghost p: nat)
      requires ChainsOk() && Threads() && b < |buckets| && p < |chains[b]| && b in used
      requires data == chains[b][p] && prev == ItemAt(chains[b], p - 1)
      modifies this`chains, this`used, this`first, this`last, buckets, items`next
      ensures ChainsOk() && Threads()
      ensures var s := old(chains)[b][..p] + old(chains)[b][p + 1..];
              chains == old(chains)[b := s] && used == if s == [] then T.Without(old(used), b) else old(used)
    {
      hide HousedOk, ChainsOk, Threads, T.Without, Linked, T.NoDup;
      TablePositive();
      ThreadsNoDup();
      NextNull(b, p);
      ghost var i := UsedIndex(used, b);
      T.WithoutAt(used, i);
      ghost var s := chains[b][..p] + chains[b][p + 1..];
      assert prev == null && data.next == null <==> |s| == 0;
      Cut(b, prev, data, p);
      if prev == null && data.next == null {
        Unlink(b, i);
      }
    }

    /** Remove the first item with the key, if there is one. */
    method Erase(key: K)
      requires Valid()
      modifies this, buckets, items
      ensures Valid() && buckets == old(buckets) && items == old(items)
      ensures Abs() == T.Erase(old(Abs()), hash, key)
      ensures var b := hash(key) % |buckets|;
              var p := T.FirstAt(ItemSeq(old(chains)[b]), key);
              if p == |old(chains)[b]| then chains == old(chains) && used == old(used)
              else chains == old(chains)[b := old(chains)[b][..p] + old(chains)[b][p + 1..]]
                   && used == if |old(chains)[b]| == 1 then T.Without(old(used), b) else old(used)
      ensures size == if T.Has(old(Abs()), hash, key) then old(size) - 1 else old(size)
      ensures maxSize == old(maxSize)
    {
      hide HousedOk, ChainsOk, Threads, T.Erase, T.Items, T.Valid, AbsOf, PowerOfTwo, T.FirstAt, T.Has, Linked;
      hide T.Without;
      ghost var c, u := chains, used;
      TableValid();
      TablePositive();
      ThreadsNoDup();
      var b := hash(key) % |buckets|;
      var prev, data, p := Search(b, key);
      AbsErase(chains, used, hash, key, b, p);
      if data != null {
        ghost var q := T.EraseItems(Abs(), hash, key);
        Remove(b, prev, data, p);
        size := size - 1;
        TablePositive();
        UsedCut(c, u, b, p);
      }
    }

    // ---------------------------------------------------------------- clear and rehash

    /** The first i used buckets have been emptied; the others are still linked forward. */
    ghost predicate Cleared(i: nat)
      reads this`used, this`buckets, buckets
    {
      && LinkedFrom(buckets, used, Nexts(buckets), i)
      && BlankBefore(used, i, Nexts(buckets), null) && BlankBefore(used, i, Prevs(buckets), null)
      && BlankBefore(used, i, Datas(buckets), null)
    }

    method SetData(x: HashBucket<K, V>, v: DataItem?<K, V>, ghost c: nat)
      requires T.NoDup(buckets) && c < |buckets| && buckets[c] == x
      modifies x`data
      ensures Datas(buckets) == old(Datas(buckets))[c := v]
      ensures Nexts(buckets) == old(Nexts(buckets)) && Prevs(buckets) == old(Prevs(buckets))
    {
      x.data := v;
      forall b | 0 <= b < |buckets| ensures Datas(buckets)[b] == old(Datas(buckets))[c := v][b] {
        if b != c { Distinct(buckets, b, c); }
        assert old(Datas(buckets))[b] == old(buckets[b].data);
      }
    }

    /** Empty the bucket at the front of the list and step to the next one. */
    method ClearFront(ghost i: nat)
      requires Cleared(i) && i < |used| && T.NoDup(buckets) && T.NoDup(used) && first == BucketAt(buckets, used, i)
      modifies this`first, buckets
      ensures Cleared(i + 1) && first == BucketAt(buckets, used, i + 1)
    {
      hide T.NoDup, BlankBefore, InRange;
      ghost var b := used[i];
      FrontLinks(i);
      LinkedNext(buckets, used, Nexts(buckets), i);
      BlankNext(used, i, Nexts(buckets), null);
      BlankNext(used, i, Prevs(buckets), null);
      BlankNext(used, i, Datas(buckets), null);
      hide LinkedFrom, BucketAt;
      var tmp := first;
      SetData(tmp, null, b);
      first := first.nextBucket;
      SetNext(tmp, null, b);
      SetPrev(tmp, null, b);
    }

    lemma FrontLinks(i: nat)
      requires Cleared(i) && i < |used| && first == BucketAt(buckets, used, i)
      ensures used[i] < |buckets| && first == buckets[used[i]] && first.nextBucket == BucketAt(buckets, used, i + 1)
    {
      hide BlankBefore;
      assert Nexts(buckets)[used[i]] == BucketAt(buckets, used, i + 1);
    }

    method Clear()
      requires Valid()
      modifies this, buckets
      ensures Valid() && buckets == old(buckets) && items == old(items)
      ensures T.Items(Abs()) == [] && |Abs().chains| == |old(Abs()).chains| && used == []
      ensures size == 0 && maxSize == old(maxSize)
    {
      hide HousedOk, ChainsOk, ListOk, Cleared, T.NoDup, BucketAt, T.Items, PowerOfTwo, AllNull;
      TablePositive();
      StartClear();
      ghost var i := 0;
      while first != null
        invariant Cleared(i) && first == BucketAt(buckets, used, i) && T.NoDup(buckets) && T.NoDup(used)
        invariant buckets == old(buckets) && items == old(items) && chains == old(chains) && used == old(used)
        invariant maxSize == old(maxSize)
        decreases |used| - i
      {
        InList(i);
        ClearFront(i);
        i := i + 1;
      }
      AllCleared(i);
      size := 0;
      Reset();
    }

    lemma StartClear()
      requires ChainsOk() && ListOk()
      ensures Cleared(0) && T.NoDup(buckets) && T.NoDup(used) && first == BucketAt(buckets, used, 0)
    {
      hide Housed, T.NoDup, BucketAt;
      assert used[0..] == used;
      forall b: nat | b < |buckets| && b !in used ensures Datas(buckets)[b] == null {
        HeadNull(buckets[b].data, chains[b]);
      }
    }

    lemma InList(i: nat)
      requires Cleared(i) && BucketAt(buckets, used, i) != null
      ensures i < |used|
    {
    }

    lemma AllCleared(i: nat)
      requires Cleared(i) && BucketAt(buckets, used, i) == null
      ensures AllNull(buckets)
    {
      assert i == |used| && used[i..] == [];
      forall b | 0 <= b < |buckets|
        ensures buckets[b].data == null && buckets[b].nextBucket == null && buckets[b].prevBucket == null
      {
        assert Datas(buckets)[b] == null && Nexts(buckets)[b] == null && Prevs(buckets)[b] == null;
      }
    }

    /** With all buckets empty, the list is empty too. */
    method Reset()
      requires |buckets| > 0 && T.NoDup(buckets) && AllNull(buckets)
      modifies this`first, this`last, this`chains, this`used
      ensures ChainsOk() && ListOk() && used == [] && T.Items(Abs()) == [] && |chains| == |buckets|
    {
      first, last := null, null;
      chains, used := seq(|buckets|, _ => []), [];
    }

    /** Double the bucket array when the load since the last clear was too high; the table must be empty. */
    method Rehash() returns (ok: bool)
      requires Valid()
      modifies this
      ensures ok <==> old(size) == 0
      ensures ok ==> Valid() && T.Items(Abs()) == [] && maxSize == 0
      ensures ok ==> |buckets| == if old(maxSize) as real / old(|buckets|) as real > load then 2 * old(|buckets|)
          else old(|buckets|)
      ensures fresh(set b | b in buckets && b !in old(buckets)) && items <= old(items)
    {
      hide HousedOk, ChainsOk, ListOk, T.Items;
      TablePositive();
      if size != 0 {
        return false;
      }
      ok := true;
      if maxSize as real / |buckets| as real > load {
        DoublePower(|buckets|);
        FreshBuckets(|buckets| * 2);
      }
      maxSize := size;
    }

    // ---------------------------------------------------------------- iteration

    /** The iterator (bucket, data) stands at the p-th item of the u-th used bucket, or at the end. */
    ghost predicate AtItem(bucket: HashBucket?<K, V>, data: DataItem?<K, V>, u: nat, p: nat)
      reads this`used, this`buckets, this`chains
    {
      AtPosition(buckets, chains, used, bucket, data, u, p)
    }

    ghost function Offset(u: nat, p: nat): nat
      requires ListOk() && u <= |used|
      reads this`used, this`buckets, this`first, this`last, this`chains, buckets
    {
      UsedOk();
      T.Offset(Abs(), u, p)
    }

    lemma UsedOk()
      requires ListOk()
      ensures T.UsedOk(Abs()) && InRange(used, |buckets|)
    {
      hide T.NoDup, BucketAt;
      assert forall b: nat :: b < |chains| ==> |Abs().chains[b]| == |chains[b]|;
    }

    /** With unique keys, the item the iterator stands on is the one `erase` would find. */
    lemma FirstHere(bucket: HashBucket?<K, V>, data: DataItem<K, V>, u: nat, p: nat)
      requires ChainsOk() && ListOk() && AtItem(bucket, data, u, p) && T.UniqueKeys(T.Items(Abs()))
      ensures used[u] == hash(data.first) % |buckets| && T.FirstAt(ItemSeq(chains[used[u]]), data.first) == p
    {
      hide T.Items, T.Offset, ListOk, T.UsedOk, Linked;
      UsedOk();
      var s := chains[used[u]];
      assert Housed(s, hash, |buckets|, used[u], items);
      T.OffsetItem(Abs(), u, p);
      forall j | 0 <= j < p ensures s[j].first != data.first {
        T.OffsetItem(Abs(), u, j);
        OffsetLess(u, j, p);
      }
      FirstIs(s, data.first, p);
    }

    lemma OffsetLess(u: nat, j: nat, p: nat)
      requires ListOk() && T.UsedOk(Abs()) && u <= |used| && j < p
      ensures T.Offset(Abs(), u, j) < T.Offset(Abs(), u, p)
    {
    }

    lemma AtIs(bucket: HashBucket?<K, V>, data: DataItem?<K, V>, u: nat, p: nat)
      requires AtItem(bucket, data, u, p)
      ensures AtPosition(buckets, chains, used, bucket, data, u, p) && Abs() == AbsOf(chains, used)
    {
    }

    lemma AtBound(bucket: HashBucket?<K, V>, data: DataItem?<K, V>, u: nat, p: nat)
      requires AtItem(bucket, data, u, p)
      ensures u <= |used| && (data != null ==> bucket != null)
    {
    }

    lemma IsAt(bucket: HashBucket?<K, V>, data: DataItem?<K, V>, u: nat, p: nat)
      requires Valid() && AtPosition(buckets, chains, used, bucket, data, u, p) && T.UsedOk(AbsOf(chains, used))
      ensures AtItem(bucket, data, u, p) && Abs() == AbsOf(chains, used)
      ensures Offset(u, p) == T.Offset(AbsOf(chains, used), u, p)
    {
      hide T.UsedOk, ListOk, ChainsOk;
    }

    lemma ItemHere(bucket: HashBucket?<K, V>, data: DataItem<K, V>, u: nat, p: nat)
      requires ListOk() && AtItem(bucket, data, u, p)
      ensures Offset(u, p) < |T.Items(Abs())| && T.Items(Abs())[Offset(u, p)] == ItemOf(data)
    {
      hide T.Items, T.Offset, ListOk, T.UsedOk;
      UsedOk();
      T.OffsetItem(Abs(), u, p);
    }

    method Begin() returns (bucket: HashBucket?<K, V>, data: DataItem?<K, V>)
      requires Valid()
      ensures AtItem(bucket, data, 0, 0) && Offset(0, 0) == 0
    {
      hide T.NoDup, T.Items, Housed, PowerOfTwo, Linking;
      LinkingRange(buckets, used, Nexts(buckets), 1);
      bucket := first;
      data := if first != null then first.data else null;
      if used != [] {
        assert used[0] in used;
        HeadAt(buckets[used[0]].data, chains[used[0]]);
      }
      assert used[..0] == [];
    }

    /** `operator++`: the next item of the chain, else the first item of the next used bucket. */
    method Advance(bucket: HashBucket<K, V>, data: DataItem<K, V>, ghost u: nat, ghost p: nat)
        returns (bucket': HashBucket?<K, V>, data': DataItem?<K, V>, ghost u': nat, ghost p': nat)
      requires Valid() && AtItem(bucket, data, u, p)
      ensures AtItem(bucket', data', u', p') && Offset(u', p') == Offset(u, p) + 1
      ensures if p + 1 < |chains[used[u]]| then u' == u && p' == p + 1 else u' == u + 1 && p' == 0
    {
      hide ChainsOk, ListOk, T.Items, PowerOfTwo, T.Offset, T.UsedOk;
      UsedOk();
      ChainNext(u, p);
      T.OffsetNext(Abs(), u);
      OffsetStep(u, p);
      if data.next != null {
        bucket', data' := bucket, data.next;
        u', p' := u, p + 1;
      } else {
        bucket' := bucket.nextBucket;
        data' := if bucket' != null then bucket'.data else null;
        u', p' := u + 1, 0;
      }
    }

    lemma OffsetStep(u: nat, p: nat)
      requires ListOk() && u <= |used|
      ensures Offset(u, p + 1) == Offset(u, p) + 1
    {
    }

    /** Where the pointers of an item and of its bucket lead. */
    lemma ChainNext(u: nat, p: nat)
      requires ChainsOk() && ListOk() && u < |used| && used[u] < |chains| && p < |chains[used[u]]|
      ensures |chains| == |buckets| && InRange(used, |buckets|)
      ensures chains[used[u]][p].next == ItemAt(chains[used[u]], p + 1)
      ensures buckets[used[u]].nextBucket == BucketAt(buckets, used, u + 1)
      ensures u + 1 < |used| ==> chains[used[u + 1]] != [] && buckets[used[u + 1]].data == chains[used[u + 1]][0]
    {
      hide Housed, T.NoDup;
      LinkAt(buckets, used, Nexts(buckets), u, 1);
      assert Linked(buckets[used[u]].data, chains[used[u]]);
      if u + 1 < |used| {
        assert used[u + 1] in used;
        HeadAt(buckets[used[u + 1]].data, chains[used[u + 1]]);
      }
    }

    /** begin, ++ and end visit every item exactly once, in the order of the value model. */
    method Enumerate() returns (out: seq<T.Item<K, V>>)
      requires Valid()
      ensures out == T.Items(Abs())
    {
      hide ChainsOk, ListOk, T.Items, PowerOfTwo, Offset;
      out := [];
      var bucket, data := Begin();
      ghost var u, p := 0, 0;
      while data != null
        invariant AtItem(bucket, data, u, p) && Offset(u, p) == |out| <= |T.Items(Abs())|
        invariant out == T.Items(Abs())[..|out|]
        decreases |T.Items(Abs())| - |out|
      {
        ItemHere(bucket, data, u, p);
        out := out + [T.Item(data.first, data.second)];
        bucket, data, u, p := Advance(bucket, data, u, p);
      }
      AtEnd(bucket, u, p);
    }

    lemma AtEnd(bucket: HashBucket?<K, V>, u: nat, p: nat)
      requires ListOk() && AtItem(bucket, null, u, p)
      ensures u == |used| && Offset(u, p) == |T.Items(Abs())|
    {
      UsedOk();
      T.OffsetEnd(Abs());
    }

    /** find followed by next(), filtered by key equality: exactly the values stored under the key. */
    method FindAll(key: K) returns (out: seq<V>)
      requires Valid()
      ensures out == T.ValuesOf(T.Items(Abs()), key)
    {
      hide ListOk, T.Items, PowerOfTwo, T.ValuesOf, Housed, T.FirstAt, Linked, T.Valid, T.Has;
      TableValid();
      T.ValuesInChain(Abs(), hash, key);
      var bucket, data := Find(key);
      ghost var s := chains[hash(key) % |buckets|];
      ghost var p := T.FirstAt(ItemSeq(s), key);
      SkipOthers(s, key, p);
      LinkedFacts(buckets[hash(key) % |buckets|].data, s);
      out := [];
      while data != null
        invariant p <= |s| && data == ItemAt(s, p)
        invariant out + T.ValuesOf(ItemSeq(s[p..]), key) == T.ValuesOf(ItemSeq(s), key)
        decreases |s| - p
      {
        ValuesFront(s, p, key);
        if data.first == key {
          out := out + [data.second];
        }
        data := data.next;
        p := p + 1;
      }
      ValuesNil(s, p, key);
    }
  }

  /** The value of a well-formed table is valid. */
  lemma AbsValid<K, V>(chains: seq<seq<DataItem<K, V>>>, used: seq<nat>, hash: K -> nat, items: set<DataItem<K, V>>)
    requires |chains| > 0 && (forall b: nat :: b < |chains| ==> Housed(chains[b], hash, |chains|, b, items))
    requires T.NoDup(used) && InRange(used, |chains|)
    requires forall b: nat :: b < |chains| ==> (chains[b] != [] <==> b in used)
    ensures T.Valid(AbsOf(chains, used), hash)
  {
    hide T.NoDup;
    var t := AbsOf(chains, used);
    forall b: nat | b < |t.chains| ensures t.chains[b] != [] <==> b in t.used {
      assert |t.chains[b]| == |chains[b]|;
    }
    forall b: nat, i: nat | b < |t.chains| && i < |t.chains[b]|
      ensures T.Bucket(t, hash, t.chains[b][i].key) == b
    {
      assert chains[b][i] in items;
    }
  }

  lemma AbsInsert<K, V>(chains: seq<seq<DataItem<K, V>>>, used: seq<nat>, hash: K -> nat, d: DataItem<K, V>, b: nat)
    requires |chains| > 0 && b == hash(d.first) % |chains|
    ensures AbsOf(chains[b := [d] + chains[b]], if chains[b] == [] then used + [b] else used)
         == T.Insert(AbsOf(chains, used), hash, d.first, d.second)
  {
    var c := chains[b := [d] + chains[b]];
    assert ItemSeq([d] + chains[b]) == [T.Item(d.first, d.second)] + ItemSeq(chains[b]);
    assert AbsOf(c, used).chains == AbsOf(chains, used).chains[b := ItemSeq([d] + chains[b])];
  }

  lemma UsedInsert<K, V>(chains: seq<seq<DataItem<K, V>>>, used: seq<nat>, b: nat, d: DataItem<K, V>)
    requires b < |chains| && forall c: nat :: c < |chains| ==> (chains[c] != [] <==> c in used)
    ensures var chains' := chains[b := [d] + chains[b]];
            var used' := if chains[b] == [] then used + [b] else used;
            forall c: nat :: c < |chains'| ==> (chains'[c] != [] <==> c in used')
  {
  }

  lemma FirstIs<K, V>(s: seq<DataItem<K, V>>, key: K, p: nat)
    requires p <= |s| && (forall j :: 0 <= j < p ==> s[j].first != key) && (p < |s| ==> s[p].first == key)
    ensures T.FirstAt(ItemSeq(s), key) == p
  {
    var q := T.FirstAt(ItemSeq(s), key);
    assert q < |s| ==> ItemSeq(s)[q].key == s[q].first;
    assert p < |s| ==> ItemSeq(s)[p].key == s[p].first;
  }

  lemma EndsRemove<K, V>(bs: seq<HashBucket<K, V>>, used: seq<nat>, i: nat)
    requires InRange(used, |bs|) && i < |used|
    ensures var u := used[..i] + used[i + 1..];
            && BucketAt(bs, u, 0) == (if i > 0 then BucketAt(bs, used, 0) else BucketAt(bs, used, 1))
            && BucketAt(bs, u, |u| - 1) == BucketAt(bs, used, if i + 1 < |used| then |used| - 1 else i - 1)
  {
  }

  /** The links to the next bucket once the i-th used one is taken out. */
  ghost function NextsWithout<K, V>(used: seq<nat>, next: seq<HashBucket?<K, V>>, i: nat): seq<HashBucket?<K, V>>
    requires InRange(used, |next|) && i < |used|
  {
    (if i > 0 then next[used[i - 1] := next[used[i]]] else next)[used[i] := null]
  }

  ghost function PrevsWithout<K, V>(used: seq<nat>, prev: seq<HashBucket?<K, V>>, i: nat): seq<HashBucket?<K, V>>
    requires InRange(used, |prev|) && i < |used|
  {
    (if i + 1 < |used| then prev[used[i + 1] := prev[used[i]]] else prev)[used[i] := null]
  }

  /** Taking the i-th used bucket out keeps the list linked, and moves its ends as Bypass does. */
  lemma RemoveLinks<K, V>(bs: seq<HashBucket<K, V>>, used: seq<nat>, next: seq<HashBucket?<K, V>>,
      prev: seq<HashBucket?<K, V>>, i: nat)
    requires Linking(bs, used, next, 1) && Linking(bs, used, prev, -1) && T.NoDup(used) && i < |used|
    requires InRange(used, |next|) && InRange(used, |prev|)
    ensures var u := used[..i] + used[i + 1..];
            && T.NoDup(u)
            && Linking(bs, u, NextsWithout(used, next, i), 1) && Linking(bs, u, PrevsWithout(used, prev, i), -1)
            && BucketAt(bs, u, 0) == (if i > 0 then BucketAt(bs, used, 0) else BucketAt(bs, used, 1))
            && BucketAt(bs, u, |u| - 1) == BucketAt(bs, used, if i + 1 < |used| then |used| - 1 else i - 1)
  {
    hide Linking, InRange, BucketAt, T.NoDup;
    LinkingRange(bs, used, next, 1);
    RemoveNext(bs, used, next, i);
    RemovePrev(bs, used, prev, i);
    RemoveMembers(used, i);
    EndsRemove(bs, used, i);
  }

  lemma LinkAt<K, V>(bs: seq<HashBucket<K, V>>, used: seq<nat>, link: seq<HashBucket?<K, V>>, i: nat, step: int)
    requires Linking(bs, used, link, step) && i < |used|
    ensures used[i] < |link| && link[used[i]] == BucketAt(bs, used, i + step)
  {
  }

  lemma HousedApart<K, V>(s: seq<DataItem<K, V>>, t: seq<DataItem<K, V>>, hash: K -> nat, n: nat, a: nat, b: nat,
      items: set<DataItem<K, V>>, j: nat)
    requires n > 0 && a != b && Housed(s, hash, n, a, items) && Housed(t, hash, n, b, items) && j < |t|
    ensures t[j] !in s
  {
    assert hash(t[j].first) % n == b;
  }

  lemma HousedCut<K, V>(s: seq<DataItem<K, V>>, hash: K -> nat, n: nat, b: nat, items: set<DataItem<K, V>>, p: nat)
    requires n > 0 && p < |s| && Housed(s, hash, n, b, items)
    ensures Housed(s[..p] + s[p + 1..], hash, n, b, items) && forall i :: 0 <= i < |s| ==> s[i] in items
  {
  }

  /** Redirecting the predecessor of the p-th item, or the bucket, past it. */
  lemma CutChain<K, V>(d: DataItem?<K, V>, s: seq<DataItem<K, V>>, p: nat)
    requires p < |s| && T.NoDup(s)
    requires forall i {:trigger s[i].next} :: 0 <= i < |s| && i != p - 1 ==> s[i].next == ItemAt(s, i + 1)
    requires p > 0 ==> s[p - 1].next == ItemAt(s, p + 1)
    requires d == if p == 0 then ItemAt(s, 1) else s[0]
    ensures Linked(d, s[..p] + s[p + 1..])
  {
    var t := s[..p] + s[p + 1..];
    NoDupCut(s, p);
    hide T.NoDup;
    forall i | 0 <= i < |t| ensures t[i].next == ItemAt(t, i + 1) {
      var k := if i < p then i else i + 1;
      assert t[i] == s[k];
    }
  }

  lemma LinkedFacts<K, V>(d: DataItem?<K, V>, s: seq<DataItem<K, V>>)
    requires Linked(d, s)
    ensures T.NoDup(s) && d == ItemAt(s, 0)
    ensures forall i {:trigger s[i].next} :: 0 <= i < |s| ==> s[i].next == ItemAt(s, i + 1)
  {
  }

  lemma NoDupCut<X>(s: seq<X>, p: nat)
    requires T.NoDup(s) && p < |s|
    ensures T.NoDup(s[..p] + s[p + 1..])
  {
    var t := s[..p] + s[p + 1..];
    assert forall i :: 0 <= i < |t| ==> t[i] == s[if i < p then i else i + 1];
  }

  lemma UsedIndex(used: seq<nat>, b: nat) returns (i: nat)
    requires b in used
    ensures i < |used| && used[i] == b
  {
    i :| i < |used| && used[i] == b;
  }

  lemma AbsErase<K, V>(chains: seq<seq<DataItem<K, V>>>, used: seq<nat>, hash: K -> nat, key: K, b: nat, p: nat)
    requires |chains| > 0 && b == hash(key) % |chains| && p == T.FirstAt(ItemSeq(chains[b]), key)
    ensures T.Has(AbsOf(chains, used), hash, key) <==> p < |chains[b]|
    ensures p == |chains[b]| ==> T.Erase(AbsOf(chains, used), hash, key) == AbsOf(chains, used)
    ensures p < |chains[b]| ==>
              var s := chains[b][..p] + chains[b][p + 1..];
              AbsOf(chains[b := s], if s == [] then T.Without(used, b) else used)
              == T.Erase(AbsOf(chains, used), hash, key)
  {
    if p < |chains[b]| {
      hide T.FirstAt, T.Without;
      var s := chains[b][..p] + chains[b][p + 1..];
      assert ItemSeq(s) == ItemSeq(chains[b])[..p] + ItemSeq(chains[b])[p + 1..];
      assert AbsOf(chains[b := s], used).chains == AbsOf(chains, used).chains[b := ItemSeq(s)];
    }
  }

  lemma UsedCut<K, V>(chains: seq<seq<DataItem<K, V>>>, used: seq<nat>, b: nat, p: nat)
    requires T.NoDup(used) && b < |chains| && p < |chains[b]|
        && forall c: nat :: c < |chains| ==> (chains[c] != [] <==> c in used)
    ensures var s := chains[b][..p] + chains[b][p + 1..];
            var chains', used' := chains[b := s], if s == [] then T.Without(used, b) else used;
            forall c: nat :: c < |chains'| ==> (chains'[c] != [] <==> c in used')
  {
    hide T.NoDup, T.Without;
    T.WithoutMembers(used, b);
  }

  twostate lemma SameLinks<K, V>(bs: seq<HashBucket<K, V>>)
    requires forall b :: 0 <= b < |bs| ==>
               bs[b].nextBucket == old(bs[b].nextBucket) && bs[b].prevBucket == old(bs[b].prevBucket)
    ensures Nexts(bs) == old(Nexts(bs)) && Prevs(bs) == old(Prevs(bs))
  {
  }

  lemma HousedMore<K, V>(s: seq<DataItem<K, V>>, hash: K -> nat, n: nat, b: nat, items: set<DataItem<K, V>>,
      d: DataItem<K, V>)
    requires n > 0 && Housed(s, hash, n, b, items) && d !in items
    ensures d !in s && Housed(s, hash, n, b, items + {d})
    ensures hash(d.first) % n == b ==> Housed([d] + s, hash, n, b, items + {d})
  {
  }

  /** An item that points to the head of a chain heads the longer chain. */
  lemma LinkedCons<K, V>(d: DataItem<K, V>, s: seq<DataItem<K, V>>)
    requires Linked(d.next, s) && d !in s
    ensures Linked(d, [d] + s)
  {
    var t := [d] + s;
    forall i | 0 <= i < |t| ensures t[i].next == ItemAt(t, i + 1) {
      if i > 0 { assert t[i] == s[i - 1] && s[i - 1].next == ItemAt(s, i); }
    }
  }

  lemma SkipOthers<K, V>(s: seq<DataItem<K, V>>, key: K, p: nat)
    requires p == T.FirstAt(ItemSeq(s), key)
    ensures [] + T.ValuesOf(ItemSeq(s[p..]), key) == T.ValuesOf(ItemSeq(s), key)
  {
    hide T.ValuesOf;
    var a, b := ItemSeq(s[..p]), ItemSeq(s[p..]);
    assert ItemSeq(s) == a + b;
    T.ValuesConcat(a, b, key);
    forall i | 0 <= i < |a| ensures a[i].key != key { assert a[i] == ItemSeq(s)[i]; }
    T.ValuesNone(a, key);
  }

  lemma ValuesFront<K, V>(s: seq<DataItem<K, V>>, p: nat, key: K)
    requires p < |s|
    ensures T.ValuesOf(ItemSeq(s[p..]), key)
         == (if s[p].first == key then [s[p].second] else []) + T.ValuesOf(ItemSeq(s[p + 1..]), key)
  {
    assert ItemSeq(s[p..])[1..] == ItemSeq(s[p + 1..]);
  }

  lemma ValuesNil<K, V>(s: seq<DataItem<K, V>>, p: nat, key: K)
    requires p == |s|
    ensures T.ValuesOf(ItemSeq(s[p..]), key) == []
  {
  }

  lemma HeadAt<K, V>(d: DataItem?<K, V>, s: seq<DataItem<K, V>>)
    requires Linked(d, s) && s != []
    ensures d == s[0]
  {
  }

  lemma HeadNull<K, V>(d: DataItem?<K, V>, s: seq<DataItem<K, V>>)
    requires Linked(d, s)
    ensures d == null <==> s == []
  {
  }

  lemma DoublePower(n: nat)
    requires n > 0 && PowerOfTwo(n)
    ensures PowerOfTwo(n * 2)
  {
    assert n * 2 / 2 == n && (n * 2) % 2 == 0;
  }
}
