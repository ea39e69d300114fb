/** Lookup laws of the table: what find sees after an insertion, an update in place, and an erasure. */
module TableLaws {
  import opened Table

  lemma FirstIs<K, V>(c: seq<Item<K, V>>, k: K, p: nat)
    requires p <= |c| && (forall i :: 0 <= i < p ==> c[i].key != k) && (p < |c| ==> c[p].key == k)
    ensures FirstAt(c, k) == p
  {
  }

  lemma HasInsert<K, V>(t: Table<K, V>, hash: K -> nat, k: K, v: V, j: K)
    requires |t.chains| > 0
    ensures Has(Insert(t, hash, k, v), hash, j) <==> j == k || Has(t, hash, j)
    ensures Has(Insert(t, hash, k, v), hash, j) ==>
              Get(Insert(t, hash, k, v), hash, j) == if j == k then v else Get(t, hash, j)
  {
    var b, c := Bucket(t, hash, k), Bucket(t, hash, j);
    var chain := t.chains[b];
    assert ([Item(k, v)] + chain)[1..] == chain;
  }

  lemma HasPut<K, V>(t: Table<K, V>, hash: K -> nat, k: K, v: V, j: K)
    requires |t.chains| > 0 && Has(t, hash, k)
    ensures Has(Put(t, hash, k, v), hash, j) <==> Has(t, hash, j)
    ensures Has(t, hash, j) ==> Get(Put(t, hash, k, v), hash, j) == if j == k then v else Get(t, hash, j)
  {
    var b := Bucket(t, hash, k);
    var chain := t.chains[b];
    var p, r := FirstAt(chain, k), FirstAt(chain, j);
    FirstIs(chain[p := Item(k, v)], j, r);
  }

  /** With unique keys, the chain of a key holds it at most once. */
  lemma ChainUnique<K, V>(t: Table<K, V>, hash: K -> nat, b: nat)
    requires Valid(t, hash) && UniqueKeys(Items(t)) && b < |t.chains|
    ensures UniqueKeys(t.chains[b])
  {
    var chain := t.chains[b];
    if chain != [] {
      hide Items, Placed;
      var lo := ItemsWithChain(t, b, chain);
      forall i, j | 0 <= i < j < |chain| ensures chain[i].key != chain[j].key {
        assert Items(t)[lo..lo + |chain|][i] == Items(t)[lo + i] && Items(t)[lo..lo + |chain|][j] == Items(t)[lo + j];
      }
    }
  }

  lemma FirstAtCut<K, V>(c: seq<Item<K, V>>, p: nat, j: K)
    requires UniqueKeys(c) && p < |c|
    ensures var d := c[..p] + c[p + 1..];
            && (FirstAt(d, j) < |d| <==> j != c[p].key && FirstAt(c, j) < |c|)
            && (FirstAt(d, j) < |d| ==> d[FirstAt(d, j)] == c[FirstAt(c, j)])
  {
    var d := c[..p] + c[p + 1..];
    var r := FirstAt(c, j);
    if j == c[p].key {
      assert forall i :: 0 <= i < |d| ==> d[i] == c[if i < p then i else i + 1];
      FirstIs(d, j, |d|);
    } else {
      FirstIs(d, j, if r < p then r else r - 1);
    }
  }

  lemma HasErase<K, V>(t: Table<K, V>, hash: K -> nat, k: K, j: K)
    requires Valid(t, hash) && UniqueKeys(Items(t)) && Has(t, hash, k)
    ensures |Erase(t, hash, k).chains| == |t.chains|
    ensures Has(Erase(t, hash, k), hash, j) <==> j != k && Has(t, hash, j)
    ensures Has(Erase(t, hash, k), hash, j) ==> Get(Erase(t, hash, k), hash, j) == Get(t, hash, j)
  {
    var b := Bucket(t, hash, k);
    var p := FirstAt(t.chains[b], k);
    ChainUnique(t, hash, b);
    FirstAtCut(t.chains[b], p, j);
    hide FirstAt, Items, Placed, UsedOk;
  }

  lemma UniquePut<K, V>(t: Table<K, V>, hash: K -> nat, k: K, v: V)
    requires Valid(t, hash) && UniqueKeys(Items(t)) && Has(t, hash, k)
    ensures Valid(Put(t, hash, k, v), hash) && UniqueKeys(Items(Put(t, hash, k, v)))
  {
    hide Items, Valid, Put, Has, Get;
    var p := PutItems(t, hash, k, v);
  }

  lemma UniqueErase<K, V>(t: Table<K, V>, hash: K -> nat, k: K)
    requires Valid(t, hash) && UniqueKeys(Items(t)) && Has(t, hash, k)
    ensures Valid(Erase(t, hash, k), hash) && UniqueKeys(Items(Erase(t, hash, k)))
  {
    hide Items, Valid, Erase, Has, Get;
    var p := EraseItems(t, hash, k);
    var s := Items(t);
    var d := s[..p] + s[p + 1..];
    assert forall i :: 0 <= i < |d| ==> d[i] == s[if i < p then i else i + 1];
  }

  lemma EmptyHas<K, V>(t: Table<K, V>, hash: K -> nat, k: K)
    requires Valid(t, hash) && Items(t) == []
    ensures !Has(t, hash, k)
  {
    HasIffStored(t, hash, k);
  }

  /** The last of two updates of a key counts. */
  lemma PutPut<K, V>(t: Table<K, V>, hash: K -> nat, k: K, v: V, w: V)
    requires |t.chains| > 0 && Has(t, hash, k)
    ensures var u := Put(t, hash, k, v);
            |u.chains| > 0 && Has(u, hash, k) && Get(u, hash, k) == v && Put(u, hash, k, w) == Put(t, hash, k, w)
  {
    var b := Bucket(t, hash, k);
    var p := FirstAt(t.chains[b], k);
    HasPut(t, hash, k, v, k);
    FirstIs(t.chains[b][p := Item(k, v)], k, p);
    var c := t.chains[b][p := Item(k, v)];
    assert c[p := Item(k, w)] == t.chains[b][p := Item(k, w)];
    assert t.chains[b := c][b := c[p := Item(k, w)]] == t.chains[b := t.chains[b][p := Item(k, w)]];
  }

  lemma PutGet<K, V>(t: Table<K, V>, hash: K -> nat, k: K)
    requires |t.chains| > 0 && Has(t, hash, k)
    ensures Put(t, hash, k, Get(t, hash, k)) == t
  {
    var b := Bucket(t, hash, k);
    var p := FirstAt(t.chains[b], k);
    assert t.chains[b][p := t.chains[b][p]] == t.chains[b];
    assert t.chains[b := t.chains[b]] == t.chains;
  }

  /** Distinct elements of b are at most as many as b has. */
  lemma {:induction false} AtMost<Y>(a: seq<Y>, b: seq<Y>)
    requires NoDup(a) && forall i :: 0 <= i < |a| ==> a[i] in b
    ensures |a| <= |b|
  {
    if a != [] {
      var n := |a| - 1;
      var i: nat :| i < |b| && b[i] == a[n];
      var c := b[..i] + b[i + 1..];
      forall j | 0 <= j < n ensures a[..n][j] in c {
        assert a[j] in b && a[j] != a[n];
        var k: nat :| k < |b| && b[k] == a[j];
        assert c[if k < i then k else k - 1] == a[j];
      }
      AtMost(a[..n], c);
    }
  }

  /** Iteration visits what find returns. */
  lemma StoredIs<K, V>(t: Table<K, V>, hash: K -> nat, i: nat)
    requires Valid(t, hash) && UniqueKeys(Items(t)) && i < |Items(t)|
    ensures var x := Items(t)[i]; |t.chains| > 0 && Has(t, hash, x.key) && Get(t, hash, x.key) == x.val
  {
    hide Has, Get, Items;
    var x := Items(t)[i];
    HasIffStored(t, hash, x.key);
    var j: nat :| j < |Items(t)| && Items(t)[j] == Item(x.key, Get(t, hash, x.key));
  }

  /** A table whose entries are all entries of another one is not larger. */
  lemma Smaller<K(!new), V>(t: Table<K, V>, t': Table<K, V>, hash: K -> nat)
    requires Valid(t, hash) && Valid(t', hash) && UniqueKeys(Items(t')) && |t.chains| > 0 && |t'.chains| > 0
    requires forall k :: Has(t', hash, k) ==> Has(t, hash, k) && Get(t', hash, k) == Get(t, hash, k)
    ensures |Items(t')| <= |Items(t)|
  {
    hide Has, Get, Items, Valid;
    forall i | 0 <= i < |Items(t')| ensures Items(t')[i] in Items(t) {
      StoredIs(t', hash, i);
      HasIffStored(t, hash, Items(t')[i].key);
    }
    AtMost(Items(t'), Items(t));
  }
}
