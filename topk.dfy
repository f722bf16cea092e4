/**
 * The bounded top-K selection behind vector search: a min-heap of at most `limit` scored
 * items, pushed one at a time, whose smallest item is popped whenever it grows past the
 * limit. The heap is modelled as a sequence kept in descending score order, so a push is a
 * sorted insertion and a pop drops the last item; what is proved is the selection property
 * the heap guarantees whatever the order in which the candidates arrive.
 */
module TopK {

  /** A candidate: the table key it came from, the item and its similarity score. */
  datatype Scored<T> = Scored(key: string, item: T, score: real)

  predicate SortedDesc<T>(h: seq<Scored<T>>) {
    forall i, j :: 0 <= i < j < |h| ==> h[i].score >= h[j].score
  }

  function KeySet<T>(h: seq<Scored<T>>): set<string> {
    set i | 0 <= i < |h| :: h[i].key
  }

  predicate DistinctKeys<T>(h: seq<Scored<T>>) {
    forall i, j :: 0 <= i < j < |h| ==> h[i].key != h[j].key
  }

  /** Where a push puts `c`: after every item scoring at least as much. */
  function InsertPos<T>(h: seq<Scored<T>>, c: Scored<T>): (p: nat)
    ensures p <= |h|
    ensures forall i :: 0 <= i < p ==> h[i].score >= c.score
    ensures p < |h| ==> h[p].score < c.score
  {
    if h == [] || c.score > h[0].score then 0 else 1 + InsertPos(h[1..], c)
  }

  /** `heap.push(c)`. */
  function Push<T>(h: seq<Scored<T>>, c: Scored<T>): (r: seq<Scored<T>>)
    ensures |r| == |h| + 1
  {
    var p := InsertPos(h, c);
    h[..p] + [c] + h[p..]
  }

  /** `push`, then `pop` of the smallest once past the limit. */
  function Offer<T>(h: seq<Scored<T>>, c: Scored<T>, limit: nat): seq<Scored<T>> {
    var r := Push(h, c);
    if |r| > limit then r[..|r| - 1] else r
  }

  /**
   * `IsTopK(h, pool, limit)`: `h` lists, best first and without repeating a key, the
   * candidates of `pool` it keeps; it keeps `limit` of them, or all when there are fewer;
   * and no candidate it leaves out scores more than any it keeps.
   */
  ghost predicate IsTopK<T>(h: seq<Scored<T>>, pool: map<string, Scored<T>>, limit: nat) {
    && SortedDesc(h)
    && DistinctKeys(h)
    && (forall i :: 0 <= i < |h| ==> h[i].key in pool && pool[h[i].key] == h[i])
    && |h| <= limit
    && (|h| < limit ==> KeySet(h) == pool.Keys)
    && (forall k :: k in pool && k !in KeySet(h) ==> forall i :: 0 <= i < |h| ==> pool[k].score <= h[i].score)
  }

  lemma EmptyIsTopK<T>(limit: nat)
    ensures IsTopK<T>([], map[], limit)
  {
  }

  /** The items of a push, by position. */
  lemma PushElems<T>(h: seq<Scored<T>>, c: Scored<T>)
    ensures var p := InsertPos(h, c); var r := Push(h, c);
      && r[p] == c
      && (forall i :: 0 <= i < p ==> r[i] == h[i])
      && (forall i :: p < i < |r| ==> r[i] == h[i - 1])
  {
  }

  lemma PushSorted<T>(h: seq<Scored<T>>, c: Scored<T>)
    requires SortedDesc(h)
    ensures SortedDesc(Push(h, c))
  {
    var p := InsertPos(h, c);
    var r := Push(h, c);
    PushElems(h, c);
    forall i, j | 0 <= i < j < |r| ensures r[i].score >= r[j].score {
      if j < p {
        assert r[i] == h[i] && r[j] == h[j];
      } else if i > p {
        assert r[i] == h[i - 1] && r[j] == h[j - 1];
      } else if i == p {
        assert r[j] == h[j - 1];
        if p < |h| { assert h[p].score >= h[j - 1].score; }
      } else {
        assert r[i] == h[i];
      }
    }
  }

  lemma PushKeys<T>(h: seq<Scored<T>>, c: Scored<T>)
    ensures KeySet(Push(h, c)) == KeySet(h) + {c.key}
  {
    var p := InsertPos(h, c);
    var r := Push(h, c);
    PushElems(h, c);
    forall k | k in KeySet(r) ensures k in KeySet(h) + {c.key} {
      var i :| 0 <= i < |r| && r[i].key == k;
      if i < p { assert h[i].key == k; } else if i > p { assert h[i - 1].key == k; }
    }
    forall k | k in KeySet(h) + {c.key} ensures k in KeySet(r) {
      if k == c.key {
        assert r[p].key == k;
      } else {
        var i :| 0 <= i < |h| && h[i].key == k;
        if i < p { assert r[i].key == k; } else { assert r[i + 1].key == k; }
      }
    }
  }

  /** A push keeps the keys distinct when the new key is not held yet. */
  lemma PushDistinct<T>(h: seq<Scored<T>>, c: Scored<T>)
    requires DistinctKeys(h) && c.key !in KeySet(h)
    ensures DistinctKeys(Push(h, c))
  {
    PushElems(h, c);
    var p := InsertPos(h, c);
    var r := Push(h, c);
    forall i, j | 0 <= i < j < |r| ensures r[i].key != r[j].key {
      if i == p {
        assert r[j] == h[j - 1];
      } else if j == p {
        assert r[i] == h[i];
      } else {
        var i' := if i < p then i else i - 1;
        var j' := if j < p then j else j - 1;
        assert r[i] == h[i'] && r[j] == h[j'] && i' < j';
      }
    }
  }

  /**
   * One step of the search loop, `push` then `pop` past the limit, keeps the selection
   * property while the pool grows by one fresh candidate.
   */
  lemma OfferKeepsTopK<T>(h: seq<Scored<T>>, pool: map<string, Scored<T>>, c: Scored<T>, limit: nat)
    requires IsTopK(h, pool, limit) && c.key !in pool
    ensures IsTopK(Offer(h, c, limit), pool[c.key := c], limit)
  {
    var r := Push(h, c);
    var pool' := pool[c.key := c];
    PushElems(h, c);
    PushSorted(h, c);
    PushKeys(h, c);
    PushDistinct(h, c);
    var p := InsertPos(h, c);
    assert forall i :: 0 <= i < |r| ==> r[i].key in pool' && pool'[r[i].key] == r[i] by {
      forall i | 0 <= i < |r| ensures r[i].key in pool' && pool'[r[i].key] == r[i] {
        if i < p { assert r[i] == h[i]; } else if i > p { assert r[i] == h[i - 1]; }
      }
    }
    if |r| > limit {
      DropLastKeepsTopK(h, pool, c, limit, r, p);
    } else {
      assert KeySet(h) == pool.Keys;
      assert KeySet(r) == pool'.Keys;
    }
  }

  lemma DropLastKeepsTopK<T>(h: seq<Scored<T>>, pool: map<string, Scored<T>>, c: Scored<T>, limit: nat,
                             r: seq<Scored<T>>, p: nat)
    requires IsTopK(h, pool, limit) && c.key !in pool
    requires |r| == |h| + 1 && |r| > limit && p < |r|
    requires SortedDesc(r) && DistinctKeys(r) && KeySet(r) == KeySet(h) + {c.key}
    requires forall i :: 0 <= i < |r| ==> r[i].key in pool[c.key := c] && pool[c.key := c][r[i].key] == r[i]
    requires r[p] == c && (forall i :: 0 <= i < p ==> r[i] == h[i]) && (forall i :: p < i < |r| ==> r[i] == h[i - 1])
    ensures IsTopK(r[..|r| - 1], pool[c.key := c], limit)
  {
    var d := r[..|r| - 1];
    DropKeys(r);
    assert forall i :: 0 <= i < |d| ==> d[i] == r[i];
    assert SortedDesc(d) && DistinctKeys(d);
    DroppedScoreLess(h, pool, c, limit, r, p, d);
  }

  /** Dropping the last of distinct keys removes just its key. */
  lemma DropKeys<T>(r: seq<Scored<T>>)
    requires DistinctKeys(r) && r != []
    ensures KeySet(r[..|r| - 1]) == KeySet(r) - {r[|r| - 1].key}
  {
    var d := r[..|r| - 1];
    forall k | k in KeySet(r) - {r[|r| - 1].key} ensures k in KeySet(d) {
      var i :| 0 <= i < |r| && r[i].key == k;
      assert d[i] == r[i];
    }
    forall k | k in KeySet(d) ensures k in KeySet(r) - {r[|r| - 1].key} {
      var i :| 0 <= i < |d| && d[i].key == k;
      assert r[i] == d[i];
    }
  }

  /** After the pop, everything left out scores no more than anything kept. */
  lemma DroppedScoreLess<T>(h: seq<Scored<T>>, pool: map<string, Scored<T>>, c: Scored<T>, limit: nat,
                            r: seq<Scored<T>>, p: nat, d: seq<Scored<T>>)
    requires IsTopK(h, pool, limit) && c.key !in pool
    requires |r| == |h| + 1 && |r| > limit && p < |r| && d == r[..|r| - 1]
    requires SortedDesc(r)
    requires KeySet(d) == KeySet(h) + {c.key} - {r[|r| - 1].key}
    requires forall i :: 0 <= i < |r| ==> r[i].key in pool[c.key := c] && pool[c.key := c][r[i].key] == r[i]
    requires r[p] == c && (forall i :: 0 <= i < p ==> r[i] == h[i]) && (forall i :: p < i < |r| ==> r[i] == h[i - 1])
    ensures forall k :: k in pool[c.key := c] && k !in KeySet(d) ==>
      forall i :: 0 <= i < |d| ==> pool[c.key := c][k].score <= d[i].score
  {
    var pool' := pool[c.key := c];
    var last := r[|r| - 1];
    forall k, i | k in pool' && k !in KeySet(d) && 0 <= i < |d| ensures pool'[k].score <= d[i].score {
      assert d[i] == r[i];
      if k == last.key {
        assert pool'[k] == last;
      } else {
        assert k in pool && k !in KeySet(h);
        if p == |r| - 1 {
          assert r[i] == h[i];
        } else {
          assert last == h[|r| - 2];
          assert pool[k].score <= last.score;
          assert r[i].score >= last.score;
        }
      }
    }
  }

  /** A list of distinct keys has as many keys as items. */
  lemma {:induction false} DistinctCard<T>(h: seq<Scored<T>>)
    requires DistinctKeys(h)
    ensures |KeySet(h)| == |h|
    decreases |h|
  {
    if h != [] {
      var t := h[1..];
      assert DistinctKeys(t) by {
        forall i, j | 0 <= i < j < |t| ensures t[i].key != t[j].key {
          assert t[i] == h[i + 1] && t[j] == h[j + 1];
        }
      }
      DistinctCard(t);
      assert KeySet(h) == KeySet(t) + {h[0].key} by {
        forall k | k in KeySet(h) ensures k in KeySet(t) + {h[0].key} {
          var i :| 0 <= i < |h| && h[i].key == k;
          if i > 0 { assert t[i - 1] == h[i]; }
        }
        forall k | k in KeySet(t) ensures k in KeySet(h) {
          var i :| 0 <= i < |t| && t[i].key == k;
          assert h[i + 1] == t[i];
        }
      }
      assert h[0].key !in KeySet(t) by {
        forall i | 0 <= i < |t| ensures t[i].key != h[0].key {
          assert t[i] == h[i + 1];
        }
      }
    }
  }

  lemma SubsetCard(a: set<string>, b: set<string>)
    requires a <= b
    ensures |a| <= |b|
  {
    assert b == a + (b - a);
  }

  /** The selection keeps exactly `min(limit, |pool|)` candidates. */
  lemma TopKSize<T>(h: seq<Scored<T>>, pool: map<string, Scored<T>>, limit: nat)
    requires IsTopK(h, pool, limit)
    ensures |h| == if limit <= |pool| then limit else |pool|
  {
    DistinctCard(h);
    assert KeySet(h) <= pool.Keys;
    SubsetCard(KeySet(h), pool.Keys);
  }

  // ------------------------------------------------------- the loop over a table

  /** A pool keys each candidate by its own key. */
  ghost predicate Keyed<T>(pool: map<string, Scored<T>>) {
    forall k :: k in pool ==> pool[k].key == k
  }

  /** The candidates among the keys visited so far. */
  ghost function Restrict<T>(pool: map<string, Scored<T>>, keys: set<string>): map<string, Scored<T>> {
    map k | k in pool && k in keys :: pool[k]
  }

  /**
   * One step of a loop over the table's keys: visiting `key` offers its candidate, if it
   * has one, and keeps the selection property over the keys visited.
   */
  lemma ScanStep<T>(h: seq<Scored<T>>, pool: map<string, Scored<T>>, done: set<string>, key: string, limit: nat)
    requires Keyed(pool) && key !in done && IsTopK(h, Restrict(pool, done), limit)
    ensures key in pool ==> IsTopK(Offer(h, pool[key], limit), Restrict(pool, done + {key}), limit)
    ensures key !in pool ==> IsTopK(h, Restrict(pool, done + {key}), limit)
  {
    if key in pool {
      assert Restrict(pool, done + {key}) == Restrict(pool, done)[key := pool[key]];
      OfferKeepsTopK(h, Restrict(pool, done), pool[key], limit);
    } else {
      assert Restrict(pool, done + {key}) == Restrict(pool, done);
    }
  }

  lemma RestrictAll<T>(pool: map<string, Scored<T>>, keys: set<string>)
    requires pool.Keys <= keys
    ensures Restrict(pool, keys) == pool
  {
  }

  /** The keys of a visiting order, and that it visits each key once. */
  function Elems(keys: seq<string>): set<string> {
    set i | 0 <= i < |keys| :: keys[i]
  }

  predicate Once(keys: seq<string>) {
    forall i, j :: 0 <= i < j < |keys| ==> keys[i] != keys[j]
  }

  lemma ElemsSnoc(keys: seq<string>, key: string)
    ensures Elems(keys + [key]) == Elems(keys) + {key}
  {
    var r := keys + [key];
    assert forall i :: 0 <= i < |keys| ==> r[i] == keys[i] && keys[i] in Elems(keys);
    assert r[|keys|] == key;
    assert Elems(r) == Elems(keys) + {key} by {
      forall k | k in Elems(r) ensures k in Elems(keys) + {key} {
        var i :| 0 <= i < |r| && r[i] == k;
        if i < |keys| {
          assert k == keys[i];
        }
      }
    }
  }

  lemma Visit(keys: seq<string>, key: string)
    requires Once(keys) && key !in Elems(keys)
    ensures Once(keys + [key]) && Elems(keys + [key]) == Elems(keys) + {key}
  {
    ElemsSnoc(keys, key);
    var r := keys + [key];
    assert forall i :: 0 <= i < |keys| ==> r[i] == keys[i] && keys[i] in Elems(keys);
  }

  /**
   * The heap after a scan that visits `keys` in this order, offering the candidate of each
   * key that has one.
   */
  ghost function Scan<T>(pool: map<string, Scored<T>>, keys: seq<string>, limit: nat): seq<Scored<T>>
    decreases |keys|
  {
    if keys == [] then []
    else
      var h := Scan(pool, keys[..|keys| - 1], limit);
      var key := keys[|keys| - 1];
      if key in pool then Offer(h, pool[key], limit) else h
  }

  lemma ScanSnoc<T>(pool: map<string, Scored<T>>, keys: seq<string>, key: string, limit: nat)
    ensures Scan(pool, keys + [key], limit) ==
      if key in pool then Offer(Scan(pool, keys, limit), pool[key], limit) else Scan(pool, keys, limit)
  {
    assert (keys + [key])[..|keys|] == keys;
  }

  /** Whatever the visiting order, a scan that visits each key once selects the top `limit`. */
  lemma {:induction false} ScanIsTopK<T>(pool: map<string, Scored<T>>, keys: seq<string>, limit: nat)
    requires Keyed(pool) && Once(keys)
    ensures IsTopK(Scan(pool, keys, limit), Restrict(pool, Elems(keys)), limit)
    decreases |keys|
  {
    if keys == [] {
      assert Restrict(pool, Elems(keys)) == map[];
      EmptyIsTopK<T>(limit);
    } else {
      var init, key := keys[..|keys| - 1], keys[|keys| - 1];
      assert keys == init + [key];
      assert Once(init) by {
        assert forall i :: 0 <= i < |init| ==> init[i] == keys[i];
      }
      assert key !in Elems(init) by {
        assert forall i :: 0 <= i < |init| ==> init[i] == keys[i];
      }
      Visit(init, key);
      ScanIsTopK(pool, init, limit);
      ScanStep(Scan(pool, init, limit), pool, Elems(init), key, limit);
      ScanSnoc(pool, init, key, limit);
    }
  }

  /** The visited candidates are among all candidates. */
  lemma RestrictCard<T>(pool: map<string, Scored<T>>, keys: set<string>)
    ensures |Restrict(pool, keys)| <= |pool|
  {
    assert Restrict(pool, keys).Keys <= pool.Keys;
    SubsetCard(Restrict(pool, keys).Keys, pool.Keys);
  }

  /** While the limit exceeds the pool, an offer keeps everything: nothing is dropped. */
  lemma OfferUnderLimit<T>(h: seq<Scored<T>>, pool: map<string, Scored<T>>, c: Scored<T>, limit: nat)
    requires IsTopK(h, pool, limit) && |pool| < limit
    ensures Offer(h, c, limit) == Push(h, c)
  {
    TopKSize(h, pool, limit);
    PushElems(h, c);
  }

  /**
   * The keys of a table in the order an iteration over it visits them, which the model
   * leaves open: each key once, and no other.
   */
  method TableKeys<V>(table: map<string, V>) returns (keys: seq<string>)
    ensures Elems(keys) == table.Keys && Once(keys)
  {
    keys := [];
    var remaining := table.Keys;
    while remaining != {}
      invariant Elems(keys) + remaining == table.Keys && Elems(keys) !! remaining && Once(keys)
      decreases |remaining|
    {
      var key :| key in remaining;
      Visit(keys, key);
      keys := keys + [key];
      remaining := remaining - {key};
    }
  }

  /** Keys visited once each are as many as the visits. */
  lemma {:induction false} OnceCard(keys: seq<string>)
    requires Once(keys)
    ensures |Elems(keys)| == |keys|
    decreases |keys|
  {
    if keys != [] {
      var init, key := keys[..|keys| - 1], keys[|keys| - 1];
      assert keys == init + [key];
      assert forall i :: 0 <= i < |init| ==> init[i] == keys[i];
      OnceCard(init);
      Visit(init, key);
    }
  }

  lemma PrefixSnoc(keys: seq<string>, i: nat)
    requires i < |keys|
    ensures keys[..i + 1] == keys[..i] + [keys[i]]
  {
  }

  lemma OncePrefix(keys: seq<string>, n: nat)
    requires Once(keys) && n <= |keys|
    ensures Once(keys[..n])
  {
  }

  /** Cutting a complete descending list to its first `k` items selects the top `k`. */
  lemma TruncateTopK<T>(h: seq<Scored<T>>, pool: map<string, Scored<T>>, limit: nat, k: nat)
    requires IsTopK(h, pool, limit) && |pool| < limit
    ensures IsTopK(h[..if k <= |h| then k else |h|], pool, k)
  {
    TopKSize(h, pool, limit);
    var n := if k <= |h| then k else |h|;
    PrefixTopK(h, pool, n, h[..n], k);
  }

  lemma PrefixTopK<T>(h: seq<Scored<T>>, pool: map<string, Scored<T>>, n: nat, t: seq<Scored<T>>, k: nat)
    requires SortedDesc(h) && DistinctKeys(h) && KeySet(h) == pool.Keys
    requires forall i :: 0 <= i < |h| ==> pool[h[i].key] == h[i]
    requires n <= |h| && n <= k && (n < k ==> n == |h|) && t == h[..n]
    ensures IsTopK(t, pool, k)
  {
    assert forall i :: 0 <= i < n ==> t[i] == h[i];
    forall x | x in pool && x !in KeySet(t)
      ensures forall i :: 0 <= i < |t| ==> pool[x].score <= t[i].score
    {
      var j :| 0 <= j < |h| && h[j].key == x;
    }
    if n < k {
      assert t == h;
    }
  }
}
