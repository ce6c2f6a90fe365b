/**
 * The running totals the aggregators keep in a JavaScript `Map<string, number>`:
 * `map.set(k, (map.get(k) || 0) + v)` over a list of offers. A `Map` iterates
 * in insertion order, so the model keeps the keys in that order beside the totals.
 */
module Groups {
  import opened Offers

  datatype Sums = Sums(keys: seq<string>, total: map<string, real>)

  const Empty := Sums([], map[])

  /** `map.set(k, (map.get(k) || 0) + v)`: a known key keeps its place, a new one goes last. */
  function AddTo(g: Sums, k: string, v: real): Sums {
    var cur := if k in g.total then g.total[k] else 0.0;
    Sums(if k in g.total then g.keys else g.keys + [k], g.total[k := cur + v])
  }

  /** The totals after adding every offer's `vol` under its `key`, first offer first. */
  function Group(offers: seq<Offer>, key: Offer -> string, vol: Offer -> real): Sums
    decreases |offers|
  {
    if offers == [] then Empty
    else
      var last := offers[|offers| - 1];
      AddTo(Group(offers[..|offers| - 1], key, vol), key(last), vol(last))
  }

  /** Keys are listed once each, and exactly the keys of the totals are listed. */
  ghost predicate Valid(g: Sums) {
    (forall i, j :: 0 <= i < j < |g.keys| ==> g.keys[i] != g.keys[j]) &&
    (forall k :: k in g.total <==> k in g.keys)
  }

  /** `Array.from(map.entries())`. */
  function Entries(g: Sums): seq<(string, real)>
    requires forall k :: k in g.keys ==> k in g.total
  {
    seq(|g.keys|, i requires 0 <= i < |g.keys| => (g.keys[i], g.total[g.keys[i]]))
  }

  /** The sum of `vol` over all offers. */
  function SumOf(offers: seq<Offer>, vol: Offer -> real): real
    decreases |offers|
  {
    if offers == [] then 0.0 else SumOf(offers[..|offers| - 1], vol) + vol(offers[|offers| - 1])
  }

  /** The sum of `vol` over the offers whose key is `k`. */
  function BucketSum(offers: seq<Offer>, key: Offer -> string, vol: Offer -> real, k: string): real
    decreases |offers|
  {
    if offers == [] then 0.0
    else
      var last := offers[|offers| - 1];
      BucketSum(offers[..|offers| - 1], key, vol, k) + (if key(last) == k then vol(last) else 0.0)
  }

  /** The sum of the totals of the listed keys. */
  function SumKeys(keys: seq<string>, total: map<string, real>): real
    decreases |keys|
  {
    if keys == [] then 0.0
    else SumKeys(keys[..|keys| - 1], total) + (if keys[|keys| - 1] in total then total[keys[|keys| - 1]] else 0.0)
  }

  /** Each offer counts once. */
  function One(o: Offer): real { 1.0 }

  lemma AddToValid(g: Sums, k: string, v: real)
    requires Valid(g)
    ensures Valid(AddTo(g, k, v))
  {
  }

  /** The totals are well formed. */
  lemma {:induction false} GroupValid(offers: seq<Offer>, key: Offer -> string, vol: Offer -> real)
    ensures Valid(Group(offers, key, vol))
    decreases |offers|
  {
    if offers != [] {
      var last := offers[|offers| - 1];
      GroupValid(offers[..|offers| - 1], key, vol);
      AddToValid(Group(offers[..|offers| - 1], key, vol), key(last), vol(last));
    }
  }

  /** Grouping one more offer adds it to the totals of the rest. */
  lemma GroupStep(offers: seq<Offer>, o: Offer, key: Offer -> string, vol: Offer -> real)
    ensures Group(offers + [o], key, vol) == AddTo(Group(offers, key, vol), key(o), vol(o))
  {
    assert (offers + [o])[..|offers|] == offers;
  }

  /** There is a bucket for a key exactly when some offer has that key: every offer lands in one. */
  lemma {:induction false} GroupKeys(offers: seq<Offer>, key: Offer -> string, vol: Offer -> real, k: string)
    ensures k in Group(offers, key, vol).keys <==> exists i :: 0 <= i < |offers| && key(offers[i]) == k
    decreases |offers|
  {
    if offers != [] {
      var init := offers[..|offers| - 1];
      GroupKeys(init, key, vol, k);
      GroupValid(init, key, vol);
      if exists i :: 0 <= i < |init| && key(init[i]) == k {
        var i :| 0 <= i < |init| && key(init[i]) == k;
        assert offers[i] == init[i];
      }
      if exists i :: 0 <= i < |offers| && key(offers[i]) == k {
        var i :| 0 <= i < |offers| && key(offers[i]) == k;
        if i < |init| { assert init[i] == offers[i]; }
      }
    }
  }

  /** Every offer's key is listed. */
  lemma GroupHasKey(offers: seq<Offer>, key: Offer -> string, vol: Offer -> real, i: nat)
    requires i < |offers|
    ensures key(offers[i]) in Group(offers, key, vol).keys
  {
    GroupKeys(offers, key, vol, key(offers[i]));
  }

  /** Each bucket holds the sum of its offers' volumes. */
  lemma {:induction false} GroupTotals(offers: seq<Offer>, key: Offer -> string, vol: Offer -> real, k: string)
    requires k in Group(offers, key, vol).total
    ensures Group(offers, key, vol).total[k] == BucketSum(offers, key, vol, k)
    decreases |offers|
  {
    if offers != [] {
      var init := offers[..|offers| - 1];
      if k in Group(init, key, vol).total {
        GroupTotals(init, key, vol, k);
      } else {
        BucketAbsent(init, key, vol, k);
      }
    }
  }

  /** A key no offer has collects nothing. */
  lemma {:induction false} BucketAbsent(offers: seq<Offer>, key: Offer -> string, vol: Offer -> real, k: string)
    requires k !in Group(offers, key, vol).total
    ensures BucketSum(offers, key, vol, k) == 0.0
    decreases |offers|
  {
    if offers != [] {
      BucketAbsent(offers[..|offers| - 1], key, vol, k);
    }
  }

  /** Changing the total of a key that is not listed does not change the sum. */
  lemma {:induction false} SumKeysFrame(keys: seq<string>, total: map<string, real>, k: string, x: real)
    requires k !in keys
    ensures SumKeys(keys, total[k := x]) == SumKeys(keys, total)
    decreases |keys|
  {
    if keys != [] {
      SumKeysFrame(keys[..|keys| - 1], total, k, x);
    }
  }

  /** Raising the total of a key listed once raises the sum by as much. */
  lemma {:induction false} SumKeysBump(keys: seq<string>, total: map<string, real>, k: string, v: real)
    requires k in total && k in keys
    requires forall i, j :: 0 <= i < j < |keys| ==> keys[i] != keys[j]
    ensures SumKeys(keys, total[k := total[k] + v]) == SumKeys(keys, total) + v
    decreases |keys|
  {
    var init := keys[..|keys| - 1];
    if keys[|keys| - 1] == k {
      SumKeysFrame(init, total, k, total[k] + v);
    } else {
      assert k in init by {
        var i :| 0 <= i < |keys| && keys[i] == k;
        assert init[i] == k;
      }
      SumKeysBump(init, total, k, v);
    }
  }

  /** One step of `GroupSumsToTotal`: adding `v` under `k` adds `v` to the sum of the totals. */
  lemma AddToSum(g: Sums, k: string, v: real)
    requires Valid(g)
    ensures SumKeys(AddTo(g, k, v).keys, AddTo(g, k, v).total) == SumKeys(g.keys, g.total) + v
  {
    if k in g.total {
      SumKeysBump(g.keys, g.total, k, v);
    } else {
      var keys := g.keys + [k];
      assert keys[..|keys| - 1] == g.keys;
      SumKeysFrame(g.keys, g.total, k, v);
    }
  }

  /** Before any truncation, the bucket totals add up to the total volume. */
  lemma {:induction false} GroupSumsToTotal(offers: seq<Offer>, key: Offer -> string, vol: Offer -> real)
    ensures SumKeys(Group(offers, key, vol).keys, Group(offers, key, vol).total) == SumOf(offers, vol)
    decreases |offers|
  {
    if offers != [] {
      var init := offers[..|offers| - 1];
      var last := offers[|offers| - 1];
      GroupSumsToTotal(init, key, vol);
      GroupValid(init, key, vol);
      AddToSum(Group(init, key, vol), key(last), vol(last));
    }
  }

  /** The buckets and their order depend only on the keys, not on the volumes. */
  lemma {:induction false} GroupKeysOnly(offers: seq<Offer>, key: Offer -> string, vol: Offer -> real, vol2: Offer -> real)
    ensures Group(offers, key, vol).keys == Group(offers, key, vol2).keys
    ensures Group(offers, key, vol).total.Keys == Group(offers, key, vol2).total.Keys
    decreases |offers|
  {
    if offers != [] {
      GroupKeysOnly(offers[..|offers| - 1], key, vol, vol2);
    }
  }

  /** Counting every offer once gives the number of offers. */
  lemma {:induction false} CountAll(offers: seq<Offer>)
    ensures SumOf(offers, One) == |offers| as real
    decreases |offers|
  {
    if offers != [] {
      CountAll(offers[..|offers| - 1]);
    }
  }

  /** No key is listed twice. */
  ghost predicate Unique(s: seq<string>) {
    forall i, j :: 0 <= i < j < |s| ==> s[i] != s[j]
  }

  /** `Array.from(new Set(s))`: the first occurrence of each key, in order. */
  function Dedupe(s: seq<string>): seq<string>
    decreases |s|
  {
    if s == [] then []
    else
      var d := Dedupe(s[..|s| - 1]);
      if s[|s| - 1] in d then d else d + [s[|s| - 1]]
  }

  /** Each key of `s` is listed once, and nothing else is. */
  lemma {:induction false} DedupeProps(s: seq<string>)
    ensures Unique(Dedupe(s))
    ensures forall x :: x in Dedupe(s) <==> x in s
    decreases |s|
  {
    if s != [] {
      var init := s[..|s| - 1];
      DedupeProps(init);
      assert s == init + [s[|s| - 1]];
    }
  }

  /** Deduplicating keeps the deduplicated prefix in front. */
  lemma {:induction false} DedupePrefix(a: seq<string>, b: seq<string>)
    ensures |Dedupe(a)| <= |Dedupe(a + b)| && Dedupe(a + b)[..|Dedupe(a)|] == Dedupe(a)
    decreases |b|
  {
    if b == [] {
      assert a + b == a;
    } else {
      var b' := b[..|b| - 1];
      DedupePrefix(a, b');
      assert (a + b)[..|a + b| - 1] == a + b';
    }
  }

  /** A list with no repeats is its own deduplication. */
  lemma {:induction false} DedupeUnique(s: seq<string>)
    requires Unique(s)
    ensures Dedupe(s) == s
    decreases |s|
  {
    if s != [] {
      var init := s[..|s| - 1];
      DedupeUnique(init);
      assert s == init + [s[|s| - 1]];
    }
  }

  /** Listing no key that has a total sums to zero. */
  lemma {:induction false} SumKeysAbsent(keys: seq<string>, total: map<string, real>)
    requires forall k :: k in keys ==> k !in total
    ensures SumKeys(keys, total) == 0.0
    decreases |keys|
  {
    if keys != [] {
      SumKeysAbsent(keys[..|keys| - 1], total);
    }
  }

  /** Taking one listed key out lowers the sum by its total. */
  lemma {:induction false} SumKeysRemove(keys: seq<string>, total: map<string, real>, p: nat)
    requires p < |keys|
    ensures SumKeys(keys, total) ==
      SumKeys(keys[..p] + keys[p + 1..], total) + (if keys[p] in total then total[keys[p]] else 0.0)
    decreases |keys|
  {
    var init := keys[..|keys| - 1];
    if p == |keys| - 1 {
      assert keys[..p] + keys[p + 1..] == init;
    } else {
      SumKeysRemove(init, total, p);
      var w := keys[..p] + keys[p + 1..];
      assert w[..|w| - 1] == init[..p] + init[p + 1..];
      assert w[|w| - 1] == keys[|keys| - 1];
    }
  }

  /** Dropping position `p` of a list without repeats drops exactly its key. */
  lemma UniqueRemove(v: seq<string>, p: nat)
    requires Unique(v) && p < |v|
    ensures var w := v[..p] + v[p + 1..];
      Unique(w) && forall k :: k in w <==> k in v && k != v[p]
  {
    var w := v[..p] + v[p + 1..];
    forall i, j | 0 <= i < j < |w| ensures w[i] != w[j] {
      var i' := if i < p then i else i + 1;
      var j' := if j < p then j else j + 1;
      assert w[i] == v[i'] && w[j] == v[j'];
    }
    forall k ensures k in w <==> k in v && k != v[p] {
      if k in w {
        var i :| 0 <= i < |w| && w[i] == k;
        var i' := if i < p then i else i + 1;
        assert v[i'] == k && i' != p;
      }
      if k in v && k != v[p] {
        var i :| 0 <= i < |v| && v[i] == k;
        if i < p { assert w[i] == k; } else { assert w[i - 1] == k; }
      }
    }
  }

  /** Dropping the last key of a list without repeats drops exactly that key. */
  lemma UniqueInit(u: seq<string>)
    requires Unique(u) && u != []
    ensures var init := u[..|u| - 1];
      Unique(init) && forall k :: k in init <==> k in u && k != u[|u| - 1]
  {
    var init := u[..|u| - 1];
    forall k ensures k in init <==> k in u && k != u[|u| - 1] {
      if k in init {
        var i :| 0 <= i < |init| && init[i] == k;
        assert u[i] == k;
      }
      if k in u && k != u[|u| - 1] {
        var i :| 0 <= i < |u| && u[i] == k;
        assert init[i] == k;
      }
    }
  }

  /** Two lists without repeats that list the same keys with totals have the same sum. */
  lemma {:induction false} SumKeysSame(u: seq<string>, v: seq<string>, total: map<string, real>)
    requires Unique(u) && Unique(v)
    requires forall k :: k in total ==> (k in u <==> k in v)
    ensures SumKeys(u, total) == SumKeys(v, total)
    decreases |u|
  {
    if u == [] {
      SumKeysAbsent(v, total);
    } else {
      var init := u[..|u| - 1];
      var x := u[|u| - 1];
      UniqueInit(u);
      if x in v {
        var p :| 0 <= p < |v| && v[p] == x;
        SumKeysRemove(v, total, p);
        UniqueRemove(v, p);
        SumKeysSame(init, v[..p] + v[p + 1..], total);
      } else {
        SumKeysSame(init, v, total);
      }
    }
  }

  /** `for (const o of offers) map.set(key(o), (map.get(key(o)) || 0) + vol(o))`. */
  method SumBy(offers: seq<Offer>, key: Offer -> string, vol: Offer -> real) returns (g: Sums)
    ensures g == Group(offers, key, vol)
  {
    g := Empty;
    for i := 0 to |offers|
      invariant g == Group(offers[..i], key, vol)
    {
      var k := key(offers[i]);
      var cur := if k in g.total then g.total[k] else 0.0;
      g := Sums(if k in g.total then g.keys else g.keys + [k], g.total[k := cur + vol(offers[i])]);
      assert offers[..i + 1][..i] == offers[..i];
    }
    assert offers[..|offers|] == offers;
  }
}
