/**
 * The meaning of the `$group` / `$project` pipeline of
 * `aggregate_and_upsert`: one bucket per distinct
 * (campaignId, creativeId, adgroupId, geo, time) key, holding the sum,
 * minimum and maximum of the prices and the number of records.
 */
module Aggregation {
  import opened JsonValue
  import opened Normalization

  /** The `_id` of a group: the five key fields of a record. */
  datatype GroupKey = GroupKey(campaignId: Json, creativeId: Json, adgroupId: Json, geo: Json, time: int)

  /** `totalPrice` ($sum of price), `minPrice` ($min), `maxPrice` ($max), `totalCount` ($sum of 1). */
  datatype Bucket = Bucket(totalPrice: real, minPrice: real, maxPrice: real, totalCount: nat)

  function KeyOf(r: WinRecord): GroupKey {
    GroupKey(r.campaignId, r.creativeId, r.adgroupId, r.geo, r.time)
  }

  function Min(a: real, b: real): real { if a <= b then a else b }
  function Max(a: real, b: real): real { if a >= b then a else b }

  /** The bucket of a group's first record, and the bucket after one more record. */
  function Single(price: real): Bucket { Bucket(price, price, price, 1) }
  function Add(b: Bucket, price: real): (r: Bucket)
    ensures r.totalCount == b.totalCount + 1 && r.totalPrice == b.totalPrice + price
    ensures r.minPrice <= price <= r.maxPrice
    ensures r.minPrice <= b.minPrice && r.maxPrice >= b.maxPrice
    ensures r.minPrice in {b.minPrice, price} && r.maxPrice in {b.maxPrice, price}
  {
    Bucket(b.totalPrice + price, Min(b.minPrice, price), Max(b.maxPrice, price), b.totalCount + 1)
  }

  /** The keys that occur in `rs`. */
  ghost function KeysOf(rs: seq<WinRecord>): set<GroupKey> {
    set i | 0 <= i < |rs| :: KeyOf(rs[i])
  }

  /** The `$group` stage over the whole raw collection, folding records in order. */
  function Aggregate(rs: seq<WinRecord>): (m: map<GroupKey, Bucket>)
    ensures m.Keys == KeysOf(rs)
    decreases |rs|
  {
    if rs == [] then map[]
    else
      var prev := Aggregate(rs[..|rs| - 1]);
      var r := rs[|rs| - 1];
      var k := KeyOf(r);
      assert KeysOf(rs) == KeysOf(rs[..|rs| - 1]) + {k} by {
        forall j | 0 <= j < |rs| - 1 ensures rs[..|rs| - 1][j] == rs[j] { }
      }
      prev[k := if k in prev then Add(prev[k], r.price) else Single(r.price)]
  }

  /** Reference definition: the prices of the records with key `k`, in order. */
  function PricesOf(rs: seq<WinRecord>, k: GroupKey): seq<real>
    decreases |rs|
  {
    if rs == [] then []
    else
      var rest := PricesOf(rs[..|rs| - 1], k);
      if KeyOf(rs[|rs| - 1]) == k then rest + [rs[|rs| - 1].price] else rest
  }

  function Sum(ps: seq<real>): real
    decreases |ps|
  {
    if ps == [] then 0.0 else Sum(ps[..|ps| - 1]) + ps[|ps| - 1]
  }

  lemma SumSnoc(ps: seq<real>, p: real)
    ensures Sum(ps + [p]) == Sum(ps) + p
  {
    assert (ps + [p])[..|ps|] == ps;
  }

  /**
   * Each bucket summarises exactly the prices of the records with its key:
   * a key has a bucket iff some record has it, `totalCount` counts those
   * records, `totalPrice` is their sum, and `minPrice`/`maxPrice` are the
   * smallest and largest of them.
   */
  lemma {:induction false} BucketSummarisesGroup(rs: seq<WinRecord>, k: GroupKey)
    ensures k in Aggregate(rs) <==> PricesOf(rs, k) != []
    ensures k in Aggregate(rs) ==>
              var b, ps := Aggregate(rs)[k], PricesOf(rs, k);
              && b.totalCount == |ps|
              && b.totalPrice == Sum(ps)
              && b.minPrice in ps
              && b.maxPrice in ps
              && (forall i :: 0 <= i < |ps| ==> b.minPrice <= ps[i] <= b.maxPrice)
    decreases |rs|
  {
    if rs != [] {
      var front, r := rs[..|rs| - 1], rs[|rs| - 1];
      BucketSummarisesGroup(front, k);
      if KeyOf(r) == k {
        var ps := PricesOf(front, k);
        SumSnoc(ps, r.price);
        assert PricesOf(rs, k) == ps + [r.price];
        if k in Aggregate(front) {
          var b := Aggregate(front)[k];
          assert Aggregate(rs)[k] == Add(b, r.price);
          forall i | 0 <= i < |ps| + 1
            ensures Min(b.minPrice, r.price) <= (ps + [r.price])[i] <= Max(b.maxPrice, r.price)
          {
            if i < |ps| { assert (ps + [r.price])[i] == ps[i]; }
          }
        } else {
          assert ps == [];
          assert Sum([r.price]) == Sum([]) + r.price;
        }
      }
    }
  }

  /** Summing the buckets' counts over a set of keys. */
  ghost function CountOver(m: map<GroupKey, Bucket>, ks: set<GroupKey>): nat
    requires ks <= m.Keys
    decreases ks
  {
    if ks == {} then 0
    else
      var k :| k in ks;
      m[k].totalCount + CountOver(m, ks - {k})
  }

  /** The sum does not depend on which key is taken first. */
  lemma {:induction false} CountOverRemove(m: map<GroupKey, Bucket>, ks: set<GroupKey>, k: GroupKey)
    requires ks <= m.Keys && k in ks
    ensures CountOver(m, ks) == m[k].totalCount + CountOver(m, ks - {k})
    decreases ks
  {
    var j :| j in ks && CountOver(m, ks) == m[j].totalCount + CountOver(m, ks - {j});
    if j != k {
      CountOverRemove(m, ks - {j}, k);
      CountOverRemove(m, ks - {k}, j);
      assert ks - {j} - {k} == ks - {k} - {j};
    }
  }

  /** Maps that agree on `ks` have the same sum over `ks`. */
  lemma {:induction false} CountOverAgree(m1: map<GroupKey, Bucket>, m2: map<GroupKey, Bucket>, ks: set<GroupKey>)
    requires ks <= m1.Keys && ks <= m2.Keys
    requires forall k :: k in ks ==> m1[k].totalCount == m2[k].totalCount
    ensures CountOver(m1, ks) == CountOver(m2, ks)
    decreases ks
  {
    if ks != {} {
      var k :| k in ks;
      CountOverRemove(m1, ks, k);
      CountOverRemove(m2, ks, k);
      CountOverAgree(m1, m2, ks - {k});
    }
  }

  /** Every record is counted in exactly one bucket: the counts add up to the number of records. */
  lemma {:induction false} CountsAddUp(rs: seq<WinRecord>)
    ensures CountOver(Aggregate(rs), Aggregate(rs).Keys) == |rs|
    decreases |rs|
  {
    if rs != [] {
      var front, r := rs[..|rs| - 1], rs[|rs| - 1];
      var prev, m, k := Aggregate(front), Aggregate(rs), KeyOf(r);
      CountsAddUp(front);
      if k in prev {
        assert m.Keys == prev.Keys;
        CountOverRemove(m, m.Keys, k);
        CountOverRemove(prev, prev.Keys, k);
        CountOverAgree(m, prev, prev.Keys - {k});
      } else {
        assert m.Keys - {k} == prev.Keys;
        CountOverRemove(m, m.Keys, k);
        CountOverAgree(m, prev, prev.Keys);
      }
    }
  }

  /** Two records share a key and a third has its own: prices 10 and 30 in one bucket, 5 in the other. */
  lemma TwoGroupsExample(r1: WinRecord, r2: WinRecord, r3: WinRecord)
    requires KeyOf(r1) == KeyOf(r2) && KeyOf(r3) != KeyOf(r1)
    requires r1.price == 10.0 && r2.price == 30.0 && r3.price == 5.0
    ensures Aggregate([r1, r2, r3]) ==
              map[KeyOf(r1) := Bucket(40.0, 10.0, 30.0, 2), KeyOf(r3) := Bucket(5.0, 5.0, 5.0, 1)]
  {
    var k, k3 := KeyOf(r1), KeyOf(r3);
    assert [r1][..0] == [];
    assert Aggregate([r1]) == map[k := Single(10.0)];
    assert [r1, r2][..1] == [r1];
    assert Aggregate([r1, r2]) == map[k := Bucket(40.0, 10.0, 30.0, 2)];
    assert [r1, r2, r3][..2] == [r1, r2];
  }
}
