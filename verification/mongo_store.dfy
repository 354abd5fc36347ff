/** The document collection the listings live in, as the pipeline, the
    scheduler and the routes use it: upserts keyed on a listing's natural
    key, filtered reads and counts, multi-document updates and deletes.
    Records are kept in natural (insertion) order. */
module MongoStore {
  import opened Common
  import opened CarSchema
  import opened Sorting

  /** The collection and the next identifier it will assign. */
  datatype Collection = Collection(records: seq<Record>, nextId: nat)

  const EmptyCollection: Collection := Collection([], 0)

  /** Identifiers are unique and below `nextId`. */
  ghost predicate Valid(c: Collection) {
    && (forall i :: 0 <= i < |c.records| ==> c.records[i].id < c.nextId)
    && (forall i, j :: 0 <= i < j < |c.records| ==> c.records[i].id != c.records[j].id)
  }

  // ---------------------------------------------------------------------
  // Queries.

  /** `findById`: the record with the identifier, if any. */
  function FindById(rs: seq<Record>, id: nat): (r: Option<Record>)
    ensures r.Some? ==> r.value in rs && r.value.id == id
    ensures r.None? ==> forall i :: 0 <= i < |rs| ==> rs[i].id != id
  {
    if |rs| == 0 then None
    else if rs[0].id == id then Some(rs[0])
    else FindById(rs[1..], id)
  }

  /** `find(filter).sort({key: ±1}).limit(n)`: the `n` first matching
      records in the order asked for (ties in natural order). */
  function FindSorted(rs: seq<Record>, p: Car -> bool, key: Record -> SortKey, ascending: bool, n: nat): (r: seq<Record>)
    ensures |r| == Min(n as real, |Where(rs, p)| as real) as int
    ensures forall i :: 0 <= i < |r| ==> r[i] in rs && p(r[i].car)
    ensures SortedBy(r, key, ascending)
    ensures forall x :: x in Where(rs, p) && x !in r ==> forall i :: 0 <= i < |r| ==> InOrder(key(r[i]), key(x), ascending)
  {
    var all := Where(rs, p);
    var s := SortBy(all, key, ascending);
    var m := if n < |s| then n else |s|;
    SortedPrefix(all, s, m, key, ascending);
    s[..m]
  }

  // ---------------------------------------------------------------------
  // Upserts.

  /** The natural key an upsert matches on. */
  datatype Key = Key(make: Option<string>, model: Option<string>, year: Option<int>,
                     japanPrice: Option<real>, japanListingUrl: Option<string>)

  function KeyOf(c: Car): Key {
    Key(c.make, c.model, c.year, c.japanPrice, c.japanListingUrl)
  }

  /** The position of the first record with the key. */
  function FindByKey(rs: seq<Record>, k: Key): (i: Option<nat>)
    ensures i.Some? ==> i.value < |rs| && KeyOf(rs[i.value].car) == k
    ensures i.Some? ==> forall j :: 0 <= j < i.value ==> KeyOf(rs[j].car) != k
    ensures i.None? ==> forall j :: 0 <= j < |rs| ==> KeyOf(rs[j].car) != k
  {
    if |rs| == 0 then None
    else if KeyOf(rs[0].car) == k then Some(0)
    else
      var rest := FindByKey(rs[1..], k);
      if rest.Some? then Some(rest.value + 1) else None
  }

  /** Whether some record carries the key. */
  predicate HasKey(rs: seq<Record>, k: Key) {
    FindByKey(rs, k).Some?
  }

  /** The fields an update sets, and the update timestamp. */
  function Updated(r: Car, d: Car, now: int): Car {
    SetFields(r, d).(updatedAt := Some(now))
  }

  /** `updateOne({natural key of d}, {$set: d}, {upsert: true})`: the first
      record with the document's key gets the document's fields and a new
      update time; with no such record the document is inserted with the
      schema's defaults under a fresh identifier. */
  function UpsertOne(c: Collection, d: Car, now: int): (r: Collection)
    ensures HasKey(c.records, KeyOf(d)) ==> |r.records| == |c.records| && r.nextId == c.nextId
    ensures !HasKey(c.records, KeyOf(d)) ==>
      r.records == c.records + [Record(c.nextId, OnInsert(d, now))] && r.nextId == c.nextId + 1
  {
    var i := FindByKey(c.records, KeyOf(d));
    if i.Some? then
      var prior := c.records[i.value];
      Collection(c.records[i.value := Record(prior.id, Updated(prior.car, d, now))], c.nextId)
    else
      Collection(c.records + [Record(c.nextId, OnInsert(d, now))], c.nextId + 1)
  }

  /** When the document's key is present, the first record carrying it is
      the one updated: it keeps its identifier, its creation time and its
      activity flag unless the document sets them, takes every field the
      document sets, and gets the new update time; every other record is
      untouched and nothing is added. */
  lemma UpsertUpdatesFirstMatch(c: Collection, d: Car, now: int, i: nat)
    requires i < |c.records| && KeyOf(c.records[i].car) == KeyOf(d)
    requires forall j :: 0 <= j < i ==> KeyOf(c.records[j].car) != KeyOf(d)
    ensures var r := UpsertOne(c, d, now);
      && r.nextId == c.nextId
      && r.records == c.records[i := Record(c.records[i].id, SetFields(c.records[i].car, d).(updatedAt := Some(now)))]
      && r.records[i].car.updatedAt == Some(now)
      && (d.createdAt.None? ==> r.records[i].car.createdAt == c.records[i].car.createdAt)
      && (d.isActive.None? ==> r.records[i].car.isActive == c.records[i].car.isActive)
  {
    FirstKeyAt(c.records, KeyOf(d), i);
  }

  /** An upsert keeps identifiers unique, makes the document's key present,
      leaves the key of every record as it was, and leaves every record
      with another key untouched. */
  lemma UpsertOneProperties(c: Collection, d: Car, now: int)
    requires Valid(c)
    ensures var r := UpsertOne(c, d, now);
      && Valid(r)
      && HasKey(r.records, KeyOf(d))
      && |c.records| <= |r.records|
      && (forall i :: 0 <= i < |c.records| ==> KeyOf(r.records[i].car) == KeyOf(c.records[i].car))
      && (forall i :: 0 <= i < |c.records| ==> r.records[i].id == c.records[i].id)
      && (forall i :: 0 <= i < |c.records| && KeyOf(c.records[i].car) != KeyOf(d) ==> r.records[i] == c.records[i])
  {
    var i := FindByKey(c.records, KeyOf(d));
    if i.Some? {
      UpsertExisting(c, d, now, i.value);
    } else {
      UpsertNew(c, d, now);
    }
  }

  /** The update half of `UpsertOneProperties`. */
  lemma UpsertExisting(c: Collection, d: Car, now: int, i: nat)
    requires Valid(c) && FindByKey(c.records, KeyOf(d)) == Some(i)
    ensures var r := UpsertOne(c, d, now);
      && Valid(r)
      && HasKey(r.records, KeyOf(d))
      && |c.records| <= |r.records|
      && (forall i :: 0 <= i < |c.records| ==> KeyOf(r.records[i].car) == KeyOf(c.records[i].car))
      && (forall i :: 0 <= i < |c.records| ==> r.records[i].id == c.records[i].id)
      && (forall i :: 0 <= i < |c.records| && KeyOf(c.records[i].car) != KeyOf(d) ==> r.records[i] == c.records[i])
  {
    var r := UpsertOne(c, d, now);
    var prior := c.records[i];
    assert r.records == c.records[i := Record(prior.id, Updated(prior.car, d, now))];
    assert KeyOf(Updated(prior.car, d, now)) == KeyOf(prior.car);
    assert KeyOf(r.records[i].car) == KeyOf(d);
    assert FindByKey(r.records, KeyOf(d)).Some?;
  }

  /** The insert half of `UpsertOneProperties`. */
  lemma UpsertNew(c: Collection, d: Car, now: int)
    requires Valid(c) && FindByKey(c.records, KeyOf(d)).None?
    ensures var r := UpsertOne(c, d, now);
      && Valid(r)
      && HasKey(r.records, KeyOf(d))
      && |c.records| <= |r.records|
      && (forall i :: 0 <= i < |c.records| ==> r.records[i] == c.records[i])
  {
    var r := UpsertOne(c, d, now);
    assert r.records == c.records + [Record(c.nextId, OnInsert(d, now))];
    assert KeyOf(OnInsert(d, now)) == KeyOf(d);
    assert KeyOf(r.records[|c.records|].car) == KeyOf(d);
    assert FindByKey(r.records, KeyOf(d)).Some?;
  }

  /** Saving the same document twice at the same instant is saving it
      once (for a document that does not set the timestamps itself). */
  lemma UpsertOneIdempotent(c: Collection, d: Car, now: int)
    requires d.createdAt.None? && d.updatedAt.None?
    ensures UpsertOne(UpsertOne(c, d, now), d, now) == UpsertOne(c, d, now)
  {
    var r := UpsertOne(c, d, now);
    var i := FindByKey(c.records, KeyOf(d));
    if i.Some? {
      var prior := c.records[i.value];
      var x := Record(prior.id, Updated(prior.car, d, now));
      SetFieldsAlgebra(prior.car, d);
      assert KeyOf(x.car) == KeyOf(d);
      assert r.records == c.records[i.value := x];
      FirstKeyAt(r.records, KeyOf(d), i.value);
      assert Updated(x.car, d, now) == x.car;
    } else {
      var n := |c.records|;
      var x := Record(c.nextId, OnInsert(d, now));
      assert r.records == c.records + [x];
      assert KeyOf(x.car) == KeyOf(d);
      FirstKeyAt(r.records, KeyOf(d), n);
      assert Updated(x.car, d, now) == x.car;
    }
  }

  /** The first record with the key is the one the lookup finds. */
  lemma {:induction false} FirstKeyAt(rs: seq<Record>, k: Key, i: nat)
    requires i < |rs| && KeyOf(rs[i].car) == k
    requires forall j :: 0 <= j < i ==> KeyOf(rs[j].car) != k
    ensures FindByKey(rs, k) == Some(i)
  {
    if i > 0 {
      FirstKeyAt(rs[1..], k, i - 1);
    }
  }

  /** `bulkWrite` of one upsert per document, in order; an empty batch is
      not sent at all. */
  function UpsertAll(c: Collection, docs: seq<Car>, now: int): (r: Collection)
    ensures |docs| == 0 ==> r == c
    ensures |c.records| <= |r.records| <= |c.records| + |docs|
    decreases |docs|
  {
    if |docs| == 0 then c
    else UpsertAll(UpsertOne(c, docs[0], now), docs[1..], now)
  }

  /** After a bulk save every document's key is present, the collection
      stays valid, and no record present before changes its key or
      identifier. */
  lemma {:induction false} UpsertAllProperties(c: Collection, docs: seq<Car>, now: int)
    requires Valid(c)
    ensures var r := UpsertAll(c, docs, now);
      && Valid(r)
      && (forall j :: 0 <= j < |docs| ==> HasKey(r.records, KeyOf(docs[j])))
      && (forall i :: 0 <= i < |c.records| ==> KeyOf(r.records[i].car) == KeyOf(c.records[i].car))
      && (forall i :: 0 <= i < |c.records| ==> r.records[i].id == c.records[i].id)
    decreases |docs|
  {
    if |docs| > 0 {
      var c1 := UpsertOne(c, docs[0], now);
      UpsertOneProperties(c, docs[0], now);
      UpsertAllProperties(c1, docs[1..], now);
      var r := UpsertAll(c1, docs[1..], now);
      KeysKept(c1.records, r.records, KeyOf(docs[0]));
      forall j | 0 <= j < |docs| ensures HasKey(r.records, KeyOf(docs[j])) {
        if j > 0 {
          assert docs[j] == docs[1..][j - 1];
        }
      }
    }
  }

  /** A key present in a prefix stays present when the prefix keeps its keys. */
  lemma KeysKept(a: seq<Record>, b: seq<Record>, k: Key)
    requires |a| <= |b|
    requires forall i :: 0 <= i < |a| ==> KeyOf(b[i].car) == KeyOf(a[i].car)
    requires HasKey(a, k)
    ensures HasKey(b, k)
  {
    var i := FindByKey(a, k).value;
    assert KeyOf(b[i].car) == k;
  }

  /** Once every document's key is present, saving the batch again adds no
      record: re-scraping the same listings never duplicates them. */
  lemma {:induction false} ResaveAddsNoRecords(c: Collection, docs: seq<Car>, now: int)
    requires forall j :: 0 <= j < |docs| ==> HasKey(c.records, KeyOf(docs[j]))
    ensures |UpsertAll(c, docs, now).records| == |c.records|
    ensures UpsertAll(c, docs, now).nextId == c.nextId
    decreases |docs|
  {
    if |docs| > 0 {
      var c1 := UpsertOne(c, docs[0], now);
      assert |c1.records| == |c.records|;
      var i := FindByKey(c.records, KeyOf(docs[0])).value;
      forall j | 0 <= j < |docs[1..]| ensures HasKey(c1.records, KeyOf(docs[1..][j])) {
        assert docs[1..][j] == docs[j + 1];
        assert forall m :: 0 <= m < |c.records| ==> KeyOf(c1.records[m].car) == KeyOf(c.records[m].car) by {
          assert KeyOf(Updated(c.records[i].car, docs[0], now)) == KeyOf(c.records[i].car);
        }
        KeysKept(c.records, c1.records, KeyOf(docs[j + 1]));
      }
      ResaveAddsNoRecords(c1, docs[1..], now);
    }
  }

  // ---------------------------------------------------------------------
  // Multi-document updates and deletes.

  /** `updateMany(filter, {$set: {isActive: false}})`, which also stamps
      the update time of each matched record. */
  function Deactivate(rs: seq<Record>, p: Car -> bool, now: int): (r: seq<Record>)
    ensures |r| == |rs|
    ensures forall i :: 0 <= i < |rs| ==> r[i].id == rs[i].id
    ensures forall i :: 0 <= i < |rs| && p(rs[i].car) ==>
      r[i].car == rs[i].car.(isActive := Some(false), updatedAt := Some(now))
    ensures forall i :: 0 <= i < |rs| && !p(rs[i].car) ==> r[i] == rs[i]
  {
    seq(|rs|, i requires 0 <= i < |rs| =>
      if p(rs[i].car) then Record(rs[i].id, rs[i].car.(isActive := Some(false), updatedAt := Some(now)))
      else rs[i])
  }

  /** `deleteMany(filter)`: exactly the records that do not match remain,
      one fewer for every match; with no match nothing changes. */
  function DeleteWhere(rs: seq<Record>, p: Car -> bool): (r: seq<Record>)
    ensures forall x :: x in r <==> x in rs && !p(x.car)
    ensures |r| == |rs| - Count(rs, p)
    ensures (forall i :: 0 <= i < |rs| ==> !p(rs[i].car)) ==> r == rs
  {
    var keep := Negate(p);
    CountComplement(rs, p, keep);
    CountIsWhereLength(rs, keep);
    if forall i :: 0 <= i < |rs| ==> !p(rs[i].car) then
      AllMatch(rs, keep);
      Where(rs, keep)
    else
      Where(rs, keep)
  }

  /** The records that remain after `deleteMany` keep their natural order. */
  lemma DeleteKeepsOrder(rs: seq<Record>, p: Car -> bool) returns (ix: seq<nat>)
    ensures Positions(rs, Negate(p), DeleteWhere(rs, p), ix)
  {
    ix := WhereKeepsOrder(rs, Negate(p));
  }

  /** `findByIdAndUpdate(id, fields)`: the record with the identifier gets
      the fields and a new update time; nothing else changes. */
  function UpdateById(rs: seq<Record>, id: nat, fields: Car, now: int): (r: seq<Record>)
    ensures |r| == |rs|
    ensures forall i :: 0 <= i < |rs| ==> r[i].id == rs[i].id
    ensures forall i :: 0 <= i < |rs| && rs[i].id != id ==> r[i] == rs[i]
    ensures forall i :: 0 <= i < |rs| && rs[i].id == id ==> r[i].car == Updated(rs[i].car, fields, now)
  {
    seq(|rs|, i requires 0 <= i < |rs| =>
      if rs[i].id == id then Record(id, Updated(rs[i].car, fields, now)) else rs[i])
  }
}
