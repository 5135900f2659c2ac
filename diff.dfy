/**
 * The dataset differ: compares the stored plate dataset with a freshly
 * extracted one and reports, structurally, the keys that appeared, the keys
 * that disappeared and the field values that changed under a common key.
 */
module Diff {
  import opened Extract

  /** The identity of a plate: the pair (地名, 都道府県). */
  datatype Key = Key(name: string, prefecture: string)

  function KeyOf(r: Record): Key {
    Key(r.name, r.prefecture)
  }

  /** The set of keys occurring in a dataset. */
  function Keys(ds: seq<Record>): set<Key> {
    set r | r in ds :: KeyOf(r)
  }

  /** Position of the first record with key `k`, as a row filter followed by `iloc[0]` selects it. */
  function FirstIndex(ds: seq<Record>, k: Key): (i: nat)
    requires k in Keys(ds)
    ensures i < |ds| && KeyOf(ds[i]) == k
    ensures forall j :: 0 <= j < i ==> KeyOf(ds[j]) != k
  {
    if KeyOf(ds[0]) == k then 0
    else
      assert k in Keys(ds[1..]) by {
        var r :| r in ds && KeyOf(r) == k;
        assert r != ds[0];
        assert r in ds[1..];
      }
      1 + FirstIndex(ds[1..], k)
  }

  function First(ds: seq<Record>, k: Key): Record
    requires k in Keys(ds)
  {
    ds[FirstIndex(ds, k)]
  }

  /** The three compared columns: 運輸支局, 自動車検査登録事務所名, 読み仮名. */
  datatype Field = BureauField | OfficeField | ReadingField

  function FieldValue(r: Record, f: Field): string {
    match f
    case BureauField => r.bureau
    case OfficeField => r.office
    case ReadingField => r.reading
  }

  const ComparedFields: seq<Field> := [BureauField, OfficeField, ReadingField]

  /** One changed value: under `key`, column `field` went from `before` to `after`. */
  datatype Modification = Modification(key: Key, field: Field, before: string, after: string)

  /** The report: a creation summary carrying a count, or the three parts of a difference. */
  datatype Report =
    | Creation(count: nat)
    | Delta(added: set<Key>, removed: set<Key>, modified: set<Modification>)
  {
    /** A report with no line in it. */
    predicate IsEmpty() {
      Delta? && added == {} && removed == {} && modified == {}
    }
  }

  /** The modifications between two records filed under `k`, one per differing field. */
  function FieldChanges(k: Key, x: Record, y: Record): set<Modification> {
    set f | f in ComparedFields && FieldValue(x, f) != FieldValue(y, f)
      :: Modification(k, f, FieldValue(x, f), FieldValue(y, f))
  }

  /** The modifications contributed by the common keys in `ks`. */
  function Modifications(e: seq<Record>, n: seq<Record>, ks: set<Key>): set<Modification>
    requires ks <= Keys(e) * Keys(n)
  {
    set k, f | k in ks && f in ComparedFields && FieldValue(First(e, k), f) != FieldValue(First(n, k), f)
      :: Modification(k, f, FieldValue(First(e, k), f), FieldValue(First(n, k), f))
  }

  /**
   * What `compare_data(e, n)` returns: nothing when `n` is empty, a creation
   * summary when `e` is empty, and otherwise the added keys, the removed
   * keys and the modifications of the common keys, with the flag saying
   * whether that report has anything in it.
   */
  function Compare(e: seq<Record>, n: seq<Record>): (bool, Report) {
    if |n| == 0 then (false, Delta({}, {}, {}))
    else if |e| == 0 then (true, Creation(|n|))
    else
      var common := Keys(e) * Keys(n);
      var report := Delta(Keys(n) - Keys(e), Keys(e) - Keys(n), Modifications(e, n, common));
      (!report.IsEmpty(), report)
  }

  // ---------------------------------------------------------------------------
  // The imperative differ

  /** The inner loop over the three columns for one common key. */
  method CompareRecords(k: Key, existingRecord: Record, newRecord: Record) returns (changes: set<Modification>)
    ensures changes == FieldChanges(k, existingRecord, newRecord)
  {
    changes := {};
    for c := 0 to |ComparedFields|
      invariant changes == set f | f in ComparedFields[..c] && FieldValue(existingRecord, f) != FieldValue(newRecord, f)
        :: Modification(k, f, FieldValue(existingRecord, f), FieldValue(newRecord, f))
    {
      var col := ComparedFields[c];
      var before, after := FieldValue(existingRecord, col), FieldValue(newRecord, col);
      if before != after {
        changes := changes + {Modification(k, col, before, after)};
      }
      assert ComparedFields[..c + 1] == ComparedFields[..c] + [col];
    }
    assert ComparedFields[..|ComparedFields|] == ComparedFields;
  }

  /** Membership in `Modifications`, field by field. */
  lemma ModificationsMember(e: seq<Record>, n: seq<Record>, ks: set<Key>, m: Modification)
    requires ks <= Keys(e) * Keys(n)
    ensures m in Modifications(e, n, ks) <==>
      && m.key in ks && m.field in ComparedFields
      && m.before == FieldValue(First(e, m.key), m.field)
      && m.after == FieldValue(First(n, m.key), m.field)
      && m.before != m.after
  {
    if m.key in ks && m.field in ComparedFields
      && m.before == FieldValue(First(e, m.key), m.field)
      && m.after == FieldValue(First(n, m.key), m.field)
      && m.before != m.after
    {
      assert m == Modification(m.key, m.field, FieldValue(First(e, m.key), m.field), FieldValue(First(n, m.key), m.field));
    }
  }

  /** Membership in `FieldChanges`, field by field. */
  lemma FieldChangesMember(k: Key, x: Record, y: Record, m: Modification)
    ensures m in FieldChanges(k, x, y) <==>
      && m.key == k && m.field in ComparedFields
      && m.before == FieldValue(x, m.field) && m.after == FieldValue(y, m.field)
      && m.before != m.after
  {
    if m.key == k && m.field in ComparedFields
      && m.before == FieldValue(x, m.field) && m.after == FieldValue(y, m.field)
      && m.before != m.after
    {
      assert m == Modification(k, m.field, FieldValue(x, m.field), FieldValue(y, m.field));
    }
  }

  /** Adding one more common key to those already visited adds that key's field changes. */
  lemma ModificationsInsert(e: seq<Record>, n: seq<Record>, done: set<Key>, k: Key)
    requires done <= Keys(e) * Keys(n) && k in Keys(e) * Keys(n)
    ensures Modifications(e, n, done + {k}) == Modifications(e, n, done) + FieldChanges(k, First(e, k), First(n, k))
  {
    forall m
      ensures m in Modifications(e, n, done + {k})
        <==> m in Modifications(e, n, done) + FieldChanges(k, First(e, k), First(n, k))
    {
      ModificationsMember(e, n, done + {k}, m);
      ModificationsMember(e, n, done, m);
      FieldChangesMember(k, First(e, k), First(n, k), m);
    }
  }

  /**
   * `compare_data`: the two short-circuits first, then the key sets, then a
   * walk over the common keys in an unspecified order comparing the first
   * record with that key on each side.
   */
  method CompareData(existing: seq<Record>, newData: seq<Record>) returns (changed: bool, report: Report)
    ensures (changed, report) == Compare(existing, newData)
  {
    if |newData| == 0 {
      return false, Delta({}, {}, {});
    }
    if |existing| == 0 {
      return true, Creation(|newData|);
    }
    var existingPlates := Keys(existing);
    var newPlates := Keys(newData);
    var addedPlates := newPlates - existingPlates;
    var removedPlates := existingPlates - newPlates;
    var commonPlates := existingPlates * newPlates;
    var modified: set<Modification> := {};
    var pending := commonPlates;
    while pending != {}
      invariant pending <= commonPlates
      invariant modified == Modifications(existing, newData, commonPlates - pending)
      decreases pending
    {
      var k :| k in pending;
      var existingRecord := existing[FirstIndex(existing, k)];
      var newRecord := newData[FirstIndex(newData, k)];
      var changes := CompareRecords(k, existingRecord, newRecord);
      ModificationsInsert(existing, newData, commonPlates - pending, k);
      assert commonPlates - (pending - {k}) == (commonPlates - pending) + {k};
      modified := modified + changes;
      pending := pending - {k};
    }
    assert commonPlates - pending == commonPlates;
    report := Delta(addedPlates, removedPlates, modified);
    changed := addedPlates != {} || removedPlates != {} || modified != {};
  }

  // ---------------------------------------------------------------------------
  // Properties of the differ

  /** An empty new dataset reports nothing; an empty stored one reports a creation of all new records. */
  lemma CompareShortCircuits(e: seq<Record>, n: seq<Record>)
    ensures |n| == 0 ==> Compare(e, n) == (false, Delta({}, {}, {}))
    ensures |n| > 0 && |e| == 0 ==> Compare(e, n) == (true, Creation(|n|))
  {
  }

  /** The flag is set exactly when the report has something in it. */
  lemma ChangedIffNonEmpty(e: seq<Record>, n: seq<Record>)
    ensures Compare(e, n).0 <==> !Compare(e, n).1.IsEmpty()
  {
  }

  /**
   * Added and removed keys are the keys on one side only; they are disjoint
   * from each other and from the common keys, and the three together are
   * exactly the keys of both datasets.
   */
  lemma KeyPartition(e: seq<Record>, n: seq<Record>)
    requires |e| > 0 && |n| > 0
    ensures var r := Compare(e, n).1;
      var common := Keys(e) * Keys(n);
      && r.Delta?
      && (forall k :: k in r.added <==> k in Keys(n) && k !in Keys(e))
      && (forall k :: k in r.removed <==> k in Keys(e) && k !in Keys(n))
      && r.added * r.removed == {} && r.added * common == {} && r.removed * common == {}
      && r.added + r.removed + common == Keys(e) + Keys(n)
  {
  }

  /**
   * A modification is reported exactly for a common key and a compared
   * field whose values differ between the first record with that key on
   * each side, with the old and the new value.
   */
  lemma ModificationsCharacterized(e: seq<Record>, n: seq<Record>, m: Modification)
    requires |e| > 0 && |n| > 0
    ensures m in Compare(e, n).1.modified <==>
      && m.key in Keys(e) && m.key in Keys(n)
      && m.before == FieldValue(First(e, m.key), m.field)
      && m.after == FieldValue(First(n, m.key), m.field)
      && m.before != m.after
  {
    ModificationsMember(e, n, Keys(e) * Keys(n), m);
    assert m.field in ComparedFields by {
      match m.field
      case BureauField => assert ComparedFields[0] == BureauField;
      case OfficeField => assert ComparedFields[1] == OfficeField;
      case ReadingField => assert ComparedFields[2] == ReadingField;
    }
  }

  /** At most one modification is reported per key and field. */
  lemma OneModificationPerField(e: seq<Record>, n: seq<Record>, m1: Modification, m2: Modification)
    requires |e| > 0 && |n| > 0
    requires m1 in Compare(e, n).1.modified && m2 in Compare(e, n).1.modified
    requires m1.key == m2.key && m1.field == m2.field
    ensures m1 == m2
  {
    ModificationsCharacterized(e, n, m1);
    ModificationsCharacterized(e, n, m2);
  }

  /** Comparing a non-empty dataset with itself reports no change. */
  lemma CompareSelf(d: seq<Record>)
    requires |d| > 0
    ensures Compare(d, d) == (false, Delta({}, {}, {}))
  {
    assert Modifications(d, d, Keys(d) * Keys(d)) == {};
  }

  lemma {:induction false} FirstIndexAppend(ds: seq<Record>, x: Record, k: Key)
    requires k in Keys(ds)
    ensures k in Keys(ds + [x]) && FirstIndex(ds + [x], k) == FirstIndex(ds, k)
  {
    var r :| r in ds && KeyOf(r) == k;
    assert r in ds + [x];
    if KeyOf(ds[0]) != k {
      assert (ds + [x])[1..] == ds[1..] + [x];
      FirstIndexAppend(ds[1..], x, k);
    }
  }

  lemma KeysAppend(ds: seq<Record>, x: Record)
    ensures Keys(ds + [x]) == Keys(ds) + {KeyOf(x)}
  {
    assert forall r :: r in ds + [x] <==> r in ds || r == x;
  }

  /**
   * Appending a record whose key the new dataset already has changes
   * nothing: only the first record with each key is compared.
   */
  lemma FirstNewRecordOnly(e: seq<Record>, n: seq<Record>, x: Record)
    requires |e| > 0 && KeyOf(x) in Keys(n)
    ensures Compare(e, n + [x]) == Compare(e, n)
  {
    KeysAppend(n, x);
    assert Keys(n + [x]) == Keys(n);
    forall k | k in Keys(n)
      ensures First(n + [x], k) == First(n, k)
    {
      FirstIndexAppend(n, x, k);
      assert (n + [x])[FirstIndex(n, k)] == n[FirstIndex(n, k)];
    }
    assert Modifications(e, n + [x], Keys(e) * Keys(n)) == Modifications(e, n, Keys(e) * Keys(n));
  }

  /** The same for the stored dataset: a later duplicate of an existing key is ignored. */
  lemma FirstExistingRecordOnly(e: seq<Record>, n: seq<Record>, x: Record)
    requires KeyOf(x) in Keys(e)
    ensures Compare(e + [x], n) == Compare(e, n)
  {
    KeysAppend(e, x);
    assert Keys(e + [x]) == Keys(e);
    forall k | k in Keys(e)
      ensures First(e + [x], k) == First(e, k)
    {
      FirstIndexAppend(e, x, k);
      assert (e + [x])[FirstIndex(e, k)] == e[FirstIndex(e, k)];
    }
    assert Modifications(e + [x], n, Keys(e) * Keys(n)) == Modifications(e, n, Keys(e) * Keys(n));
  }

  /**
   * One record on each side with the same key, differing only in the
   * reading, gives exactly one modification of the reading.
   */
  lemma SingleReadingChange(x: Record, y: Record)
    requires KeyOf(x) == KeyOf(y) && x.bureau == y.bureau && x.office == y.office && x.reading != y.reading
    ensures Compare([x], [y]) == (true, Delta({}, {}, {Modification(KeyOf(x), ReadingField, x.reading, y.reading)}))
  {
    var k := KeyOf(x);
    assert Keys([x]) == {k} && Keys([y]) == {k};
    assert First([x], k) == x && First([y], k) == y;
    var m := Modification(k, ReadingField, x.reading, y.reading);
    forall m' ensures m' in Modifications([x], [y], {k}) <==> m' == m {
      ModificationsMember([x], [y], {k}, m');
      assert ComparedFields == [BureauField, OfficeField, ReadingField];
    }
    assert Keys([x]) * Keys([y]) == {k};
    assert Modifications([x], [y], {k}) == {m};
    assert Keys([y]) - Keys([x]) == {} && Keys([x]) - Keys([y]) == {};
    assert !Delta({}, {}, {m}).IsEmpty();
  }

  /** A new key on the new side alone is reported as added and nothing else. */
  lemma SingleAddition(d: seq<Record>, x: Record)
    requires |d| > 0 && KeyOf(x) !in Keys(d)
    ensures Compare(d, d + [x]) == (true, Delta({KeyOf(x)}, {}, {}))
  {
    KeysAppend(d, x);
    forall k | k in Keys(d)
      ensures First(d + [x], k) == First(d, k)
    {
      FirstIndexAppend(d, x, k);
      assert (d + [x])[FirstIndex(d, k)] == d[FirstIndex(d, k)];
    }
    assert Keys(d) * Keys(d + [x]) == Keys(d);
    forall m ensures m !in Modifications(d, d + [x], Keys(d)) {
      ModificationsMember(d, d + [x], Keys(d), m);
    }
    assert Modifications(d, d + [x], Keys(d)) == {};
    assert Keys(d + [x]) - Keys(d) == {KeyOf(x)} && Keys(d) - Keys(d + [x]) == {};
    assert !Delta({KeyOf(x)}, {}, {}).IsEmpty();
  }
}
