/**
 * Cloud synchronisation: the mapping between records and rows of the hosted
 * table, the fetch, migrate and existence probes, and the last-writer-wins
 * merge of the local and cloud collections.
 *
 * The hosted table is a `CloudTable` object holding a sequence of rows; each
 * network call's success is a parameter.
 */
module StorageSync {
  import opened JsBuiltins
  import opened Types
  import opened Storage

  /** The name of the hosted table. */
  const TableName := "dating_persons"

  /** One row of the hosted table; tag columns may be null. */
  datatype Row = Row(
    id: string,
    userId: string,
    name: string,
    gender: Option<string>,
    meetChannel: Option<string>,
    relationshipStatus: Option<string>,
    positiveTags: Option<seq<string>>,
    negativeTags: Option<seq<string>>,
    personalityTags: Option<seq<string>>,
    notes: Option<string>,
    age: Option<int>,
    occupation: Option<string>,
    contactInfo: Option<string>,
    instagramAccount: Option<string>,
    rating: Option<int>,
    createdAt: Millis,
    updatedAt: Millis,
    firstDateAt: Option<string>)

  // ---------------------------------------------------------------- row mapping

  /** `firstDateAt || null`: an empty string is uploaded as null. */
  function NullIfEmpty(s: Option<string>): (r: Option<string>)
    ensures r == (if s == Some("") then None else s)
  {
    if s.Some? && s.value == "" then None else s
  }

  /** The record as the table will give it back: with an empty `firstDateAt`
      turned into an absent one. */
  function Normalize(p: Person): Person
  {
    p.(details := p.details.(firstDateAt := NullIfEmpty(p.details.firstDateAt)))
  }

  /** The upload mapping (one element of `mergedData.map(...)`). */
  function ToRow(p: Person, userId: string): Row
  {
    var d := p.details;
    Row(p.id, userId, d.name, d.gender, d.meetChannel, d.relationshipStatus,
        Some(d.positiveTags), Some(d.negativeTags), Some(d.personalityTags),
        d.notes, d.age, d.occupation, d.contactInfo, d.instagramAccount, d.rating,
        p.createdAt, p.updatedAt, NullIfEmpty(d.firstDateAt))
  }

  /** The fetch mapping: a missing tag column becomes the empty list. */
  function FromRow(r: Row): Person
  {
    Person(r.id,
           Details(r.name, r.age, r.gender, r.occupation, r.contactInfo, r.notes,
                   TagsOrEmpty(r.positiveTags), TagsOrEmpty(r.negativeTags),
                   TagsOrEmpty(r.personalityTags), r.rating, r.meetChannel,
                   r.relationshipStatus, r.instagramAccount, r.firstDateAt),
           r.createdAt, r.updatedAt)
  }

  /** Uploading a record and reading it back gives the record, except that an
      empty `firstDateAt` comes back absent. */
  lemma RowRoundTrip(p: Person, userId: string)
    ensures FromRow(ToRow(p, userId)) == Normalize(p)
    ensures p.details.firstDateAt != Some("") ==> FromRow(ToRow(p, userId)) == p
    ensures ToRow(Normalize(p), userId) == ToRow(p, userId)
  {
  }

  /** The upload rows: one per record, in order, each keeping the record's id
      and carrying the user's id, and each reading back as the record. */
  function ToRows(ps: seq<Person>, userId: string): (rows: seq<Row>)
    ensures |rows| == |ps|
    ensures forall i :: 0 <= i < |ps| ==>
              rows[i].id == ps[i].id && rows[i].userId == userId && FromRow(rows[i]) == Normalize(ps[i])
  {
    seq(|ps|, i requires 0 <= i < |ps| => ToRow(ps[i], userId))
  }

  // ---------------------------------------------------------------- the table

  /** `.eq('user_id', userId)`: the user's rows, in table order. */
  function RowsOf(rows: seq<Row>, userId: string): (r: seq<Row>)
    ensures |r| <= |rows|
    ensures forall x :: x in r <==> x in rows && x.userId == userId
  {
    if rows == [] then []
    else (if rows[0].userId == userId then [rows[0]] else []) + RowsOf(rows[1..], userId)
  }

  /** The rows of everybody else: what `.delete().eq('user_id', userId)` leaves. */
  function OtherUsersRows(rows: seq<Row>, userId: string): (r: seq<Row>)
    ensures forall x :: x in r <==> x in rows && x.userId != userId
  {
    if rows == [] then []
    else (if rows[0].userId != userId then [rows[0]] else []) + OtherUsersRows(rows[1..], userId)
  }

  lemma {:induction false} RowsOfAppend(a: seq<Row>, b: seq<Row>, userId: string)
    ensures RowsOf(a + b, userId) == RowsOf(a, userId) + RowsOf(b, userId)
  {
    if a != [] {
      assert (a + b)[1..] == a[1..] + b;
      RowsOfAppend(a[1..], b, userId);
    } else {
      assert a + b == b;
    }
  }

  lemma {:induction false} RowsOfOwn(rows: seq<Row>, userId: string)
    requires forall i :: 0 <= i < |rows| ==> rows[i].userId == userId
    ensures RowsOf(rows, userId) == rows
  {
    if rows != [] {
      RowsOfOwn(rows[1..], userId);
      assert rows == [rows[0]] + rows[1..];
    }
  }

  lemma {:induction false} RowsOfOthers(rows: seq<Row>, userId: string)
    ensures RowsOf(OtherUsersRows(rows, userId), userId) == []
  {
    if rows != [] {
      RowsOfOthers(rows[1..], userId);
      var head := if rows[0].userId != userId then [rows[0]] else [];
      RowsOfAppend(head, OtherUsersRows(rows[1..], userId), userId);
    }
  }

  /** A row of the user's puts its id among the user's ids. */
  lemma InUserIds(rows: seq<Row>, userId: string, x: Row)
    requires x in rows && x.userId == userId
    ensures x.id in UserIds(rows, userId)
  {
    var mine := RowsOf(rows, userId);
    assert x in mine;
    var i :| 0 <= i < |mine| && mine[i] == x;
    assert UserIds(rows, userId)[i] == x.id;
  }

  /** The hosted table. */
  class CloudTable {
    var rows: seq<Row>

    constructor (rows: seq<Row>)
      ensures this.rows == rows
    {
      this.rows := rows;
    }

    /** `.delete().eq('user_id', userId)`; when the call fails nothing is deleted. */
    method DeleteUserRows(userId: string, ok: bool)
      modifies this
      ensures rows == if ok then OtherUsersRows(old(rows), userId) else old(rows)
    {
      if ok {
        rows := OtherUsersRows(rows, userId);
      }
    }

    /** `.insert(newRows)`: all rows or, when the call fails, none. */
    method Insert(newRows: seq<Row>, ok: bool) returns (success: bool)
      modifies this
      ensures success == ok
      ensures rows == if ok then old(rows) + newRows else old(rows)
    {
      if ok {
        rows := rows + newRows;
      }
      success := ok;
    }

    /** `migrateLocalDataToCloud`: with no local record it reports success and
        inserts nothing; otherwise it inserts one row per local record and
        reports how the insert went. */
    method MigrateLocalDataToCloud(store: LocalStore, userId: string, insertOk: bool)
      returns (success: bool)
      modifies this
      ensures store.GetAllDatePersons() == [] ==> success && rows == old(rows)
      ensures store.GetAllDatePersons() != [] ==>
                && success == insertOk
                && rows == (if insertOk then old(rows) + ToRows(store.GetAllDatePersons(), userId) else old(rows))
    {
      var localData := store.GetAllDatePersons();
      if |localData| == 0 {
        return true;
      }
      var formattedData := ToRows(localData, userId);
      success := Insert(formattedData, insertOk);
    }
  }

  // ---------------------------------------------------------------- fetch and probe

  /** The `{ success, data }` part of `fetchCloudData`'s answer. */
  datatype Fetched = Fetched(success: bool, data: seq<Person>)

  /** `fetchCloudData`: on failure, no success and no data; on success, the
      user's rows as records, one per row, in table order. */
  function FetchCloudData(rows: seq<Row>, userId: string, reachable: bool): (r: Fetched)
    ensures !reachable ==> r == Fetched(false, [])
    ensures reachable ==> r.success && |r.data| == |RowsOf(rows, userId)|
    ensures reachable ==> forall i :: 0 <= i < |r.data| ==>
              r.data[i] == FromRow(RowsOf(rows, userId)[i]) &&
              r.data[i].id == RowsOf(rows, userId)[i].id &&
              r.data[i].createdAt == RowsOf(rows, userId)[i].createdAt &&
              r.data[i].updatedAt == RowsOf(rows, userId)[i].updatedAt &&
              (RowsOf(rows, userId)[i].positiveTags.None? ==> r.data[i].details.positiveTags == []) &&
              (RowsOf(rows, userId)[i].negativeTags.None? ==> r.data[i].details.negativeTags == []) &&
              (RowsOf(rows, userId)[i].personalityTags.None? ==> r.data[i].details.personalityTags == [])
  {
    if !reachable then Fetched(false, [])
    else
      var mine := RowsOf(rows, userId);
      Fetched(true, seq(|mine|, i requires 0 <= i < |mine| => FromRow(mine[i])))
  }

  /** The records as the table gives them back. */
  function NormalizeAll(ps: seq<Person>): (r: seq<Person>)
    ensures |r| == |ps|
    ensures Ids(r) == Ids(ps)
    ensures forall i :: 0 <= i < |ps| ==> r[i].updatedAt == ps[i].updatedAt
  {
    var r := seq(|ps|, i requires 0 <= i < |ps| => Normalize(ps[i]));
    assert Ids(r) == Ids(ps);
    r
  }

  /** Reading back what was uploaded for a user gives the uploaded records
      (with an empty `firstDateAt` turned into an absent one). */
  lemma FetchAfterUpload(ps: seq<Person>, userId: string)
    ensures FetchCloudData(ToRows(ps, userId), userId, true).data == NormalizeAll(ps)
  {
    RowsOfOwn(ToRows(ps, userId), userId);
  }

  /** The fetch sees only the user's rows. */
  lemma FetchSeesOnlyUserRows(a: seq<Row>, b: seq<Row>, userId: string)
    requires RowsOf(a, userId) == RowsOf(b, userId)
    ensures FetchCloudData(a, userId, true) == FetchCloudData(b, userId, true)
  {
  }

  /** `hasCloudData`: false on error, otherwise whether the probe (limited to
      one row) found a row of the user. */
  function HasCloudData(rows: seq<Row>, userId: string, reachable: bool): (r: bool)
    ensures r <==> reachable && exists x :: x in rows && x.userId == userId
  {
    var mine := RowsOf(rows, userId);
    var probe := mine[..if |mine| < 1 then |mine| else 1];
    assert |mine| > 0 ==> mine[0] in rows;
    reachable && |probe| > 0
  }

  // ---------------------------------------------------------------- the id map

  /** A JavaScript `Map` from id to record: the keys in insertion order and the entries. */
  datatype IdMap = IdMap(keys: seq<string>, entries: map<string, Person>)

  /** Keys listed once each, exactly the keys of the entries, and every
      entry filed under its own id. */
  predicate Valid(m: IdMap)
  {
    && Distinct(m.keys)
    && (forall k :: k in m.entries ==> k in m.keys)
    && (forall k :: k in m.keys ==> k in m.entries)
    && (forall k :: k in m.entries ==> m.entries[k].id == k)
  }

  const EmptyMap := IdMap([], map[])

  /** `dataMap.get(k)`. */
  function Get(m: IdMap, k: string): Option<Person>
  {
    if k in m.entries then Some(m.entries[k]) else None
  }

  /** `dataMap.set(k, v)`: a new key goes to the end, an existing key keeps its place. */
  function Put(m: IdMap, k: string, v: Person): (r: IdMap)
    ensures r.entries == m.entries[k := v]
  {
    if k in m.entries then IdMap(m.keys, m.entries[k := v])
    else IdMap(m.keys + [k], m.entries[k := v])
  }

  lemma PutValid(m: IdMap, v: Person)
    requires Valid(m)
    ensures Valid(Put(m, v.id, v))
    ensures Put(m, v.id, v).keys == if v.id in m.keys then m.keys else m.keys + [v.id]
  {
  }

  /** `Array.from(dataMap.values())`: the entries in key order. */
  function Values(m: IdMap): (vs: seq<Person>)
    requires Valid(m)
    ensures Ids(vs) == m.keys
    ensures forall i :: 0 <= i < |vs| ==> vs[i] == m.entries[m.keys[i]]
  {
    var vs := seq(|m.keys|, i requires 0 <= i < |m.keys| => m.entries[m.keys[i]]);
    assert Ids(vs) == m.keys;
    vs
  }

  // ---------------------------------------------------------------- the merge, as folds

  /** The map after `cloudData.forEach(item => dataMap.set(item.id, item))`. */
  function SeedFromCloud(cloud: seq<Person>): (m: IdMap)
    ensures Valid(m)
  {
    if cloud == [] then EmptyMap
    else
      var item := cloud[|cloud| - 1];
      var m := SeedFromCloud(cloud[..|cloud| - 1]);
      PutValid(m, item);
      Put(m, item.id, item)
  }

  /** One step of the local pass: the local record is stored when the id is
      not in the map yet or when it is strictly newer than the stored one. */
  function Overlay(m: IdMap, item: Person): IdMap
  {
    var cloudItem := Get(m, item.id);
    if cloudItem.None? || item.updatedAt > cloudItem.value.updatedAt then Put(m, item.id, item) else m
  }

  /** The map after the local pass over `local`. */
  function OverlayLocal(m: IdMap, local: seq<Person>): (r: IdMap)
    requires Valid(m)
    ensures Valid(r)
  {
    if local == [] then m
    else
      var item := local[|local| - 1];
      var m' := OverlayLocal(m, local[..|local| - 1]);
      PutValid(m', item);
      Overlay(m', item)
  }

  /** The merged collection `mergeLocalAndCloudData` computes. */
  function MergeSpec(cloud: seq<Person>, local: seq<Person>): seq<Person>
  {
    Values(OverlayLocal(SeedFromCloud(cloud), local))
  }

  /** The loops of `mergeLocalAndCloudData` over an id map, computing the
      merged collection. */
  method MergeById(cloudData: seq<Person>, localData: seq<Person>) returns (mergedData: seq<Person>)
    ensures mergedData == MergeSpec(cloudData, localData)
    ensures Ids(mergedData) == AppendNew(AppendNew([], Ids(cloudData)), Ids(localData))
  {
    var dataMap := EmptyMap;
    var i := 0;
    while i < |cloudData|
      invariant 0 <= i <= |cloudData|
      invariant dataMap == SeedFromCloud(cloudData[..i])
    {
      var item := cloudData[i];
      assert cloudData[..i + 1][..i] == cloudData[..i];
      dataMap := Put(dataMap, item.id, item);
      i := i + 1;
    }
    assert cloudData[..|cloudData|] == cloudData;
    var seeded := dataMap;
    var j := 0;
    while j < |localData|
      invariant 0 <= j <= |localData|
      invariant Valid(seeded)
      invariant dataMap == OverlayLocal(seeded, localData[..j])
    {
      var item := localData[j];
      assert localData[..j + 1][..j] == localData[..j];
      var cloudItem := Get(dataMap, item.id);
      if cloudItem.None? || item.updatedAt > cloudItem.value.updatedAt {
        dataMap := Put(dataMap, item.id, item);
      }
      j := j + 1;
    }
    assert localData[..|localData|] == localData;
    assert dataMap == OverlayLocal(SeedFromCloud(cloudData), localData);
    mergedData := Values(dataMap);
    MergeOrder(cloudData, localData);
  }

  // ---------------------------------------------------------------- independent descriptions

  /** `d` followed by the elements of `s` not seen before, each once, in the
      order of their first occurrence. */
  function AppendNew(d: seq<string>, s: seq<string>): seq<string>
  {
    if s == [] then d
    else
      var a := AppendNew(d, s[..|s| - 1]);
      if s[|s| - 1] in a then a else a + [s[|s| - 1]]
  }

  /** The last record in `c` with id `k`: the one a run of `set` calls leaves. */
  function LastWithId(c: seq<Person>, k: string): Option<Person>
  {
    if c == [] then None
    else if c[|c| - 1].id == k then Some(c[|c| - 1])
    else LastWithId(c[..|c| - 1], k)
  }

  /** Starting from `cur`, the record left after the records of `l` with id
      `k` are offered in turn, each one taken when nothing is held yet or
      when it is strictly newer than what is held. */
  function Newest(cur: Option<Person>, l: seq<Person>, k: string): Option<Person>
  {
    if l == [] then cur
    else
      var w := Newest(cur, l[..|l| - 1], k);
      var p := l[|l| - 1];
      if p.id == k && (w.None? || p.updatedAt > w.value.updatedAt) then Some(p) else w
  }

  lemma IdsPrefix(c: seq<Person>)
    requires c != []
    ensures Ids(c[..|c| - 1]) == Ids(c)[..|c| - 1]
    ensures Ids(c) == Ids(c[..|c| - 1]) + [c[|c| - 1].id]
  {
  }

  // ---------------------------------------------------------------- AppendNew

  lemma {:induction false} AppendNewLaws(d: seq<string>, s: seq<string>)
    ensures d <= AppendNew(d, s)
    ensures forall x :: x in AppendNew(d, s) <==> x in d || x in s
    ensures Distinct(d) ==> Distinct(AppendNew(d, s))
  {
    if s != [] {
      var s' := s[..|s| - 1];
      AppendNewLaws(d, s');
      assert s == s' + [s[|s| - 1]];
    }
  }

  /** Nothing is appended when every element is already there. */
  lemma {:induction false} AppendNewNothingNew(d: seq<string>, s: seq<string>)
    requires forall x :: x in s ==> x in d
    ensures AppendNew(d, s) == d
  {
    if s != [] {
      assert forall x :: x in s[..|s| - 1] ==> x in s;
      AppendNewNothingNew(d, s[..|s| - 1]);
      assert s[|s| - 1] in s;
    }
  }

  /** A list without repeats is its own first-occurrence order. */
  lemma {:induction false} AppendNewDistinct(s: seq<string>)
    requires Distinct(s)
    ensures AppendNew([], s) == s
  {
    if s != [] {
      var s' := s[..|s| - 1];
      AppendNewDistinct(s');
      AppendNewLaws([], s');
      assert s[|s| - 1] !in s';
      assert s == s' + [s[|s| - 1]];
    }
  }

  // ---------------------------------------------------------------- the folds, described

  lemma {:induction false} SeedKeys(c: seq<Person>)
    ensures SeedFromCloud(c).keys == AppendNew([], Ids(c))
  {
    if c != [] {
      var c' := c[..|c| - 1];
      var item := c[|c| - 1];
      SeedKeys(c');
      IdsPrefix(c);
      PutValid(SeedFromCloud(c'), item);
    }
  }

  lemma {:induction false} SeedEntry(c: seq<Person>, k: string)
    ensures Get(SeedFromCloud(c), k) == LastWithId(c, k)
  {
    if c != [] {
      SeedEntry(c[..|c| - 1], k);
    }
  }

  lemma {:induction false} OverlayKeys(m: IdMap, l: seq<Person>)
    requires Valid(m)
    ensures OverlayLocal(m, l).keys == AppendNew(m.keys, Ids(l))
  {
    if l != [] {
      var l' := l[..|l| - 1];
      var item := l[|l| - 1];
      OverlayKeys(m, l');
      IdsPrefix(l);
      PutValid(OverlayLocal(m, l'), item);
    }
  }

  lemma {:induction false} OverlayEntry(m: IdMap, l: seq<Person>, k: string)
    requires Valid(m)
    ensures Get(OverlayLocal(m, l), k) == Newest(Get(m, k), l, k)
  {
    if l != [] {
      OverlayEntry(m, l[..|l| - 1], k);
    }
  }

  // ---------------------------------------------------------------- Newest

  /** The record chosen is one of the records offered, taken whole. */
  lemma {:induction false} NewestIsOffered(cur: Option<Person>, l: seq<Person>, k: string)
    requires cur.Some? ==> cur.value.id == k
    ensures Newest(cur, l, k).Some? <==> cur.Some? || k in Ids(l)
    ensures Newest(cur, l, k).Some? ==>
              Newest(cur, l, k).value.id == k &&
              (Newest(cur, l, k) == cur || Newest(cur, l, k).value in l)
  {
    if l != [] {
      NewestIsOffered(cur, l[..|l| - 1], k);
      IdsPrefix(l);
    }
  }

  /** The record chosen is at least as new as every record offered. */
  lemma {:induction false} NewestIsNewest(cur: Option<Person>, l: seq<Person>, k: string)
    ensures cur.Some? ==> Newest(cur, l, k).Some? && cur.value.updatedAt <= Newest(cur, l, k).value.updatedAt
    ensures forall j :: 0 <= j < |l| && l[j].id == k ==>
              Newest(cur, l, k).Some? && l[j].updatedAt <= Newest(cur, l, k).value.updatedAt
  {
    if l != [] {
      NewestIsNewest(cur, l[..|l| - 1], k);
    }
  }

  /** A held record that no offered record is strictly newer than is kept. */
  lemma {:induction false} NewestKeepsUnbeaten(w: Person, l: seq<Person>, k: string)
    requires forall j :: 0 <= j < |l| && l[j].id == k ==> l[j].updatedAt <= w.updatedAt
    ensures Newest(Some(w), l, k) == Some(w)
  {
    if l != [] {
      NewestKeepsUnbeaten(w, l[..|l| - 1], k);
    }
  }

  /** With exactly one offered record with the id, it replaces the held one
      only when it is strictly newer. */
  lemma {:induction false} NewestSingle(cur: Option<Person>, l: seq<Person>, k: string, j: int)
    requires 0 <= j < |l| && l[j].id == k
    requires forall i :: 0 <= i < |l| && l[i].id == k ==> i == j
    ensures Newest(cur, l, k) ==
              if cur.None? || l[j].updatedAt > cur.value.updatedAt then Some(l[j]) else cur
  {
    var l' := l[..|l| - 1];
    if j == |l| - 1 {
      NewestNone(cur, l', k);
    } else {
      NewestSingle(cur, l', k, j);
    }
  }

  lemma {:induction false} NewestNone(cur: Option<Person>, l: seq<Person>, k: string)
    requires forall i :: 0 <= i < |l| ==> l[i].id != k
    ensures Newest(cur, l, k) == cur
  {
    if l != [] {
      NewestNone(cur, l[..|l| - 1], k);
    }
  }

  lemma {:induction false} LastWithIdDistinct(c: seq<Person>, i: int)
    requires Distinct(Ids(c)) && 0 <= i < |c|
    ensures LastWithId(c, c[i].id) == Some(c[i])
  {
    IdsPrefix(c);
    if i < |c| - 1 {
      assert Ids(c)[i] != Ids(c)[|c| - 1];
      LastWithIdDistinct(c[..|c| - 1], i);
    }
  }

  lemma {:induction false} LastWithIdIsLast(c: seq<Person>, k: string, j: int)
    requires 0 <= j < |c| && c[j].id == k
    requires forall i :: j < i < |c| ==> c[i].id != k
    ensures LastWithId(c, k) == Some(c[j])
  {
    if j < |c| - 1 {
      LastWithIdIsLast(c[..|c| - 1], k, j);
    }
  }

  lemma {:induction false} LastWithIdFound(c: seq<Person>, k: string)
    ensures LastWithId(c, k).Some? ==> LastWithId(c, k).value in c && LastWithId(c, k).value.id == k
  {
    if c != [] {
      LastWithIdFound(c[..|c| - 1], k);
    }
  }

  // ---------------------------------------------------------------- the merge, proved

  /** The merged ids: the cloud ids in first-insertion order, then the ids
      only the local collection has, in local order. */
  lemma MergeOrder(cloud: seq<Person>, local: seq<Person>)
    ensures Ids(MergeSpec(cloud, local)) == AppendNew(AppendNew([], Ids(cloud)), Ids(local))
  {
    SeedKeys(cloud);
    OverlayKeys(SeedFromCloud(cloud), local);
  }

  /** Each merged record is the last cloud record with its id, replaced by
      the local records with that id that are strictly newer. */
  lemma MergeRecords(cloud: seq<Person>, local: seq<Person>)
    ensures forall i :: 0 <= i < |MergeSpec(cloud, local)| ==>
              Some(MergeSpec(cloud, local)[i]) ==
              Newest(LastWithId(cloud, MergeSpec(cloud, local)[i].id), local, MergeSpec(cloud, local)[i].id)
  {
    var m := OverlayLocal(SeedFromCloud(cloud), local);
    var merged := MergeSpec(cloud, local);
    forall i | 0 <= i < |merged|
      ensures Some(merged[i]) == Newest(LastWithId(cloud, merged[i].id), local, merged[i].id)
    {
      var k := m.keys[i];
      assert Ids(merged)[i] == k;
      OverlayEntry(SeedFromCloud(cloud), local, k);
      SeedEntry(cloud, k);
    }
  }

  /** Every id of either collection appears in the merge, exactly once, and no other id does. */
  lemma MergeCoversIds(cloud: seq<Person>, local: seq<Person>)
    ensures Distinct(Ids(MergeSpec(cloud, local)))
    ensures forall k :: k in Ids(MergeSpec(cloud, local)) <==> k in Ids(cloud) || k in Ids(local)
    ensures AppendNew([], Ids(cloud)) <= Ids(MergeSpec(cloud, local))
  {
    MergeOrder(cloud, local);
    AppendNewLaws([], Ids(cloud));
    AppendNewLaws(AppendNew([], Ids(cloud)), Ids(local));
  }

  /** Every merged record is a cloud or a local record, taken whole. */
  lemma MergeTakesWholeRecords(cloud: seq<Person>, local: seq<Person>)
    ensures forall r :: r in MergeSpec(cloud, local) ==> r in cloud || r in local
  {
    var merged := MergeSpec(cloud, local);
    MergeRecords(cloud, local);
    forall r | r in merged ensures r in cloud || r in local {
      var i :| 0 <= i < |merged| && merged[i] == r;
      LastWithIdFound(cloud, r.id);
      NewestIsOffered(LastWithId(cloud, r.id), local, r.id);
    }
  }

  /** Last writer wins: for an id held once in each collection, the merge
      keeps the local record when it is strictly newer and the cloud record
      otherwise (ties keep the cloud record). */
  lemma MergeLastWriterWins(cloud: seq<Person>, local: seq<Person>, ci: int, li: int)
    requires 0 <= ci < |cloud| && 0 <= li < |local| && cloud[ci].id == local[li].id
    requires forall i :: 0 <= i < |cloud| && cloud[i].id == cloud[ci].id ==> i == ci
    requires forall i :: 0 <= i < |local| && local[i].id == local[li].id ==> i == li
    ensures var winner := if local[li].updatedAt > cloud[ci].updatedAt then local[li] else cloud[ci];
            winner in MergeSpec(cloud, local) &&
            forall r :: r in MergeSpec(cloud, local) && r.id == winner.id ==> r == winner
  {
    var k := cloud[ci].id;
    var merged := MergeSpec(cloud, local);
    var winner := if local[li].updatedAt > cloud[ci].updatedAt then local[li] else cloud[ci];
    LastWithIdIsLast(cloud, k, ci);
    NewestSingle(Some(cloud[ci]), local, k, li);
    MergeCoversIds(cloud, local);
    MergeRecords(cloud, local);
    IdsPrefix([cloud[ci]]);
    assert k in Ids(cloud) by { assert Ids(cloud)[ci] == k; }
    var i :| 0 <= i < |merged| && Ids(merged)[i] == k;
    assert merged[i] == winner;
    forall r | r in merged && r.id == winner.id ensures r == winner {
      var j :| 0 <= j < |merged| && merged[j] == r;
      assert Ids(merged)[j] == Ids(merged)[i];
    }
  }

  /** No local edit is lost: every local record is matched in the merge by a
      record with its id that is at least as new. */
  lemma MergeKeepsNewest(cloud: seq<Person>, local: seq<Person>, j: int)
    requires 0 <= j < |local|
    ensures exists r :: r in MergeSpec(cloud, local) && r.id == local[j].id && r.updatedAt >= local[j].updatedAt
  {
    var k := local[j].id;
    var merged := MergeSpec(cloud, local);
    MergeCoversIds(cloud, local);
    MergeRecords(cloud, local);
    assert k in Ids(local) by { assert Ids(local)[j] == k; }
    var i :| 0 <= i < |merged| && Ids(merged)[i] == k;
    NewestIsNewest(LastWithId(cloud, k), local, k);
    assert merged[i] in merged;
  }

  /** A merge whose cloud side already holds every local id, each record at
      least as new as the local ones with its id, gives back the cloud side. */
  lemma MergeAbsorbs(c: seq<Person>, local: seq<Person>)
    requires Distinct(Ids(c))
    requires forall j :: 0 <= j < |local| ==> local[j].id in Ids(c)
    requires forall i, j :: 0 <= i < |c| && 0 <= j < |local| && c[i].id == local[j].id ==>
               local[j].updatedAt <= c[i].updatedAt
    ensures MergeSpec(c, local) == c
  {
    var merged := MergeSpec(c, local);
    MergeOrder(c, local);
    AppendNewDistinct(Ids(c));
    forall x | x in Ids(local) ensures x in Ids(c) {
      var j :| 0 <= j < |local| && Ids(local)[j] == x;
    }
    AppendNewNothingNew(Ids(c), Ids(local));
    MergeRecords(c, local);
    forall i | 0 <= i < |c| ensures merged[i] == c[i] {
      assert Ids(merged)[i] == c[i].id;
      LastWithIdDistinct(c, i);
      NewestKeepsUnbeaten(c[i], local, c[i].id);
    }
  }

  /** The merge settles the local side: it holds every local id, once, each
      with a record at least as new as the local records with that id. */
  lemma MergeSettles(cloud: seq<Person>, local: seq<Person>)
    ensures var merged := MergeSpec(cloud, local);
            && Distinct(Ids(merged))
            && (forall j :: 0 <= j < |local| ==> local[j].id in Ids(merged))
            && (forall i, j :: 0 <= i < |merged| && 0 <= j < |local| && merged[i].id == local[j].id ==>
                  local[j].updatedAt <= merged[i].updatedAt)
  {
    var merged := MergeSpec(cloud, local);
    MergeCoversIds(cloud, local);
    MergeRecords(cloud, local);
    forall j | 0 <= j < |local| ensures local[j].id in Ids(merged) {
      assert Ids(local)[j] == local[j].id;
    }
    forall i, j | 0 <= i < |merged| && 0 <= j < |local| && merged[i].id == local[j].id
      ensures local[j].updatedAt <= merged[i].updatedAt
    {
      NewestIsNewest(LastWithId(cloud, merged[i].id), local, merged[i].id);
    }
  }

  /** Merging again with the same local collection changes nothing. */
  lemma MergeIdempotent(cloud: seq<Person>, local: seq<Person>)
    ensures MergeSpec(MergeSpec(cloud, local), local) == MergeSpec(cloud, local)
  {
    MergeSettles(cloud, local);
    MergeAbsorbs(MergeSpec(cloud, local), local);
  }

  /** With an empty cloud side (as after a failed fetch) the merge is the
      local collection, when its ids are distinct. */
  lemma MergeWithEmptyCloud(local: seq<Person>)
    requires Distinct(Ids(local))
    ensures MergeSpec([], local) == local
  {
    var merged := MergeSpec([], local);
    MergeOrder([], local);
    assert Ids([]) == [];
    AppendNewDistinct(Ids(local));
    MergeRecords([], local);
    forall i | 0 <= i < |local| ensures merged[i] == local[i] {
      assert Ids(merged)[i] == local[i].id;
      var k := local[i].id;
      forall x | 0 <= x < |local| && local[x].id == k ensures x == i {
        assert Ids(local)[x] == Ids(local)[i];
      }
      NewestSingle(None, local, k, i);
    }
  }

  // ---------------------------------------------------------------- mergeLocalAndCloudData

  /** The `{ success, data }` part of `mergeLocalAndCloudData`'s answer. */
  datatype MergeResult = MergeResult(success: bool, data: Option<seq<Person>>)

  /** The table after `mergeLocalAndCloudData` as written: the fetch's failure
      is ignored (the cloud side is then empty), the delete's result is not
      checked, and the merged rows are inserted. */
  function TableAfterMerge(rows: seq<Row>, local: seq<Person>, userId: string,
                           fetchOk: bool, deleteOk: bool, insertOk: bool): seq<Row>
  {
    var cloudData := FetchCloudData(rows, userId, fetchOk).data;
    var mergedData := MergeSpec(cloudData, local);
    var afterDelete := if deleteOk then OtherUsersRows(rows, userId) else rows;
    if insertOk then afterDelete + ToRows(mergedData, userId) else afterDelete
  }

  /** `mergeLocalAndCloudData`. */
  method MergeLocalAndCloudData(store: LocalStore, table: CloudTable, userId: string,
                                fetchOk: bool, deleteOk: bool, insertOk: bool)
    returns (r: MergeResult)
    modifies table
    ensures table.rows == TableAfterMerge(old(table.rows), store.GetAllDatePersons(), userId,
                                          fetchOk, deleteOk, insertOk)
    ensures r.success == insertOk
    ensures r.success ==>
              r.data == Some(MergeSpec(FetchCloudData(old(table.rows), userId, fetchOk).data, store.GetAllDatePersons()))
  {
    var localData := store.GetAllDatePersons();
    var fetched := FetchCloudData(table.rows, userId, fetchOk);
    var cloudData := fetched.data;
    var mergedData := MergeById(cloudData, localData);
    var uploadData := ToRows(mergedData, userId);
    table.DeleteUserRows(userId, deleteOk);
    var inserted := table.Insert(uploadData, insertOk);
    if !inserted {
      return MergeResult(false, None);
    }
    r := MergeResult(true, Some(mergedData));
  }

  function UserIds(rows: seq<Row>, userId: string): seq<string>
  {
    var mine := RowsOf(rows, userId);
    seq(|mine|, i requires 0 <= i < |mine| => mine[i].id)
  }

  /** After a reconciliation whose three calls succeed, the user's rows are
      exactly the merged records, one row per id. */
  lemma SuccessfulMergeTable(rows: seq<Row>, local: seq<Person>, userId: string)
    ensures var merged := MergeSpec(FetchCloudData(rows, userId, true).data, local);
            RowsOf(TableAfterMerge(rows, local, userId, true, true, true), userId) == ToRows(merged, userId)
  {
    var merged := MergeSpec(FetchCloudData(rows, userId, true).data, local);
    RowsOfAppend(OtherUsersRows(rows, userId), ToRows(merged, userId), userId);
    RowsOfOthers(rows, userId);
    RowsOfOwn(ToRows(merged, userId), userId);
  }

  /** When the delete goes through but the insert fails, the user has no rows
      left in the table, whatever the fetch did. */
  lemma FailedInsertEmptiesUser(rows: seq<Row>, local: seq<Person>, userId: string, fetchOk: bool)
    ensures RowsOf(TableAfterMerge(rows, local, userId, fetchOk, true, false), userId) == []
  {
    RowsOfOthers(rows, userId);
  }

  // ---------------------------------------------------------------- finding: the ignored fetch failure

  /** As written: when the fetch fails but the delete and insert go through,
      a record that only the cloud held is gone from the user's rows. */
  lemma FetchFailureDropsCloudOnlyRecords(rows: seq<Row>, local: seq<Person>, userId: string, x: Row)
    requires x in rows && x.userId == userId && x.id !in Ids(local)
    ensures x.id !in UserIds(TableAfterMerge(rows, local, userId, false, true, true), userId)
  {
    var merged := MergeSpec([], local);
    var after := TableAfterMerge(rows, local, userId, false, true, true);
    RowsOfAppend(OtherUsersRows(rows, userId), ToRows(merged, userId), userId);
    RowsOfOthers(rows, userId);
    RowsOfOwn(ToRows(merged, userId), userId);
    MergeCoversIds([], local);
    assert Ids([]) == [];
    var ids := UserIds(after, userId);
    forall i | 0 <= i < |ids| ensures ids[i] != x.id {
      assert ids[i] == Ids(merged)[i];
      assert Ids(merged)[i] in Ids(merged);
    }
  }

  /** Corrected: the reconciliation stops, leaving the table untouched, when
      the fetch fails. */
  function TableAfterMergeAborting(rows: seq<Row>, local: seq<Person>, userId: string,
                                   fetchOk: bool, deleteOk: bool, insertOk: bool): (r: seq<Row>)
    ensures !fetchOk ==> r == rows
  {
    if !fetchOk then rows else TableAfterMerge(rows, local, userId, true, deleteOk, insertOk)
  }

  /** Corrected `mergeLocalAndCloudData`: a failed fetch ends the
      reconciliation with no success before anything is deleted. */
  method MergeLocalAndCloudDataAborting(store: LocalStore, table: CloudTable, userId: string,
                                        fetchOk: bool, deleteOk: bool, insertOk: bool)
    returns (r: MergeResult)
    modifies table
    ensures table.rows == TableAfterMergeAborting(old(table.rows), store.GetAllDatePersons(), userId,
                                                  fetchOk, deleteOk, insertOk)
    ensures r.success == (fetchOk && insertOk)
    ensures r.success ==>
              r.data == Some(MergeSpec(FetchCloudData(old(table.rows), userId, true).data, store.GetAllDatePersons()))
  {
    if !fetchOk {
      return MergeResult(false, None);
    }
    r := MergeLocalAndCloudData(store, table, userId, fetchOk, deleteOk, insertOk);
  }

  /** A fetched row's id is among the fetched records' ids. */
  lemma FetchedIds(rows: seq<Row>, userId: string, x: Row)
    requires x in rows && x.userId == userId
    ensures x.id in Ids(FetchCloudData(rows, userId, true).data)
  {
    var mine := RowsOf(rows, userId);
    assert x in mine;
    var i :| 0 <= i < |mine| && mine[i] == x;
    assert Ids(FetchCloudData(rows, userId, true).data)[i] == x.id;
  }

  /** After a successful fetch, delete and insert, every id the user had in
      the cloud is still among the user's rows. */
  lemma SuccessfulMergeKeepsCloudIds(rows: seq<Row>, local: seq<Person>, userId: string, x: Row)
    requires x in rows && x.userId == userId
    ensures x.id in UserIds(TableAfterMerge(rows, local, userId, true, true, true), userId)
  {
    var cloudData := FetchCloudData(rows, userId, true).data;
    var merged := MergeSpec(cloudData, local);
    FetchedIds(rows, userId, x);
    MergeCoversIds(cloudData, local);
    var j :| 0 <= j < |merged| && Ids(merged)[j] == x.id;
    var row := ToRows(merged, userId)[j];
    assert row in TableAfterMerge(rows, local, userId, true, true, true);
    InUserIds(TableAfterMerge(rows, local, userId, true, true, true), userId, row);
  }

  /** With the correction, a record the cloud held stays in the user's rows
      whenever the reinsert is not the step that failed. */
  lemma AbortingKeepsCloudRecords(rows: seq<Row>, local: seq<Person>, userId: string, x: Row,
                                  fetchOk: bool, deleteOk: bool, insertOk: bool)
    requires x in rows && x.userId == userId
    requires insertOk || !deleteOk
    ensures x.id in UserIds(TableAfterMergeAborting(rows, local, userId, fetchOk, deleteOk, insertOk), userId)
  {
    var after := TableAfterMergeAborting(rows, local, userId, fetchOk, deleteOk, insertOk);
    if fetchOk && deleteOk {
      SuccessfulMergeKeepsCloudIds(rows, local, userId, x);
    } else {
      assert x in after;
      InUserIds(after, userId, x);
    }
  }

  /** Settled records still absorb the local side once the table has
      normalised them. */
  lemma AbsorbsNormalized(merged: seq<Person>, local: seq<Person>)
    requires Distinct(Ids(merged))
    requires forall j :: 0 <= j < |local| ==> local[j].id in Ids(merged)
    requires forall i, j :: 0 <= i < |merged| && 0 <= j < |local| && merged[i].id == local[j].id ==>
               local[j].updatedAt <= merged[i].updatedAt
    ensures MergeSpec(NormalizeAll(merged), local) == NormalizeAll(merged)
  {
    var n := NormalizeAll(merged);
    forall i | 0 <= i < |n| ensures n[i].id == merged[i].id {
      assert Ids(n)[i] == Ids(merged)[i];
    }
    MergeAbsorbs(n, local);
  }

  lemma ToRowsNormalizeAll(ps: seq<Person>, userId: string)
    ensures ToRows(NormalizeAll(ps), userId) == ToRows(ps, userId)
  {
    forall i | 0 <= i < |ps| ensures ToRows(NormalizeAll(ps), userId)[i] == ToRows(ps, userId)[i] {
      RowRoundTrip(ps[i], userId);
    }
  }

  /** Reconciling a second time with no local change leaves the user's rows as
      the first reconciliation left them. */
  lemma MergeTwiceIsStable(rows: seq<Row>, local: seq<Person>, userId: string)
    ensures var once := TableAfterMerge(rows, local, userId, true, true, true);
            RowsOf(TableAfterMerge(once, local, userId, true, true, true), userId) == RowsOf(once, userId)
  {
    var once := TableAfterMerge(rows, local, userId, true, true, true);
    var merged := MergeSpec(FetchCloudData(rows, userId, true).data, local);
    var uploaded := ToRows(merged, userId);
    SuccessfulMergeTable(rows, local, userId);
    RowsOfOwn(uploaded, userId);
    FetchSeesOnlyUserRows(once, uploaded, userId);
    FetchAfterUpload(merged, userId);
    MergeSettles(FetchCloudData(rows, userId, true).data, local);
    AbsorbsNormalized(merged, local);
    ToRowsNormalizeAll(merged, userId);
    SuccessfulMergeTable(once, local, userId);
  }
}
