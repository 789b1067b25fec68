/**
 * The local record store: one array of records persisted under a single
 * localStorage key, with add, update, delete and lookup.
 */
module Storage {
  import opened JsBuiltins
  import opened Types

  /** The key the array is stored under. */
  const StorageKey := "dating-memo-data"

  /** The message of the error raised when persisting fails. */
  const SaveFailed := "保存數據失敗"

  /** What `localStorage.getItem(STORAGE_KEY)` yields: nothing (or the empty
      string), text that does not parse as an array of records, or the array. */
  datatype Slot = Missing | Unparsable | Stored(persons: seq<Person>)

  /** How one attempt to persist goes: `setItem` succeeds and the read-back
      finds the text; `setItem` throws (quota exceeded, storage blocked); or
      `setItem` returns but the read-back finds nothing. */
  datatype WriteOutcome = Written | SetItemThrew | ReadBackEmpty

  /** A call that either returns a value or throws an `Error` with a message. */
  datatype Thrown<T> = Returned(value: T) | Threw(message: string)

  // ---------------------------------------------------------------- collections

  function Ids(ps: seq<Person>): seq<string>
  {
    seq(|ps|, i requires 0 <= i < |ps| => ps[i].id)
  }

  /** `i` is the first index holding a record with this id. */
  predicate FirstWithId(ps: seq<Person>, id: string, i: int)
  {
    0 <= i < |ps| && ps[i].id == id && forall j :: 0 <= j < i ==> ps[j].id != id
  }

  /** `persons.findIndex(p => p.id === id)`, with `None` for -1. */
  function FindIndex(ps: seq<Person>, id: string): (r: Option<nat>)
    ensures r.Some? ==> FirstWithId(ps, id, r.value)
    ensures r.None? <==> id !in Ids(ps)
  {
    if ps == [] then None
    else
      assert Ids(ps) == [ps[0].id] + Ids(ps[1..]);
      if ps[0].id == id then Some(0)
      else match FindIndex(ps[1..], id)
      case Some(k) => Some(k + 1)
      case None => None
  }

  /** `persons.filter(p => p.id !== id)`: drops every record with the id and
      keeps the others; the length is unchanged exactly when none had it. */
  function RemoveId(ps: seq<Person>, id: string): (r: seq<Person>)
    ensures |r| <= |ps|
    ensures id !in Ids(r)
    ensures forall p :: p in r <==> p in ps && p.id != id
    ensures |r| == |ps| <==> id !in Ids(ps)
    ensures id !in Ids(ps) ==> r == ps
  {
    if ps == [] then []
    else
      assert Ids(ps) == [ps[0].id] + Ids(ps[1..]);
      var rest := RemoveId(ps[1..], id);
      if ps[0].id == id then rest
      else
        assert Ids([ps[0]] + rest) == [ps[0].id] + Ids(rest);
        [ps[0]] + rest
  }

  /** How many records carry the id. */
  function CountId(ps: seq<Person>, id: string): nat
  {
    if ps == [] then 0
    else CountId(ps[..|ps| - 1], id) + (if ps[|ps| - 1].id == id then 1 else 0)
  }

  lemma {:induction false} CountAbsent(ps: seq<Person>, id: string)
    requires id !in Ids(ps)
    ensures CountId(ps, id) == 0
  {
    if ps != [] {
      assert Ids(ps[..|ps| - 1]) == Ids(ps)[..|ps| - 1];
      assert Ids(ps)[|ps| - 1] == ps[|ps| - 1].id;
      CountAbsent(ps[..|ps| - 1], id);
    }
  }

  // ---------------------------------------------------------------- partial update

  /** `Partial<...>`: a field is `Some` exactly when its key is present in the
      object spread over the record (possibly with the value `undefined`). */
  datatype Patch = Patch(
    name: Option<string>,
    age: Option<Option<int>>,
    gender: Option<Option<string>>,
    occupation: Option<Option<string>>,
    contactInfo: Option<Option<string>>,
    notes: Option<Option<string>>,
    positiveTags: Option<seq<string>>,
    negativeTags: Option<seq<string>>,
    personalityTags: Option<seq<string>>,
    rating: Option<Option<int>>,
    meetChannel: Option<Option<string>>,
    relationshipStatus: Option<Option<string>>,
    instagramAccount: Option<Option<string>>,
    firstDateAt: Option<Option<string>>)

  function Pick<T>(given: Option<T>, kept: T): T
  {
    if given.Some? then given.value else kept
  }

  /** `{ ...old, ...patch }` on the descriptive fields. */
  function ApplyPatch(d: Details, p: Patch): Details
  {
    Details(
      Pick(p.name, d.name), Pick(p.age, d.age), Pick(p.gender, d.gender),
      Pick(p.occupation, d.occupation), Pick(p.contactInfo, d.contactInfo), Pick(p.notes, d.notes),
      Pick(p.positiveTags, d.positiveTags), Pick(p.negativeTags, d.negativeTags),
      Pick(p.personalityTags, d.personalityTags), Pick(p.rating, d.rating),
      Pick(p.meetChannel, d.meetChannel), Pick(p.relationshipStatus, d.relationshipStatus),
      Pick(p.instagramAccount, d.instagramAccount), Pick(p.firstDateAt, d.firstDateAt))
  }

  /** The patch with no key: spreading it changes nothing. */
  const NoChange := Patch(None, None, None, None, None, None, None, None, None, None, None, None, None, None)

  /** The patch that sets every field. */
  function Overwrite(e: Details): Patch
  {
    Patch(Some(e.name), Some(e.age), Some(e.gender), Some(e.occupation), Some(e.contactInfo),
          Some(e.notes), Some(e.positiveTags), Some(e.negativeTags), Some(e.personalityTags),
          Some(e.rating), Some(e.meetChannel), Some(e.relationshipStatus), Some(e.instagramAccount),
          Some(e.firstDateAt))
  }

  /** Spreading keeps the fields the patch leaves out, takes every field it
      gives, and spreading the same patch twice is the same as once. */
  lemma PatchLaws(d: Details, e: Details, p: Patch)
    ensures ApplyPatch(d, NoChange) == d
    ensures ApplyPatch(d, Overwrite(e)) == e
    ensures ApplyPatch(ApplyPatch(d, p), p) == ApplyPatch(d, p)
  {
  }

  /** Field by field: a field the patch gives takes the patch's value, any
      other field keeps the record's. */
  lemma PatchFields(d: Details, p: Patch)
    ensures ApplyPatch(d, p).name == if p.name.Some? then p.name.value else d.name
    ensures ApplyPatch(d, p).age == if p.age.Some? then p.age.value else d.age
    ensures ApplyPatch(d, p).gender == if p.gender.Some? then p.gender.value else d.gender
    ensures ApplyPatch(d, p).occupation == if p.occupation.Some? then p.occupation.value else d.occupation
    ensures ApplyPatch(d, p).contactInfo == if p.contactInfo.Some? then p.contactInfo.value else d.contactInfo
    ensures ApplyPatch(d, p).notes == if p.notes.Some? then p.notes.value else d.notes
    ensures ApplyPatch(d, p).positiveTags == if p.positiveTags.Some? then p.positiveTags.value else d.positiveTags
    ensures ApplyPatch(d, p).negativeTags == if p.negativeTags.Some? then p.negativeTags.value else d.negativeTags
    ensures ApplyPatch(d, p).personalityTags == if p.personalityTags.Some? then p.personalityTags.value else d.personalityTags
    ensures ApplyPatch(d, p).rating == if p.rating.Some? then p.rating.value else d.rating
    ensures ApplyPatch(d, p).meetChannel == if p.meetChannel.Some? then p.meetChannel.value else d.meetChannel
    ensures ApplyPatch(d, p).relationshipStatus == if p.relationshipStatus.Some? then p.relationshipStatus.value else d.relationshipStatus
    ensures ApplyPatch(d, p).instagramAccount == if p.instagramAccount.Some? then p.instagramAccount.value else d.instagramAccount
    ensures ApplyPatch(d, p).firstDateAt == if p.firstDateAt.Some? then p.firstDateAt.value else d.firstDateAt
  {
  }

  // ---------------------------------------------------------------- the store

  /** The browser's localStorage as far as this store uses it: whether it can
      be used at all, and what sits under the store's key. */
  class LocalStore {
    var available: bool
    var slot: Slot

    constructor (available: bool, slot: Slot)
      ensures this.available == available && this.slot == slot
    {
      this.available := available;
      this.slot := slot;
    }

    /** `getAllDatePersons`: never fails; it yields the stored array, or the
        empty array when storage is unavailable, the key is missing or the
        text does not parse. */
    function GetAllDatePersons(): (r: seq<Person>)
      reads this
      ensures available && slot.Stored? ==> r == slot.persons
      ensures r != [] ==> available && slot == Stored(r)
      ensures !available || slot.Missing? || slot.Unparsable? ==> r == []
    {
      if !available then []
      else match slot
        case Stored(ps) => ps
        case _ => []
    }

    /** `getDatePerson`: the first record with the id, or `None` when there is none. */
    function GetDatePerson(id: string): (r: Option<Person>)
      reads this
      ensures r.None? <==> id !in Ids(GetAllDatePersons())
      ensures r.Some? ==> exists i :: FirstWithId(GetAllDatePersons(), id, i) && GetAllDatePersons()[i] == r.value
    {
      var all := GetAllDatePersons();
      match FindIndex(all, id)
      case Some(i) => Some(all[i])
      case None => None
    }

    /** `saveDatePersons`: write the array and read it back. It reports
        success only when storage is available and both steps succeed. */
    method SaveDatePersons(persons: seq<Person>, outcome: WriteOutcome) returns (saved: bool)
      modifies this
      ensures available == old(available)
      ensures saved <==> available && outcome == Written
      ensures saved ==> slot == Stored(persons) && GetAllDatePersons() == persons
      ensures !saved ==> slot == (if available && outcome == ReadBackEmpty then Missing else old(slot))
    {
      if !available {
        return false;
      }
      match outcome
      case SetItemThrew =>
        saved := false;
      case ReadBackEmpty =>
        slot := Missing;
        saved := false;
      case Written =>
        slot := Stored(persons);
        saved := true;
    }

    /** `addDatePerson`: append a record with a fresh id whose two timestamps
        are both `now`; the records already stored are kept as they were.
        `freshId` stands for `uuidv4()`, distinct from every stored id. */
    method AddDatePerson(details: Details, now: Millis, freshId: string, outcome: WriteOutcome)
      returns (r: Thrown<Person>)
      requires freshId !in Ids(GetAllDatePersons())
      modifies this
      ensures available == old(available)
      ensures r.Returned? <==> available && outcome == Written
      ensures r.Returned? ==> && r.value == Person(freshId, details, now, now)
                              && r.value.createdAt == r.value.updatedAt
                              && GetAllDatePersons() == old(GetAllDatePersons()) + [r.value]
                              && CountId(GetAllDatePersons(), freshId) == 1
      ensures r.Threw? ==> r.message == SaveFailed
      ensures r.Threw? ==> slot == old(slot) || (outcome == ReadBackEmpty && slot == Missing)
    {
      var newPerson := Person(freshId, details, now, now);
      var all := GetAllDatePersons();
      var updated := all + [newPerson];
      var saved := SaveDatePersons(updated, outcome);
      if !saved {
        return Threw(SaveFailed);
      }
      CountAbsent(all, freshId);
      assert updated[..|updated| - 1] == all;
      r := Returned(newPerson);
    }

    /** `updateDatePerson`: on an absent id, report "not found" and write
        nothing; otherwise spread the patch over the first record with the id,
        set its `updatedAt` to `now`, and replace that one index. */
    method UpdateDatePerson(id: string, patch: Patch, now: Millis, outcome: WriteOutcome)
      returns (r: Thrown<Option<Person>>)
      modifies this
      ensures available == old(available)
      ensures r == Returned(None) <==> id !in Ids(old(GetAllDatePersons()))
      ensures id !in Ids(old(GetAllDatePersons())) ==> slot == old(slot)
      ensures id in Ids(old(GetAllDatePersons())) ==>
                var all := old(GetAllDatePersons());
                var i := FindIndex(all, id).value;
                var updated := Person(id, ApplyPatch(all[i].details, patch), all[i].createdAt, now);
                && (r.Returned? <==> outcome == Written)
                && (r.Returned? ==> r.value == Some(updated) && GetAllDatePersons() == all[i := updated])
                && (r.Threw? ==> r.message == SaveFailed)
                && (r.Threw? ==> slot == old(slot) || (outcome == ReadBackEmpty && slot == Missing))
    {
      var all := GetAllDatePersons();
      var found := FindIndex(all, id);
      if found.None? {
        return Returned(None);
      }
      var i := found.value;
      var updatedPerson := Person(all[i].id, ApplyPatch(all[i].details, patch), all[i].createdAt, now);
      all := all[i := updatedPerson];
      var saved := SaveDatePersons(all, outcome);
      if !saved {
        return Threw(SaveFailed);
      }
      r := Returned(Some(updatedPerson));
    }

    /** `deleteDatePerson`: on an absent id, return false and write nothing;
        otherwise drop every record with the id and return true. */
    method DeleteDatePerson(id: string, outcome: WriteOutcome) returns (r: Thrown<bool>)
      modifies this
      ensures available == old(available)
      ensures r == Returned(false) <==> id !in Ids(old(GetAllDatePersons()))
      ensures id !in Ids(old(GetAllDatePersons())) ==> slot == old(slot)
      ensures id in Ids(old(GetAllDatePersons())) ==>
                && (r.Returned? <==> outcome == Written)
                && (r.Returned? ==> r.value && GetAllDatePersons() == RemoveId(old(GetAllDatePersons()), id))
                && (r.Threw? ==> r.message == SaveFailed)
                && (r.Threw? ==> slot == old(slot) || (outcome == ReadBackEmpty && slot == Missing))
      ensures r == Returned(true) ==> id !in Ids(GetAllDatePersons())
    {
      var all := GetAllDatePersons();
      var remaining := RemoveId(all, id);
      if |remaining| == |all| {
        return Returned(false);
      }
      var saved := SaveDatePersons(remaining, outcome);
      if !saved {
        return Threw(SaveFailed);
      }
      r := Returned(true);
    }
  }
}
