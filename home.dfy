/**
 * The home page: the search filter and timestamp sort over the loaded
 * records, the sort-order toggle, and the handlers that turn a submitted form
 * into a stored record.
 */
module Home {
  import opened JsBuiltins
  import opened Types
  import opened Storage

  // ---------------------------------------------------------------- search

  /** Every tag of a record: positive, then negative, then personality. */
  function AllTags(p: Person): seq<string>
  {
    p.details.positiveTags + p.details.negativeTags + p.details.personalityTags
  }

  /** `tags.some(tag => tag.toLowerCase().includes(needle))`. */
  function AnyTagIncludes(tags: seq<string>, needle: string): (r: bool)
    ensures r <==> exists t :: t in tags && Includes(Lower(t), needle)
  {
    if tags == [] then false
    else
      assert tags[0] in tags;
      assert forall t :: t in tags <==> t == tags[0] || t in tags[1..];
      Includes(Lower(tags[0]), needle) || AnyTagIncludes(tags[1..], needle)
  }

  /** `field && field.toLowerCase().includes(needle)`: an absent or empty
      field matches nothing. */
  function FieldIncludes(field: Option<string>, needle: string): bool
  {
    field.Some? && field.value != "" && Includes(Lower(field.value), needle)
  }

  /** The filter's test for one record. */
  function Matches(p: Person, searchTerm: string): bool
  {
    if searchTerm == "" then true
    else
      var searchLower := Lower(searchTerm);
      Includes(Lower(p.details.name), searchLower)
      || FieldIncludes(p.details.occupation, searchLower)
      || FieldIncludes(p.details.meetChannel, searchLower)
      || AnyTagIncludes(AllTags(p), searchLower)
  }

  /** `Includes` as the existence of an occurrence. */
  ghost predicate Occurs(hay: string, needle: string)
  {
    exists i :: OccursAt(hay, needle, i)
  }

  /** A non-empty search keeps a record exactly when the lower-cased term
      occurs in its lower-cased name, occupation or meet channel, or in one of
      its tags. */
  lemma MatchesIff(p: Person, searchTerm: string)
    requires searchTerm != ""
    ensures var t := Lower(searchTerm);
            Matches(p, searchTerm) <==>
              || Occurs(Lower(p.details.name), t)
              || (p.details.occupation.Some? && Occurs(Lower(p.details.occupation.value), t))
              || (p.details.meetChannel.Some? && Occurs(Lower(p.details.meetChannel.value), t))
              || (exists tag :: tag in AllTags(p) && Occurs(Lower(tag), t))
  {
    var t := Lower(searchTerm);
    IncludesIff(Lower(p.details.name), t);
    if p.details.occupation.Some? {
      IncludesIff(Lower(p.details.occupation.value), t);
    }
    if p.details.meetChannel.Some? {
      IncludesIff(Lower(p.details.meetChannel.value), t);
    }
    forall tag | tag in AllTags(p) ensures Includes(Lower(tag), t) <==> Occurs(Lower(tag), t) {
      IncludesIff(Lower(tag), t);
    }
  }

  /** The filter: the matching records, in their order. */
  function FilterPersons(ps: seq<Person>, searchTerm: string): (r: seq<Person>)
    ensures |r| <= |ps|
    ensures forall p :: multiset(r)[p] == if Matches(p, searchTerm) then multiset(ps)[p] else 0
  {
    if ps == [] then []
    else
      assert ps == [ps[0]] + ps[1..];
      (if Matches(ps[0], searchTerm) then [ps[0]] else []) + FilterPersons(ps[1..], searchTerm)
  }

  /** An empty search keeps every record, in order. */
  lemma {:induction false} EmptySearchKeepsAll(ps: seq<Person>)
    ensures FilterPersons(ps, "") == ps
  {
    if ps != [] {
      EmptySearchKeepsAll(ps[1..]);
      assert ps == [ps[0]] + ps[1..];
    }
  }

  // ---------------------------------------------------------------- sort

  /** Newest first (the initial order) or oldest first. */
  datatype SortOrder = Desc | Asc

  /** The sort button. */
  function ToggleSortOrder(order: SortOrder): (r: SortOrder)
    ensures r != order
  {
    if order == Desc then Asc else Desc
  }

  /** `a` may come before `b` in the order. */
  predicate InOrder(a: Person, b: Person, order: SortOrder)
  {
    if order == Desc then a.updatedAt >= b.updatedAt else a.updatedAt <= b.updatedAt
  }

  predicate Sorted(s: seq<Person>, order: SortOrder)
  {
    forall i, j :: 0 <= i < j < |s| ==> InOrder(s[i], s[j], order)
  }

  /** A head that may precede every element of a sorted tail keeps it sorted. */
  lemma SortedCons(a: Person, rest: seq<Person>, order: SortOrder)
    requires Sorted(rest, order)
    requires forall y :: y in rest ==> InOrder(a, y, order)
    ensures Sorted([a] + rest, order)
  {
    var s := [a] + rest;
    forall i, j | 0 <= i < j < |s| ensures InOrder(s[i], s[j], order) {
      assert s[j] == rest[j - 1];
      if i > 0 {
        assert s[i] == rest[i - 1];
      } else {
        assert rest[j - 1] in rest;
      }
    }
  }

  /** `x` placed before the first element it may precede. */
  function Insert(x: Person, s: seq<Person>, order: SortOrder): (r: seq<Person>)
    requires Sorted(s, order)
    ensures Sorted(r, order)
    ensures forall y :: y in r ==> y == x || y in s
    ensures multiset(r) == multiset(s) + multiset{x}
  {
    if s == [] then [x]
    else if InOrder(x, s[0], order) then
      assert forall y :: y in s ==> InOrder(x, y, order) by {
        forall y | y in s ensures InOrder(x, y, order) {
          var j :| 0 <= j < |s| && s[j] == y;
          if j > 0 {
            assert InOrder(s[0], s[j], order);
          }
        }
      }
      SortedCons(x, s, order);
      [x] + s
    else
      var rest := Insert(x, s[1..], order);
      assert s == [s[0]] + s[1..];
      assert forall y :: y in rest ==> InOrder(s[0], y, order) by {
        forall y | y in rest ensures InOrder(s[0], y, order) {
          if y != x {
            var j :| 0 <= j < |s[1..]| && s[1..][j] == y;
            assert InOrder(s[0], s[j + 1], order);
          }
        }
      }
      SortedCons(s[0], rest, order);
      [s[0]] + rest
  }

  /** The comparator sort: by `updatedAt`, descending or ascending. */
  function SortByUpdated(ps: seq<Person>, order: SortOrder): (r: seq<Person>)
    ensures Sorted(r, order)
    ensures multiset(r) == multiset(ps)
  {
    if ps == [] then []
    else
      assert ps == [ps[0]] + ps[1..];
      Insert(ps[0], SortByUpdated(ps[1..], order), order)
  }

  /** `filteredAndSortedPersons`. */
  function FilteredAndSorted(ps: seq<Person>, searchTerm: string, order: SortOrder): (r: seq<Person>)
    ensures Sorted(r, order)
    ensures forall p :: multiset(r)[p] == if Matches(p, searchTerm) then multiset(ps)[p] else 0
  {
    SortByUpdated(FilterPersons(ps, searchTerm), order)
  }

  /** With no search term the list shows every record, reordered. */
  lemma ListShowsEverything(ps: seq<Person>, order: SortOrder)
    ensures multiset(FilteredAndSorted(ps, "", order)) == multiset(ps)
  {
    EmptySearchKeepsAll(ps);
  }

  /** Toggling the order reverses the comparison: a list sorted both ways
      holds a single timestamp. */
  lemma SortedBothWays(s: seq<Person>)
    requires Sorted(s, Desc) && Sorted(s, Asc)
    ensures forall i, j :: 0 <= i < |s| && 0 <= j < |s| ==> s[i].updatedAt == s[j].updatedAt
  {
    forall i, j | 0 <= i < |s| && 0 <= j < |s| ensures s[i].updatedAt == s[j].updatedAt {
      if i < j {
        assert InOrder(s[i], s[j], Desc) && InOrder(s[i], s[j], Asc);
      } else if j < i {
        assert InOrder(s[j], s[i], Desc) && InOrder(s[j], s[i], Asc);
      }
    }
  }

  // ---------------------------------------------------------------- form to record

  /** A transformed number as stored: a parse failure (`NaN`) is stored as
      no number, as the JSON round trip through storage turns it into null. */
  function StoredNumber(n: FormNumber): (r: Option<int>)
    ensures r.Some? <==> n.Num?
    ensures r.Some? ==> r.value == n.n
  {
    match n
    case Num(v) => Some(v)
    case _ => None
  }

  /** `{ ...data, positiveTags: data.positiveTags || [], ... }` as the record's
      details; the fields the form does not have are absent. */
  function FormDetails(data: FormData): Details
  {
    Details(data.name, StoredNumber(data.age), data.gender, data.occupation, data.contactInfo, data.notes,
            TagsOrEmpty(data.positiveTags), TagsOrEmpty(data.negativeTags), TagsOrEmpty(data.personalityTags),
            StoredNumber(data.rating), data.meetChannel, None, None, None)
  }

  /** The same object as an update: it overwrites every field the form holds
      and leaves the others alone. The form has no meet-channel input, so its
      output has no `meetChannel` key unless one is given. */
  function FormPatch(data: FormData): Patch
  {
    var d := FormDetails(data);
    Patch(Some(d.name), Some(d.age), Some(d.gender), Some(d.occupation), Some(d.contactInfo), Some(d.notes),
          Some(d.positiveTags), Some(d.negativeTags), Some(d.personalityTags), Some(d.rating),
          if data.meetChannel.Some? then Some(data.meetChannel) else None, None, None, None)
  }

  /** An update from the form gives the form's values, except for the meet
      channel (kept unless the form gives one), the relationship status, the
      Instagram account and the first date, which are kept. */
  lemma FormPatchOverwritesFormFields(old_: Details, data: FormData)
    ensures ApplyPatch(old_, FormPatch(data)) ==
            FormDetails(data).(meetChannel := if data.meetChannel.Some? then data.meetChannel else old_.meetChannel,
                               relationshipStatus := old_.relationshipStatus,
                               instagramAccount := old_.instagramAccount,
                               firstDateAt := old_.firstDateAt)
  {
  }

  /** Editing a record through the form, which has no meet-channel input,
      keeps the record's meet channel. */
  lemma EditKeepsMeetChannel(old_: Details, data: FormData)
    requires data.meetChannel.None?
    ensures ApplyPatch(old_, FormPatch(data)).meetChannel == old_.meetChannel
    ensures ApplyPatch(old_, FormPatch(data)).name == data.name
  {
  }

  /** A form that passed the schema gives a record with its name, its tag
      lists and its parsed age and rating. */
  lemma SubmittedFormDetails(f: FormInput)
    requires ValidForm(f)
    ensures var d := FormDetails(TransformForm(f));
            && d.name == f.name && |d.name| >= 1
            && d.positiveTags == f.positiveTags.value
            && d.negativeTags == f.negativeTags.value
            && d.personalityTags == f.personalityTags.value
            && (d.age.None? <==> !TransformForm(f).age.Num?)
  {
  }

  /** A form that passed the schema gives a record the record schema accepts
      exactly when its age and rating are within the record schema's bounds. */
  lemma SubmittedFormValidity(f: FormInput)
    requires ValidForm(f)
    ensures var d := FormDetails(TransformForm(f));
            ValidDetails(d) <==> (d.age.Some? ==> d.age.value >= 18) && (d.rating.Some? ==> 1 <= d.rating.value <= 5)
  {
  }

  // ---------------------------------------------------------------- the page

  /** The page's state. */
  class HomePage {
    var datePersons: seq<Person>
    var showAddForm: bool
    var editingPerson: Option<Person>
    var searchTerm: string
    var sortOrder: SortOrder
    var showDeleteConfirm: bool
    var personToDelete: Option<string>

    /** The page as first rendered, after its first load from the store. */
    constructor (store: LocalStore)
      ensures datePersons == store.GetAllDatePersons()
      ensures !showAddForm && editingPerson.None? && searchTerm == "" && sortOrder == Desc
      ensures !showDeleteConfirm && personToDelete.None?
    {
      datePersons := store.GetAllDatePersons();
      showAddForm := false;
      editingPerson := None;
      searchTerm := "";
      sortOrder := Desc;
      showDeleteConfirm := false;
      personToDelete := None;
    }

    /** The cards shown. */
    function Shown(): seq<Person>
      reads this
    {
      FilteredAndSorted(datePersons, searchTerm, sortOrder)
    }

    /** The sort button. */
    method ToggleSort()
      modifies this
      ensures sortOrder == ToggleSortOrder(old(sortOrder))
      ensures datePersons == old(datePersons) && searchTerm == old(searchTerm)
      ensures showAddForm == old(showAddForm) && editingPerson == old(editingPerson)
      ensures showDeleteConfirm == old(showDeleteConfirm) && personToDelete == old(personToDelete)
    {
      sortOrder := if sortOrder == Desc then Asc else Desc;
    }

    /** Typing into the search box. */
    method SetSearchTerm(term: string)
      modifies this
      ensures searchTerm == term && datePersons == old(datePersons) && sortOrder == old(sortOrder)
      ensures showAddForm == old(showAddForm) && editingPerson == old(editingPerson)
      ensures showDeleteConfirm == old(showDeleteConfirm) && personToDelete == old(personToDelete)
    {
      searchTerm := term;
    }

    /** `handleAddPerson`: store the form as a new record, close the form and
        reload. A failed write throws out of the handler, which then changes
        nothing on the page. */
    method HandleAddPerson(store: LocalStore, data: FormData, now: Millis, freshId: string, outcome: WriteOutcome)
      returns (r: Thrown<Person>)
      requires freshId !in Ids(store.GetAllDatePersons())
      modifies this, store
      ensures store.available == old(store.available)
      ensures r.Returned? <==> store.available && outcome == Written
      ensures r.Returned? ==> && r.value == Person(freshId, FormDetails(data), now, now)
                              && store.GetAllDatePersons() == old(store.GetAllDatePersons()) + [r.value]
                              && datePersons == store.GetAllDatePersons()
                              && !showAddForm
      ensures r.Threw? ==> datePersons == old(datePersons) && showAddForm == old(showAddForm)
      ensures r.Threw? ==> store.slot == old(store.slot) || (outcome == ReadBackEmpty && store.slot == Missing)
      ensures editingPerson == old(editingPerson) && searchTerm == old(searchTerm) && sortOrder == old(sortOrder)
      ensures showDeleteConfirm == old(showDeleteConfirm) && personToDelete == old(personToDelete)
    {
      r := store.AddDatePerson(FormDetails(data), now, freshId, outcome);
      if r.Threw? {
        return;
      }
      showAddForm := false;
      datePersons := store.GetAllDatePersons();
    }

    /** `handleUpdatePerson`: with a record being edited, apply the form to it,
        stop editing and reload; with none, do nothing. */
    method HandleUpdatePerson(store: LocalStore, data: FormData, now: Millis, outcome: WriteOutcome)
      returns (r: Thrown<Option<Person>>)
      modifies this, store
      ensures store.available == old(store.available)
      ensures old(editingPerson).None? ==>
                r == Returned(None) && store.slot == old(store.slot) && datePersons == old(datePersons)
                && editingPerson == old(editingPerson)
      ensures old(editingPerson).Some? && r.Returned? ==>
                editingPerson.None? && datePersons == store.GetAllDatePersons()
      ensures old(editingPerson).Some? && old(editingPerson).value.id !in Ids(old(store.GetAllDatePersons())) ==>
                r == Returned(None) && store.slot == old(store.slot)
      ensures old(editingPerson).Some? && old(editingPerson).value.id in Ids(old(store.GetAllDatePersons())) ==>
                var all := old(store.GetAllDatePersons());
                var i := FindIndex(all, old(editingPerson).value.id).value;
                var updated := Person(all[i].id, ApplyPatch(all[i].details, FormPatch(data)), all[i].createdAt, now);
                && (r.Returned? <==> store.available && outcome == Written)
                && (r.Returned? ==> r.value == Some(updated) && store.GetAllDatePersons() == all[i := updated])
      ensures r.Threw? ==> datePersons == old(datePersons) && editingPerson == old(editingPerson)
      ensures r.Threw? ==> store.slot == old(store.slot) || (outcome == ReadBackEmpty && store.slot == Missing)
      ensures showAddForm == old(showAddForm) && searchTerm == old(searchTerm) && sortOrder == old(sortOrder)
      ensures showDeleteConfirm == old(showDeleteConfirm) && personToDelete == old(personToDelete)
    {
      if editingPerson.None? {
        return Returned(None);
      }
      r := store.UpdateDatePerson(editingPerson.value.id, FormPatch(data), now, outcome);
      if r.Threw? {
        return;
      }
      editingPerson := None;
      datePersons := store.GetAllDatePersons();
    }

    /** `handleDeletePerson`: remember the id and ask for confirmation. */
    method HandleDeletePerson(id: string)
      modifies this
      ensures personToDelete == Some(id) && showDeleteConfirm
      ensures datePersons == old(datePersons) && editingPerson == old(editingPerson)
      ensures showAddForm == old(showAddForm) && searchTerm == old(searchTerm) && sortOrder == old(sortOrder)
    {
      personToDelete := Some(id);
      showDeleteConfirm := true;
    }

    /** `confirmDelete`: with a remembered (non-empty) id, delete it, stop
        editing, reload and close the dialog. A failed write throws out of
        the handler, which then changes nothing on the page. */
    method ConfirmDelete(store: LocalStore, outcome: WriteOutcome) returns (r: Thrown<bool>)
      modifies this, store
      ensures store.available == old(store.available)
      ensures old(personToDelete).None? || old(personToDelete).value == "" ==>
                r == Returned(false) && store.slot == old(store.slot) && datePersons == old(datePersons)
                && showDeleteConfirm == old(showDeleteConfirm) && personToDelete == old(personToDelete)
                && editingPerson == old(editingPerson)
      ensures old(personToDelete).Some? && old(personToDelete).value != "" && r.Returned? ==>
                && store.GetAllDatePersons() == RemoveId(old(store.GetAllDatePersons()), old(personToDelete).value)
                && datePersons == store.GetAllDatePersons()
                && old(personToDelete).value !in Ids(datePersons)
                && editingPerson.None? && !showDeleteConfirm && personToDelete.None?
      ensures r.Threw? ==> datePersons == old(datePersons) && personToDelete == old(personToDelete)
                           && editingPerson == old(editingPerson) && showDeleteConfirm == old(showDeleteConfirm)
      ensures r.Threw? ==> store.slot == old(store.slot) || (outcome == ReadBackEmpty && store.slot == Missing)
      ensures showAddForm == old(showAddForm) && searchTerm == old(searchTerm) && sortOrder == old(sortOrder)
    {
      if personToDelete.None? || personToDelete.value == "" {
        return Returned(false);
      }
      var id := personToDelete.value;
      r := store.DeleteDatePerson(id, outcome);
      if r.Threw? {
        return;
      }
      assert r.value || store.GetAllDatePersons() == RemoveId(old(store.GetAllDatePersons()), id);
      editingPerson := None;
      datePersons := store.GetAllDatePersons();
      showDeleteConfirm := false;
      personToDelete := None;
    }

    /** `cancelDelete`. */
    method CancelDelete()
      modifies this
      ensures !showDeleteConfirm && personToDelete.None?
      ensures datePersons == old(datePersons) && editingPerson == old(editingPerson)
      ensures showAddForm == old(showAddForm) && searchTerm == old(searchTerm) && sortOrder == old(sortOrder)
    {
      showDeleteConfirm := false;
      personToDelete := None;
    }
  }
}
