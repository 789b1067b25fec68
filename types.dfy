/**
 * The Person record ("DatePerson"), its validation schema and the form schema
 * whose age and rating arrive as text.
 */
module Types {
  import opened JsBuiltins

  /** Timestamps are milliseconds since the epoch; `Date` comparison compares these. */
  type Millis = int

  /** Every field of a record except its id and its two timestamps: what a
      caller hands to `addDatePerson`. */
  datatype Details = Details(
    name: string,
    age: Option<int>,
    gender: Option<string>,
    occupation: Option<string>,
    contactInfo: Option<string>,
    notes: Option<string>,
    positiveTags: seq<string>,
    negativeTags: seq<string>,
    personalityTags: seq<string>,
    rating: Option<int>,
    meetChannel: Option<string>,
    relationshipStatus: Option<string>,
    instagramAccount: Option<string>,
    firstDateAt: Option<string>)

  /** One remembered contact. */
  datatype Person = Person(id: string, details: Details, createdAt: Millis, updatedAt: Millis)

  /** The values the gender enumeration admits. */
  const Genders: seq<string> := ["男", "女", "其他"]

  /** `datePersonSchema`: a non-empty name, an age of at least 18, a gender from
      the enumeration and a rating between 1 and 5, each when present. The three
      tag lists are required, which the `seq` type already guarantees. */
  predicate ValidDetails(d: Details)
  {
    && |d.name| >= 1
    && (d.age.Some? ==> d.age.value >= 18)
    && (d.gender.Some? ==> d.gender.value in Genders)
    && (d.rating.Some? ==> 1 <= d.rating.value <= 5)
  }

  predicate ValidPerson(p: Person)
  {
    ValidDetails(p.details)
  }

  /** `tags || []`: a missing tag list reads as the empty one. */
  function TagsOrEmpty(tags: Option<seq<string>>): (r: seq<string>)
    ensures tags.Some? ==> r == tags.value
    ensures tags.None? ==> r == []
  {
    if tags.Some? then tags.value else []
  }

  // ---------------------------------------------------------------- form schema

  /** A number field of the form after its transform: absent, a parsed integer,
      or `NaN` when the text holds no digits. */
  datatype FormNumber = Undefined | Num(n: int) | NaN

  /** What the form holds. `N` is the representation of age and rating: text
      before the form schema's transform, `FormNumber` after it. Tag lists are
      optional in the type; the schema demands them. `meetChannel` is `None`
      when the key is absent, as it is in every form the form component
      submits (it has no input for the channel). */
  datatype Form<N> = Form(
    name: string,
    age: N,
    gender: Option<string>,
    occupation: Option<string>,
    contactInfo: Option<string>,
    notes: Option<string>,
    positiveTags: Option<seq<string>>,
    negativeTags: Option<seq<string>>,
    personalityTags: Option<seq<string>>,
    rating: N,
    meetChannel: Option<string>)

  type FormInput = Form<Option<string>>
  type FormData = Form<FormNumber>

  /** `val ? parseInt(val, 10) : undefined`: an empty or absent text is
      undefined, anything else is its decimal parse. */
  function ParseFormNumber(val: Option<string>): (r: FormNumber)
    ensures r == Undefined <==> val == None || val == Some("")
  {
    if val.None? || val.value == "" then Undefined
    else match ParseInt(val.value)
      case Some(n) => Num(n)
      case None => NaN
  }

  /** `datePersonFormSchema`'s checks: it keeps the name, gender and tag rules
      of the record schema and replaces age and rating with free text. */
  predicate ValidForm(f: FormInput)
  {
    && |f.name| >= 1
    && (f.gender.Some? ==> f.gender.value in Genders)
    && f.positiveTags.Some? && f.negativeTags.Some? && f.personalityTags.Some?
  }

  /** The schema's output: age and rating transformed, the rest untouched. */
  function TransformForm(f: FormInput): FormData
  {
    Form(f.name, ParseFormNumber(f.age), f.gender, f.occupation, f.contactInfo, f.notes,
         f.positiveTags, f.negativeTags, f.personalityTags, ParseFormNumber(f.rating), f.meetChannel)
  }

  /** The form transform reads back every natural number it is given as text. */
  lemma FormNumberRoundTrip(n: nat)
    ensures ParseFormNumber(Some(NatToString(n))) == Num(n)
  {
    ParseIntOfNatToString(n);
  }

  /** The form schema enforces neither the age bound nor the rating bound:
      an age of 17 and a rating of 9 pass it. */
  lemma FormSchemaSkipsBounds(f: FormInput)
    requires f.name == "A" && f.gender == None
    requires f.positiveTags == Some([]) && f.negativeTags == Some([]) && f.personalityTags == Some([])
    requires f.age == Some("17") && f.rating == Some("9")
    ensures ValidForm(f)
    ensures TransformForm(f).age == Num(17) && TransformForm(f).rating == Num(9)
  {
    assert NatToString(17) == "17" by {
      assert NatToString(1) == "1";
    }
    assert NatToString(9) == "9";
    FormNumberRoundTrip(17);
    FormNumberRoundTrip(9);
  }
}
