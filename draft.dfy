/**
 * The values the `Form` component keeps (src/pages/Form.js): the draft in
 * `formData`, the per-field flags in `formErrors`, the user records of the
 * list, and the pure rules of its two validation passes: the single-field
 * pass of `handleChange` and the whole-form pass of `validateForm`.
 */
module Draft {
  import opened Wrappers
  import opened Dates

  /** The keys of `formData` and `formErrors` (lines 13-36). */
  datatype Field = FirstName | LastName | Email | Password | PhoneNumber | Birthday | Gender | Image

  const AllFields: set<Field> := {FirstName, LastName, Email, Password, PhoneNumber, Birthday, Gender, Image}

  /** The fields `validateForm` checks: all but the password (lines 212-221). */
  const RequiredFields: set<Field> := AllFields - {Password}

  /**
   * What `formData.birthday` holds: a string (the initial `""` or an edited
   * value), `null` (after a successful submit, or a record without birthday),
   * or a `Date` object built from a record's stored birthday by `handleUpdate`.
   */
  datatype DraftBirthday = Null | Str(s: string) | DateObject(source: string)

  /** `formData`: the draft being created or edited. */
  datatype FormData = FormData(
    firstName: string,
    lastName: string,
    email: string,
    password: string,
    phoneNumber: string,
    birthday: DraftBirthday,
    gender: string,
    image: string)

  /** The draft the component starts with (lines 13-22). */
  const InitialDraft := FormData("", "", "", "", "", Str(""), "", "")

  /** The draft after a successful submit (lines 142-151): all empty, birthday `null`. */
  const ClearedDraft := FormData("", "", "", "", "", Null, "", "")

  /** The flags the component starts with: every field, password included, valid (lines 27-36). */
  const InitialErrors: map<Field, bool> := map f | f in AllFields :: false

  /** A user record as the list endpoint returns it; an empty birthday stands for a missing one. */
  datatype UserRecord = UserRecord(
    id: string,
    firstName: string,
    lastName: string,
    email: string,
    phoneNumber: string,
    birthday: string,
    gender: string,
    image: string)

  /**
   * The value `handleChange` receives: a `Date` object that is a valid date,
   * a string, or anything else (an invalid `Date`, a number, `null`, ...).
   */
  datatype InputValue = DateVal(date: CalendarDate) | Text(s: string) | Other

  /** The string-valued field `f` of a draft. */
  function TextOf(d: FormData, f: Field): string
    requires f != Birthday
  {
    match f
    case FirstName => d.firstName
    case LastName => d.lastName
    case Email => d.email
    case Password => d.password
    case PhoneNumber => d.phoneNumber
    case Gender => d.gender
    case Image => d.image
  }

  /** `{...d, [f]: v}` for a string-valued field. */
  function WithText(d: FormData, f: Field, v: string): (r: FormData)
    requires f != Birthday
    ensures TextOf(r, f) == v
    ensures r.birthday == d.birthday
    ensures forall g :: g != Birthday && g != f ==> TextOf(r, g) == TextOf(d, g)
  {
    match f
    case FirstName => d.(firstName := v)
    case LastName => d.(lastName := v)
    case Email => d.(email := v)
    case Password => d.(password := v)
    case PhoneNumber => d.(phoneNumber := v)
    case Gender => d.(gender := v)
    case Image => d.(image := v)
  }

  /**
   * The string `handleChange` writes to the birthday (lines 176-189): a date
   * formatted as `YYYY-MM-DD`, a string cut at its first `T`, and `""` for
   * anything else.
   */
  function FormattedBirthday(v: InputValue): string {
    match v
    case DateVal(date) => FormatDate(date)
    case Text(s) => CutAtT(s)
    case Other => ""
  }

  /**
   * The draft after `handleChange(name, v)` (lines 191-194, 200-203). Only the
   * birthday takes a non-string value.
   */
  function ChangedDraft(d: FormData, name: Field, v: InputValue): (r: FormData)
    requires name == Birthday || v.Text?
    ensures name == Birthday ==> r.birthday == Str(FormattedBirthday(v))
    ensures name != Birthday ==> TextOf(r, name) == v.s && r.birthday == d.birthday
    ensures forall g :: g != Birthday && g != name ==> TextOf(r, g) == TextOf(d, g)
  {
    if name == Birthday then d.(birthday := Str(FormattedBirthday(v)))
    else WithText(d, name, v.s)
  }

  /**
   * The flags after `handleChange(name, v)` (lines 195-198, 204-207): the
   * birthday flag is cleared whatever the value, any other field's flag says
   * whether the value is empty, and no other flag changes.
   */
  function ChangedErrors(e: map<Field, bool>, name: Field, v: InputValue): (r: map<Field, bool>)
    requires name == Birthday || v.Text?
    ensures r.Keys == e.Keys + {name}
    ensures name == Birthday ==> !r[name]
    ensures name != Birthday ==> (r[name] <==> v.s == "")
    ensures forall f :: f in e && f != name ==> r[f] == e[f]
  {
    e[name := if name == Birthday then false else v.s == ""]
  }

  /**
   * The flags `validateForm` builds from scratch (lines 212-221): one per
   * required field and none for the password; a string field is flagged when
   * empty, the birthday when it is `""` or `null`.
   */
  function ValidationErrors(d: FormData): (e: map<Field, bool>)
    ensures e.Keys == RequiredFields && Password !in e
    ensures forall f :: f in e && f != Birthday ==> (e[f] <==> TextOf(d, f) == "")
    ensures e[Birthday] <==> d.birthday == Str("") || d.birthday == Null
  {
    map f | f in RequiredFields ::
      if f == Birthday then d.birthday == Str("") || d.birthday == Null else TextOf(d, f) == ""
  }

  /** `Object.values(errors).some((error) => error)` (line 226). */
  predicate AnyError(e: map<Field, bool>) {
    exists f :: f in e && e[f]
  }

  /** The verdict of `validateForm` (line 226). */
  predicate IsSubmittable(d: FormData) {
    !AnyError(ValidationErrors(d))
  }

  /**
   * A draft passes validation exactly when every required string field is
   * non-empty and the birthday is neither `""` nor `null`.
   */
  lemma SubmittableIff(d: FormData)
    ensures IsSubmittable(d) <==>
      && d.firstName != "" && d.lastName != "" && d.email != ""
      && d.phoneNumber != "" && d.gender != "" && d.image != ""
      && d.birthday != Str("") && d.birthday != Null
  {
    var e := ValidationErrors(d);
    if d.firstName == "" { assert e[FirstName]; }
    if d.lastName == "" { assert e[LastName]; }
    if d.email == "" { assert e[Email]; }
    if d.phoneNumber == "" { assert e[PhoneNumber]; }
    if d.gender == "" { assert e[Gender]; }
    if d.image == "" { assert e[Image]; }
    if d.birthday == Str("") || d.birthday == Null { assert e[Birthday]; }
  }

  /** The password has no effect on validation. */
  lemma PasswordIgnored(d: FormData, p: string)
    ensures ValidationErrors(d.(password := p)) == ValidationErrors(d)
    ensures IsSubmittable(d.(password := p)) == IsSubmittable(d)
  {
  }

  /**
   * For a required field other than the birthday, the flag the edit sets is
   * the flag the whole-form pass would compute for the edited draft.
   */
  lemma FieldEditAgreesWithValidation(d: FormData, e: map<Field, bool>, name: Field, v: string)
    requires name in RequiredFields && name != Birthday
    ensures ChangedErrors(e, name, Text(v))[name] == ValidationErrors(ChangedDraft(d, name, Text(v)))[name]
  {
  }

  /**
   * The birthday edit is not validated: the flag is cleared even when the
   * stored string is empty (an empty text, a text starting with `T`, or an
   * unrecognised value), and the whole-form pass then flags exactly those.
   */
  lemma BirthdayEditNotRevalidated(d: FormData, e: map<Field, bool>, v: InputValue)
    ensures !ChangedErrors(e, Birthday, v)[Birthday]
    ensures ValidationErrors(ChangedDraft(d, Birthday, v))[Birthday] <==>
      v.Other? || (v.Text? && (v.s == "" || v.s[0] == 'T'))
  {
  }

  /**
   * Typing a formatted date as text stores the same draft as picking that
   * date, since a formatted date has no `T`.
   */
  lemma TextOfFormattedDate(d: FormData, date: CalendarDate)
    ensures ChangedDraft(d, Birthday, Text(FormatDate(date))) == ChangedDraft(d, Birthday, DateVal(date))
  {
  }

  /**
   * The draft `handleUpdate` loads from a record (lines 78-87): the password
   * is emptied, a stored birthday becomes a `Date` object and a missing one
   * `null`.
   */
  function DraftFromRecord(u: UserRecord): FormData {
    FormData(u.firstName, u.lastName, u.email, "", u.phoneNumber,
             if u.birthday != "" then DateObject(u.birthday) else Null,
             u.gender, u.image)
  }

  /**
   * A record loaded for editing passes validation exactly when all its
   * fields, birthday included, are non-empty.
   */
  lemma RecordDraftSubmittable(u: UserRecord)
    ensures IsSubmittable(DraftFromRecord(u)) <==>
      && u.firstName != "" && u.lastName != "" && u.email != "" && u.phoneNumber != ""
      && u.birthday != "" && u.gender != "" && u.image != ""
  {
    SubmittableIff(DraftFromRecord(u));
  }
}
