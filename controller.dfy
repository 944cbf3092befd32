/**
 * The `Form` component's state and handlers (src/pages/Form.js). Each handler
 * is one atomic transition; the answer of each network call is a parameter,
 * and the handlers that send a request return it.
 */
module Controller {
  import opened Wrappers
  import opened Dates
  import opened Draft

  /**
   * The `birthday` state that backs the date input (line 12). The initial
   * `""` and the `null` set after a submit are both falsy and act alike, so
   * both are `NoDate`. `ParsedDate(s)` is `new Date(s)`, whose value the
   * host's date parser decides.
   */
  datatype PickerValue = NoDate | PickedDate(date: CalendarDate) | ParsedDate(source: string)

  datatype HttpMethod = Get | Post | Put | Delete

  /** The backend endpoints under `/api/user`. */
  datatype Endpoint = GetUsers | Register | UpdateUser(id: string) | DeleteUser(id: string)

  /** A request the component sends: method, endpoint and JSON body, if any. */
  datatype Request = Request(verb: HttpMethod, endpoint: Endpoint, body: Option<FormData>)

  /** The list request `fetchUsers` sends (line 44). */
  const ListRequest := Request(Get, GetUsers, None)

  /** The outcome of a create, update or delete: a 2xx answer, or anything else (an error status or a thrown error). */
  datatype Response = Ok | Failed

  /** The outcome of the list request: the parsed array, or a failure of any kind. */
  datatype FetchResponse = Fetched(users: seq<UserRecord>) | FetchFailed

  /** JavaScript truthiness of `selectedUserId`: set and not the empty string. */
  predicate IsTruthy(id: Option<string>) {
    id.Some? && id.value != ""
  }

  /** The birthday picker after `handleChange("birthday", v)` (lines 179, 185): an unrecognised value leaves it. */
  function PickerAfterEdit(p: PickerValue, v: InputValue): PickerValue {
    match v
    case DateVal(date) => PickedDate(date)
    case Text(s) => ParsedDate(s)
    case Other => p
  }

  /** The picker `handleUpdate` sets from a record (line 88). */
  function PickerFromRecord(u: UserRecord): PickerValue {
    if u.birthday != "" then ParsedDate(u.birthday) else NoDate
  }

  /**
   * Whether the request body can be built (line 134). `isoTimestamp` is the
   * host's `toISOString()` of the picker's date, `None` when it throws, as it
   * does for an invalid `Date` such as `new Date("garbage")`; it is only
   * called when the picker holds a date.
   */
  predicate BodyBuilds(picker: PickerValue, isoTimestamp: Option<string>) {
    picker == NoDate || isoTimestamp.Some?
  }

  /**
   * The request `handleSubmit` sends (lines 119-136): PUT to
   * `updateUser/{id}` when a user is selected, POST to `register` otherwise;
   * the body is the draft with the birthday replaced by the day part of the
   * picker's ISO timestamp, or `null` when the picker is empty.
   */
  function SubmitRequest(selected: Option<string>, d: FormData, picker: PickerValue, isoTimestamp: Option<string>): (r: Request)
    requires BodyBuilds(picker, isoTimestamp)
    ensures r.verb == Put <==> IsTruthy(selected)
    ensures r.verb == Post <==> !IsTruthy(selected)
    ensures r.endpoint.UpdateUser? <==> IsTruthy(selected)
    ensures r.endpoint.UpdateUser? ==> Some(r.endpoint.id) == selected
    ensures r.endpoint == Register <==> !IsTruthy(selected)
    ensures r.body.Some?
    ensures r.body.value.(birthday := d.birthday) == d
    ensures r.body.value.birthday == Null <==> picker == NoDate
    ensures picker != NoDate ==> r.body.value.birthday == Str(CutAtT(isoTimestamp.value))
  {
    var body := d.(birthday := if picker == NoDate then Null else Str(CutAtT(isoTimestamp.value)));
    if IsTruthy(selected) then Request(Put, UpdateUser(selected.value), Some(body))
    else Request(Post, Register, Some(body))
  }

  /** The list after a fetch: replaced wholesale on success, kept on failure (lines 45-53). */
  function ListAfterFetch(list: seq<UserRecord>, response: FetchResponse): seq<UserRecord> {
    match response
    case Fetched(users) => users
    case FetchFailed => list
  }

  class FormController {
    var formData: FormData
    var formErrors: map<Field, bool>
    var pickedBirthday: PickerValue
    var userList: seq<UserRecord>
    var showForm: bool
    var selectedUserId: Option<string>

    /**
     * Every required field has a flag for the form to show, and a user is
     * only ever selected while the form is open.
     */
    ghost predicate Valid()
      reads this
    {
      && RequiredFields <= formErrors.Keys
      && (selectedUserId.Some? ==> showForm)
    }

    /** The state the component mounts with (lines 12-36). */
    constructor ()
      ensures Valid()
      ensures formData == InitialDraft && formErrors == InitialErrors
      ensures pickedBirthday == NoDate && userList == []
      ensures !showForm && selectedUserId == None
    {
      formData := InitialDraft;
      formErrors := InitialErrors;
      pickedBirthday := NoDate;
      userList := [];
      showForm := false;
      selectedUserId := None;
    }

    /** `fetchUsers` (lines 42-54): GET `getUsers`. */
    method FetchUsers(response: FetchResponse) returns (request: Request)
      requires Valid()
      modifies this`userList
      ensures Valid()
      ensures request == ListRequest
      ensures userList == ListAfterFetch(old(userList), response)
      ensures response.FetchFailed? ==> userList == old(userList)
    {
      request := ListRequest;
      match response
      case Fetched(users) =>
        userList := users;
      case FetchFailed =>
    }

    /**
     * `handleDelete` (lines 56-74): DELETE `deleteUser/{id}`, then a refetch
     * when it succeeded. `sent` lists the requests in the order they go out.
     */
    method HandleDelete(userId: string, response: Response, refetch: FetchResponse) returns (sent: seq<Request>)
      requires Valid()
      modifies this`userList
      ensures Valid()
      ensures sent == [Request(Delete, DeleteUser(userId), None)] + (if response.Ok? then [ListRequest] else [])
      ensures userList == if response.Ok? then ListAfterFetch(old(userList), refetch) else old(userList)
    {
      sent := [Request(Delete, DeleteUser(userId), None)];
      if response.Ok? {
        var list := FetchUsers(refetch);
        sent := sent + [list];
      }
    }

    /** `handleUpdate` (lines 76-90): load a record into the draft and open the form. */
    method HandleUpdate(user: UserRecord)
      requires Valid()
      modifies this`selectedUserId, this`formData, this`pickedBirthday, this`showForm
      ensures Valid()
      ensures selectedUserId == Some(user.id) && showForm
      ensures formData == DraftFromRecord(user) && formData.password == ""
      ensures pickedBirthday == PickerFromRecord(user)
    {
      selectedUserId := Some(user.id);
      formData := DraftFromRecord(user);
      pickedBirthday := PickerFromRecord(user);
      showForm := true;
    }

    /**
     * `handleImageChange` (lines 92-107): `file` is the data URI the file
     * reader produces, or `None` when no file was chosen.
     */
    method HandleImageChange(file: Option<string>)
      requires Valid()
      modifies this`formData
      ensures Valid()
      ensures formData == if file.Some? then old(formData).(image := file.value) else old(formData)
    {
      if file.Some? {
        formData := formData.(image := file.value);
      }
    }

    /** `validateForm` (lines 211-227): replace the flags and report whether none is set. */
    method ValidateForm() returns (ok: bool)
      requires Valid()
      modifies this`formErrors
      ensures Valid()
      ensures formErrors == ValidationErrors(formData)
      ensures ok == IsSubmittable(formData)
    {
      formErrors := ValidationErrors(formData);
      ok := !AnyError(formErrors);
    }

    /**
     * `handleSubmit` (lines 109-172). `response` answers the create or update
     * request, `refetch` the list request made after a success, and
     * `isoTimestamp` is the host's `toISOString()` of the picked birthday,
     * `None` when it throws. Only a `Date` built from a string can throw: a
     * picked date passed the `isNaN` check at line 178. A throw while
     * building the body is caught (lines 164-170): nothing is sent and only
     * the flags have changed. `sent` lists the requests in the order they
     * go out.
     */
    method HandleSubmit(response: Response, refetch: FetchResponse, isoTimestamp: Option<string>) returns (sent: seq<Request>)
      requires Valid()
      requires pickedBirthday.PickedDate? ==> isoTimestamp.Some?
      modifies this
      ensures Valid()
      ensures formErrors == ValidationErrors(old(formData))
      ensures IsSubmittable(old(formData)) && !old(pickedBirthday).ParsedDate? ==> sent != []
      ensures !IsSubmittable(old(formData)) || !BodyBuilds(old(pickedBirthday), isoTimestamp) ==> sent == []
      ensures IsSubmittable(old(formData)) && BodyBuilds(old(pickedBirthday), isoTimestamp) ==>
        sent == [SubmitRequest(old(selectedUserId), old(formData), old(pickedBirthday), isoTimestamp)]
                + (if response.Ok? then [ListRequest] else [])
      ensures IsSubmittable(old(formData)) && BodyBuilds(old(pickedBirthday), isoTimestamp) && response.Ok? ==>
        && formData == ClearedDraft && pickedBirthday == NoDate
        && selectedUserId == None && !showForm
        && userList == ListAfterFetch(old(userList), refetch)
      ensures !IsSubmittable(old(formData)) || !BodyBuilds(old(pickedBirthday), isoTimestamp) || response.Failed? ==>
        && formData == old(formData) && pickedBirthday == old(pickedBirthday)
        && selectedUserId == old(selectedUserId) && showForm == old(showForm)
        && userList == old(userList)
    {
      sent := [];
      var ok := ValidateForm();
      if !ok || !BodyBuilds(pickedBirthday, isoTimestamp) {
        return;
      }
      sent := [SubmitRequest(selectedUserId, formData, pickedBirthday, isoTimestamp)];
      if response.Ok? {
        formData := ClearedDraft;
        pickedBirthday := NoDate;
        selectedUserId := None;
        var list := FetchUsers(refetch);
        sent := sent + [list];
        showForm := false;
      }
    }

    /** `handleChange` (lines 174-209): incremental, single-field validation. */
    method HandleChange(name: Field, value: InputValue)
      requires Valid()
      requires name == Birthday || value.Text?
      modifies this`formData, this`formErrors, this`pickedBirthday
      ensures Valid()
      ensures formData == ChangedDraft(old(formData), name, value)
      ensures formErrors == ChangedErrors(old(formErrors), name, value)
      ensures pickedBirthday == if name == Birthday then PickerAfterEdit(old(pickedBirthday), value) else old(pickedBirthday)
    {
      if name == Birthday {
        var formatted := "";
        match value {
          case DateVal(date) =>
            pickedBirthday := PickedDate(date);
            formatted := FormatDate(date);
          case Text(s) =>
            pickedBirthday := ParsedDate(s);
            formatted := CutAtT(s);
          case Other =>
        }
        formData := formData.(birthday := Str(formatted));
        formErrors := formErrors[Birthday := false];
      } else {
        formData := WithText(formData, name, value.s);
        formErrors := formErrors[name := value.s == ""];
      }
    }

    /** `handleAddUserClick` (lines 229-232): leave edit mode and toggle the form. */
    method HandleAddUserClick()
      requires Valid()
      modifies this`selectedUserId, this`showForm
      ensures Valid()
      ensures selectedUserId == None && showForm == !old(showForm)
      ensures old(selectedUserId).Some? ==> !showForm
    {
      selectedUserId := None;
      showForm := !showForm;
    }
  }

  /**
   * Editing any record and then pressing "Add User" leaves edit mode and
   * closes the form that the edit opened.
   */
  method EditThenAddUser(user: UserRecord) returns (selected: Option<string>, shown: bool)
    ensures selected == None && !shown
  {
    var c := new FormController();
    c.HandleUpdate(user);
    c.HandleAddUserClick();
    selected, shown := c.selectedUserId, c.showForm;
  }

  /**
   * A create from scratch: fill every field, pick a date, attach an image and
   * submit; the server accepts and the refetch returns `served`. A POST to
   * `register` carries the typed fields and the image, with the birthday the
   * host's ISO timestamp cut at `T`; then the list is requested. Afterwards
   * the list is the served one, the draft is cleared and the form is closed.
   */
  method CreateUser(first: string, last: string, email: string, phone: string, gender: string,
                    date: CalendarDate, imageUri: string, isoTimestamp: string, served: seq<UserRecord>)
    returns (sent: seq<Request>, list: seq<UserRecord>, draft: FormData, shown: bool)
    requires first != "" && last != "" && email != "" && phone != "" && gender != "" && imageUri != ""
    ensures sent == [
      Request(Post, Register, Some(FormData(first, last, email, "", phone, Str(CutAtT(isoTimestamp)), gender, imageUri))),
      ListRequest]
    ensures list == served && draft == ClearedDraft && !shown
  {
    var c := new FormController();
    c.HandleAddUserClick();
    FillForm(c, first, last, email, phone, gender, date, imageUri);
    var filled := FormData(first, last, email, "", phone, Str(FormatDate(date)), gender, imageUri);
    FormatDateShape(date);
    SubmittableIff(filled);
    sent := c.HandleSubmit(Ok, Fetched(served), Some(isoTimestamp));
    list, draft, shown := c.userList, c.formData, c.showForm;
  }

  /**
   * A submit with the first name left empty and every other field filled
   * sends nothing and flags exactly the first name.
   */
  method SubmitWithoutFirstName(last: string, email: string, phone: string, gender: string,
                                date: CalendarDate, imageUri: string, response: Response,
                                refetch: FetchResponse, isoTimestamp: string)
    returns (sent: seq<Request>, errors: map<Field, bool>)
    requires last != "" && email != "" && phone != "" && gender != "" && imageUri != ""
    ensures sent == []
    ensures errors.Keys == RequiredFields
    ensures forall f :: f in errors ==> (errors[f] <==> f == FirstName)
  {
    var c := new FormController();
    c.HandleAddUserClick();
    FillForm(c, "", last, email, phone, gender, date, imageUri);
    var filled := FormData("", last, email, "", phone, Str(FormatDate(date)), gender, imageUri);
    FormatDateShape(date);
    SubmittableIff(filled);
    sent := c.HandleSubmit(response, refetch, Some(isoTimestamp));
    errors := c.formErrors;
  }

  /**
   * Editing a complete record whose stored birthday is not a date (so that
   * `toISOString()` throws) and submitting: the draft passes validation, but
   * the throw is caught, nothing is sent, and the draft, the selection and
   * the open form stay as they were, whatever the server would answer.
   */
  method SubmitUnparsableBirthday(user: UserRecord, response: Response, refetch: FetchResponse)
    returns (sent: seq<Request>, draft: FormData, selected: Option<string>, shown: bool)
    requires user.firstName != "" && user.lastName != "" && user.email != "" && user.phoneNumber != ""
    requires user.birthday != "" && user.gender != "" && user.image != ""
    ensures sent == []
    ensures draft == DraftFromRecord(user) && selected == Some(user.id) && shown
  {
    var c := new FormController();
    c.HandleUpdate(user);
    RecordDraftSubmittable(user);
    sent := c.HandleSubmit(response, refetch, None);
    draft, selected, shown := c.formData, c.selectedUserId, c.showForm;
  }

  /**
   * Types the given values into a freshly mounted form, picks `date` and
   * attaches `imageUri`, the way a user fills the form in.
   */
  method FillForm(c: FormController, first: string, last: string, email: string, phone: string,
                  gender: string, date: CalendarDate, imageUri: string)
    requires c.Valid() && c.formData == InitialDraft
    modifies c
    ensures c.Valid()
    ensures c.formData == FormData(first, last, email, "", phone, Str(FormatDate(date)), gender, imageUri)
    ensures c.pickedBirthday == PickedDate(date)
    ensures c.userList == old(c.userList) && c.selectedUserId == old(c.selectedUserId)
    ensures c.showForm == old(c.showForm)
  {
    TypeNames(c, first, last, email);
    TypeContact(c, phone, gender);
    c.HandleChange(Birthday, DateVal(date));
    c.HandleImageChange(Some(imageUri));
  }

  /** Types a first name, a last name and an email into a freshly mounted form. */
  method TypeNames(c: FormController, first: string, last: string, email: string)
    requires c.Valid() && c.formData == InitialDraft
    modifies c
    ensures c.Valid()
    ensures c.formData == InitialDraft.(firstName := first, lastName := last, email := email)
    ensures c.pickedBirthday == old(c.pickedBirthday)
    ensures c.userList == old(c.userList) && c.selectedUserId == old(c.selectedUserId)
    ensures c.showForm == old(c.showForm)
  {
    c.HandleChange(FirstName, Text(first));
    c.HandleChange(LastName, Text(last));
    c.HandleChange(Email, Text(email));
  }

  /** Types a phone number and a gender into a form whose other fields are untouched. */
  method TypeContact(c: FormController, phone: string, gender: string)
    requires c.Valid() && c.formData.phoneNumber == "" && c.formData.gender == ""
    modifies c
    ensures c.Valid()
    ensures c.formData == old(c.formData).(phoneNumber := phone, gender := gender)
    ensures c.pickedBirthday == old(c.pickedBirthday)
    ensures c.userList == old(c.userList) && c.selectedUserId == old(c.selectedUserId)
    ensures c.showForm == old(c.showForm)
  {
    c.HandleChange(PhoneNumber, Text(phone));
    c.HandleChange(Gender, Text(gender));
  }
}
