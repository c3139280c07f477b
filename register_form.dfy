/** The browser side of registration (app/register/page.jsx): the form
    state, `validate`, the logo's MIME check when a file is chosen, and
    `handleSubmit`, which sends a multipart body only when `validate`
    reports nothing. */
module RegistrationPage {
  import opened Ascii
  import opened Patterns
  import opened ClientPatterns
  import opened Multipart

  /** The component's `form` state. Every text input holds a string;
      `logo` is the chosen file or `null`, `logoPreview` its object URL or
      `null`. */
  datatype FormState = FormState(
    name: string, category: string, cuisineTypes: seq<string>,
    contactPerson: string, phone: string, email: string,
    address: string, pincode: string, city: string, state: string, country: string,
    coordinates: string, hours: string, website: string, socialLinks: string,
    description: string, licenseNumber: string, gstNumber: string,
    status: string, logo: Option<File>, logoPreview: Option<string>)

  const InitialForm: FormState := FormState(
    "", "", [], "", "", "", "", "", "", "", "", "", "", "", "", "", "", "", "Active", None, None)

  /** The keys of `form`, in the order of its initial value. */
  datatype FieldKey =
    | Name | Category | CuisineTypes | ContactPerson | Phone | Email
    | Address | Pincode | City | State | Country | Coordinates | Hours
    | Website | SocialLinks | Description | LicenseNumber | GstNumber
    | Status | Logo | LogoPreview

  // ---------------------------------------------------------------------
  // The messages `validate` can leave, and their text

  datatype Message =
    | NameRequired | CategoryRequired | PhoneInvalid | EmailInvalid
    | AddressRequired | AddressTooShort | PincodeInvalid
    | CityRequired | StateRequired | CountryRequired | LicenseInvalid
    | ContactRequired | ContactInvalid | CoordinatesInvalid | HoursInvalid
    | DescriptionInvalid | GstInvalid

  function MessageText(m: Message): string {
    match m
    case NameRequired => "Name is required"
    case CategoryRequired => "Category is required"
    case PhoneInvalid => "Phone must be 10 digits"
    case EmailInvalid => "Email is invalid"
    case AddressRequired => "Address is required"
    case AddressTooShort => "Address is too short"
    case PincodeInvalid => "Invalid pincode"
    case CityRequired => "City is required"
    case StateRequired => "State is required"
    case CountryRequired => "Country is required"
    case LicenseInvalid => "License number must be exactly 14 digits"
    case ContactRequired => "Contact person is required"
    case ContactInvalid => "Only letters and single spaces allowed (no digits or special characters)"
    case CoordinatesInvalid => "Coordinates must be in format: latitude,longitude"
    case HoursInvalid => "Time must be in format HH:MM AM/PM"
    case DescriptionInvalid => "Only letters, numbers & basic punctuation allowed"
    case GstInvalid => "Invalid GST format. Must be 15 alphanumeric characters"
  }

  /** The `errors` object of `validate`: a message per key. */
  type ErrorObject = map<FieldKey, Message>

  // ---------------------------------------------------------------------
  // What `validate` reports

  /** A licence number is checked only when one was entered. */
  predicate LicenseFails(licenseNumber: string) { licenseNumber != [] && !DigitsN(licenseNumber, 14) }

  // The message each rule leaves, if any. `!value.trim()` holds exactly
  // when the value is all whitespace (see `Trim`), which is how the
  // "required" rules are written here.

  function NameMessage(name: string): Option<Message> {
    if AllSpace(name) then Some(NameRequired) else None
  }

  function CategoryMessage(category: string): Option<Message> {
    if category == [] then Some(CategoryRequired) else None
  }

  function PhoneMessage(phone: string): Option<Message> {
    if !DigitsN(phone, 10) then Some(PhoneInvalid) else None
  }

  function EmailMessage(email: string): Option<Message> {
    if !ClientEmailPattern(email) then Some(EmailInvalid) else None
  }

  function AddressMessage(address: string): Option<Message> {
    if AllSpace(address) then Some(AddressRequired)
    else if |address| < 5 then Some(AddressTooShort)
    else None
  }

  function PincodeMessage(pincode: string): Option<Message> {
    if !PincodePattern(pincode) then Some(PincodeInvalid) else None
  }

  function RequiredNote(value: string, msg: Message): Option<Message> {
    if AllSpace(value) then Some(msg) else None
  }

  function LicenseMessage(licenseNumber: string): Option<Message> {
    if LicenseFails(licenseNumber) then Some(LicenseInvalid) else None
  }

  function ContactMessage(contactPerson: string): Option<Message> {
    if AllSpace(contactPerson) then Some(ContactRequired)
    else if !LetterRuns(Trim(contactPerson)) then Some(ContactInvalid)
    else None
  }

  function CoordinatesMessage(coordinates: string): Option<Message> {
    if coordinates != [] && !CoordinatesPattern(coordinates) then Some(CoordinatesInvalid) else None
  }

  function HoursMessage(hours: string): Option<Message> {
    if hours != [] && !HoursPattern(hours) then Some(HoursInvalid) else None
  }

  function DescriptionMessage(description: string): Option<Message> {
    if description != [] && !DescriptionPattern(description) then Some(DescriptionInvalid) else None
  }

  function GstMessage(gstNumber: string): Option<Message> {
    if gstNumber != [] && !GstPattern(gstNumber) then Some(GstInvalid) else None
  }

  /** `errors[key] = msg` when a rule left a message. */
  function Note(e: ErrorObject, key: FieldKey, msg: Option<Message>): ErrorObject {
    if msg.Some? then e[key := msg.value] else e
  }

  /** The message each rule of `validate` leaves, if any, one per checked
      key. */
  datatype Outcomes = Outcomes(
    name: Option<Message>, category: Option<Message>, phone: Option<Message>,
    email: Option<Message>, address: Option<Message>, pincode: Option<Message>,
    city: Option<Message>, state: Option<Message>, country: Option<Message>,
    license: Option<Message>, contactPerson: Option<Message>,
    coordinates: Option<Message>, hours: Option<Message>,
    description: Option<Message>, gst: Option<Message>)

  function Outcome(f: FormState): Outcomes {
    Outcomes(
      NameMessage(f.name), CategoryMessage(f.category), PhoneMessage(f.phone),
      EmailMessage(f.email), AddressMessage(f.address), PincodeMessage(f.pincode),
      RequiredNote(f.city, CityRequired), RequiredNote(f.state, StateRequired),
      RequiredNote(f.country, CountryRequired), LicenseMessage(f.licenseNumber),
      ContactMessage(f.contactPerson), CoordinatesMessage(f.coordinates),
      HoursMessage(f.hours), DescriptionMessage(f.description), GstMessage(f.gstNumber))
  }

  /** The outcome under one key; the keys `validate` does not check have
      none. */
  function OutcomeAt(o: Outcomes, key: FieldKey): Option<Message> {
    match key
    case Name => o.name
    case Category => o.category
    case Phone => o.phone
    case Email => o.email
    case Address => o.address
    case Pincode => o.pincode
    case City => o.city
    case State => o.state
    case Country => o.country
    case LicenseNumber => o.license
    case ContactPerson => o.contactPerson
    case Coordinates => o.coordinates
    case Hours => o.hours
    case Description => o.description
    case GstNumber => o.gst
    case _ => None
  }

  /** The object after the rules up to `city`, in the order of the source. */
  function AddressPass(o: Outcomes): ErrorObject {
    var e1 := Note(map[], Name, o.name);
    var e2 := Note(e1, Category, o.category);
    var e3 := Note(e2, Phone, o.phone);
    var e4 := Note(e3, Email, o.email);
    var e5 := Note(e4, Address, o.address);
    var e6 := Note(e5, Pincode, o.pincode);
    Note(e6, City, o.city)
  }

  /** The object after every rule up to `description`, in the order of the
      source. */
  function FirstPass(o: Outcomes): ErrorObject {
    var e8 := Note(AddressPass(o), State, o.state);
    var e9 := Note(e8, Country, o.country);
    var e10 := Note(e9, LicenseNumber, o.license);
    var e11 := Note(e10, ContactPerson, o.contactPerson);
    var e12 := Note(e11, Coordinates, o.coordinates);
    var e13 := Note(e12, Hours, o.hours);
    Note(e13, Description, o.description)
  }

  /** The object `validate` builds from the outcomes: the rules above, then
      the licence rule a second time, then the GST rule. */
  function Collect(o: Outcomes): ErrorObject {
    Note(Note(FirstPass(o), LicenseNumber, o.license), GstNumber, o.gst)
  }

  /** The keys `validate` checks. */
  const CheckedKeys: set<FieldKey> := {
    Name, Category, Phone, Email, Address, Pincode, City, State, Country,
    LicenseNumber, ContactPerson, Coordinates, Hours, Description, GstNumber }

  /** The object holding exactly the messages of the rules that fired. */
  function Reported(o: Outcomes): ErrorObject {
    map k | k in CheckedKeys && OutcomeAt(o, k).Some? :: OutcomeAt(o, k).value
  }

  /** What `validate` returns. */
  function ClientErrors(f: FormState): ErrorObject {
    Reported(Outcome(f))
  }

  /** Every rule of `validate`, stated field by field. */
  predicate ClientAccepts(f: FormState) {
    !AllSpace(f.name) && f.category != [] && DigitsN(f.phone, 10) && AtThenDot(f.email)
    && !AllSpace(f.address) && |f.address| >= 5 && PincodePattern(f.pincode)
    && !AllSpace(f.city) && !AllSpace(f.state) && !AllSpace(f.country)
    && (f.licenseNumber == [] || DigitsN(f.licenseNumber, 14))
    && !AllSpace(f.contactPerson) && SingleSpacedWords(Trim(f.contactPerson))
    && (f.coordinates == [] || CoordinatesPattern(f.coordinates))
    && (f.hours == [] || HoursPattern(f.hours))
    && (f.description == [] || DescriptionPattern(f.description))
    && (f.gstNumber == [] || GstPattern(f.gstNumber))
  }

  /** One statement of `validate`: `errors[key] = msg` when the rule fired. */
  method Record(errors: ErrorObject, key: FieldKey, msg: Option<Message>) returns (r: ErrorObject)
    ensures r == Note(errors, key, msg)
  {
    r := errors;
    if msg.Some? {
      r := r[key := msg.value];
    }
  }

  /** `validate()`: start from an empty object and record each rule's
      message, in the order of the source, the licence rule twice. */
  method Validate(f: FormState) returns (errors: ErrorObject)
    ensures errors == ClientErrors(f)
  {
    errors := map[];
    errors := Record(errors, Name, NameMessage(f.name));
    errors := Record(errors, Category, CategoryMessage(f.category));
    errors := Record(errors, Phone, PhoneMessage(f.phone));
    errors := Record(errors, Email, EmailMessage(f.email));
    errors := Record(errors, Address, AddressMessage(f.address));
    errors := Record(errors, Pincode, PincodeMessage(f.pincode));
    errors := Record(errors, City, RequiredNote(f.city, CityRequired));
    errors := Record(errors, State, RequiredNote(f.state, StateRequired));
    errors := Record(errors, Country, RequiredNote(f.country, CountryRequired));
    errors := Record(errors, LicenseNumber, LicenseMessage(f.licenseNumber));
    errors := Record(errors, ContactPerson, ContactMessage(f.contactPerson));
    errors := Record(errors, Coordinates, CoordinatesMessage(f.coordinates));
    errors := Record(errors, Hours, HoursMessage(f.hours));
    errors := Record(errors, Description, DescriptionMessage(f.description));
    errors := Record(errors, LicenseNumber, LicenseMessage(f.licenseNumber));
    errors := Record(errors, GstNumber, GstMessage(f.gstNumber));
    CollectReports(Outcome(f));
  }

  // ---------------------------------------------------------------------
  // What `validate` reports, key by key

  /** The message under `key` in `e`, if any. */
  function At(e: ErrorObject, key: FieldKey): Option<Message> {
    if key in e then Some(e[key]) else None
  }

  /** Recording a rule changes the object under that rule's key only. */
  lemma NoteAt(e: ErrorObject, key: FieldKey, msg: Option<Message>, k: FieldKey)
    ensures At(Note(e, key, msg), k) == if k == key && msg.Some? then msg else At(e, k)
  {
  }

  /** After the rules up to `city`, each of their keys holds its rule's
      message exactly when the rule fired, and no other key is set. */
  lemma AddressPassAt(o: Outcomes, key: FieldKey)
    ensures At(AddressPass(o), key) ==
      if key in {Name, Category, Phone, Email, Address, Pincode, City} then OutcomeAt(o, key) else None
  {
    var e0: ErrorObject := map[];
    var e1 := Note(e0, Name, o.name);
    NoteAt(e0, Name, o.name, key);
    var e2 := Note(e1, Category, o.category);
    NoteAt(e1, Category, o.category, key);
    var e3 := Note(e2, Phone, o.phone);
    NoteAt(e2, Phone, o.phone, key);
    var e4 := Note(e3, Email, o.email);
    NoteAt(e3, Email, o.email, key);
    var e5 := Note(e4, Address, o.address);
    NoteAt(e4, Address, o.address, key);
    var e6 := Note(e5, Pincode, o.pincode);
    NoteAt(e5, Pincode, o.pincode, key);
    NoteAt(e6, City, o.city, key);
  }

  /** After the first pass, each key checked so far holds its rule's
      message exactly when the rule fired; the GST number is not checked
      yet. */
  lemma FirstPassAt(o: Outcomes, key: FieldKey)
    ensures At(FirstPass(o), key) == if key == GstNumber then None else OutcomeAt(o, key)
  {
    var e7 := AddressPass(o);
    AddressPassAt(o, key);
    var e8 := Note(e7, State, o.state);
    NoteAt(e7, State, o.state, key);
    var e9 := Note(e8, Country, o.country);
    NoteAt(e8, Country, o.country, key);
    var e10 := Note(e9, LicenseNumber, o.license);
    NoteAt(e9, LicenseNumber, o.license, key);
    var e11 := Note(e10, ContactPerson, o.contactPerson);
    NoteAt(e10, ContactPerson, o.contactPerson, key);
    var e12 := Note(e11, Coordinates, o.coordinates);
    NoteAt(e11, Coordinates, o.coordinates, key);
    var e13 := Note(e12, Hours, o.hours);
    NoteAt(e12, Hours, o.hours, key);
    NoteAt(e13, Description, o.description, key);
  }

  /** Each key of the collected object holds its rule's message exactly
      when the rule fired; the keys no rule checks never appear. */
  lemma CollectAt(o: Outcomes, key: FieldKey)
    ensures At(Collect(o), key) == OutcomeAt(o, key)
  {
    FirstPassAt(o, key);
    NoteAt(FirstPass(o), LicenseNumber, o.license, key);
    NoteAt(Note(FirstPass(o), LicenseNumber, o.license), GstNumber, o.gst, key);
  }

  /** Two error objects that agree under every key are equal. */
  lemma AtExtensional(a: ErrorObject, b: ErrorObject)
    requires forall k :: At(a, k) == At(b, k)
    ensures a == b
  {
    assert forall k :: k in a <==> At(a, k).Some?;
    assert forall k :: k in b <==> At(b, k).Some?;
  }

  /** The licence rule's second application (after `description`) changes
      nothing: the object equals the one with every rule applied once. */
  lemma LicenseRecheckChangesNothing(o: Outcomes)
    ensures Collect(o) == Note(FirstPass(o), GstNumber, o.gst)
  {
    var once := FirstPass(o);
    var twice := Note(once, LicenseNumber, o.license);
    forall k ensures At(twice, k) == At(once, k) {
      NoteAt(once, LicenseNumber, o.license, k);
      FirstPassAt(o, LicenseNumber);
    }
    AtExtensional(twice, once);
  }

  /** Building the object statement by statement, the licence rule twice,
      leaves exactly the messages of the rules that fired. */
  lemma CollectReports(o: Outcomes)
    ensures Collect(o) == Reported(o)
  {
    forall k ensures At(Collect(o), k) == At(Reported(o), k) {
      CollectAt(o, k);
    }
    AtExtensional(Collect(o), Reported(o));
  }

  /** The object of `Reported` holds, under each key, that key's outcome. */
  lemma ReportedAt(o: Outcomes, key: FieldKey)
    ensures At(Reported(o), key) == OutcomeAt(o, key)
  {
  }

  /** Only the checked keys can hold a message. */
  lemma ReportedKeys(o: Outcomes)
    ensures Reported(o).Keys <= CheckedKeys
  {
  }

  /** No rule fired. */
  predicate Clean(o: Outcomes) {
    o.name.None? && o.category.None? && o.phone.None? && o.email.None?
    && o.address.None? && o.pincode.None? && o.city.None? && o.state.None?
    && o.country.None? && o.license.None? && o.contactPerson.None?
    && o.coordinates.None? && o.hours.None? && o.description.None? && o.gst.None?
  }

  /** The reported object is empty exactly when no rule fired. */
  lemma ReportedEmptyIff(o: Outcomes)
    ensures Reported(o) == map[] <==> Clean(o)
  {
    if Clean(o) {
      forall k ensures At(Reported(o), k) == At(map[], k) {
        ReportedAt(o, k);
      }
      AtExtensional(Reported(o), map[]);
    } else {
      if o.name.Some? { assert Name in Reported(o); }
      else if o.category.Some? { assert Category in Reported(o); }
      else if o.phone.Some? { assert Phone in Reported(o); }
      else if o.email.Some? { assert Email in Reported(o); }
      else if o.address.Some? { assert Address in Reported(o); }
      else if o.pincode.Some? { assert Pincode in Reported(o); }
      else if o.city.Some? { assert City in Reported(o); }
      else if o.state.Some? { assert State in Reported(o); }
      else if o.country.Some? { assert Country in Reported(o); }
      else if o.license.Some? { assert LicenseNumber in Reported(o); }
      else if o.contactPerson.Some? { assert ContactPerson in Reported(o); }
      else if o.coordinates.Some? { assert Coordinates in Reported(o); }
      else if o.hours.Some? { assert Hours in Reported(o); }
      else if o.description.Some? { assert Description in Reported(o); }
      else { assert GstNumber in Reported(o); }
    }
  }

  /** Name, category, city, state and country are required: each key holds
      its "is required" message exactly when the value is blank (empty
      after trimming; the category is not trimmed). */
  lemma RequiredFields(f: FormState)
    ensures At(ClientErrors(f), Name) == if Trim(f.name) == [] then Some(NameRequired) else None
    ensures At(ClientErrors(f), Category) == if f.category == [] then Some(CategoryRequired) else None
    ensures At(ClientErrors(f), City) == if Trim(f.city) == [] then Some(CityRequired) else None
    ensures At(ClientErrors(f), State) == if Trim(f.state) == [] then Some(StateRequired) else None
    ensures At(ClientErrors(f), Country) == if Trim(f.country) == [] then Some(CountryRequired) else None
  {
    ReportedAt(Outcome(f), Name);
    ReportedAt(Outcome(f), Category);
    ReportedAt(Outcome(f), City);
    ReportedAt(Outcome(f), State);
    ReportedAt(Outcome(f), Country);
  }

  /** The address gets at most one message: "required" when it is blank,
      "too short" when it is not blank but has fewer than five characters
      (counting its surrounding spaces). */
  lemma AddressRule(f: FormState)
    ensures At(ClientErrors(f), Address) == Some(AddressRequired) <==> Trim(f.address) == []
    ensures At(ClientErrors(f), Address) == Some(AddressTooShort) <==> Trim(f.address) != [] && |f.address| < 5
    ensures At(ClientErrors(f), Address) == None <==> Trim(f.address) != [] && |f.address| >= 5
  {
    ReportedAt(Outcome(f), Address);
  }

  /** Phone, email and pincode are checked against their patterns, whether
      or not they are empty: ten digits; something, `@`, something, `.`,
      something, without whitespace; five or six digits. */
  lemma FormatFields(f: FormState)
    ensures At(ClientErrors(f), Phone) == if DigitsN(f.phone, 10) then None else Some(PhoneInvalid)
    ensures At(ClientErrors(f), Email) == if AtThenDot(f.email) then None else Some(EmailInvalid)
    ensures At(ClientErrors(f), Pincode) == if PincodePattern(f.pincode) then None else Some(PincodeInvalid)
  {
    ClientEmailIff(f.email);
    ReportedAt(Outcome(f), Phone);
    ReportedAt(Outcome(f), Email);
    ReportedAt(Outcome(f), Pincode);
  }

  /** The contact person is required, and once trimmed must be letters in
      runs separated by single spaces. */
  lemma ContactRule(f: FormState)
    ensures At(ClientErrors(f), ContactPerson) == Some(ContactRequired) <==> Trim(f.contactPerson) == []
    ensures At(ClientErrors(f), ContactPerson) == Some(ContactInvalid) <==>
      Trim(f.contactPerson) != [] && !SingleSpacedWords(Trim(f.contactPerson))
    ensures At(ClientErrors(f), ContactPerson) == None <==> SingleSpacedWords(Trim(f.contactPerson))
  {
    LetterRunsIff(Trim(f.contactPerson));
    ReportedAt(Outcome(f), ContactPerson);
  }

  /** Licence, coordinates, hours, description and GST number are optional:
      an empty value never has a message, a non-empty one has it exactly
      when its pattern rejects it. */
  lemma OptionalFields(f: FormState)
    ensures At(ClientErrors(f), LicenseNumber) ==
      if f.licenseNumber != [] && !DigitsN(f.licenseNumber, 14) then Some(LicenseInvalid) else None
    ensures At(ClientErrors(f), Coordinates) ==
      if f.coordinates != [] && !CoordinatesPattern(f.coordinates) then Some(CoordinatesInvalid) else None
  {
    ReportedAt(Outcome(f), LicenseNumber);
    ReportedAt(Outcome(f), Coordinates);
  }

  lemma OptionalPatterns(f: FormState)
    ensures At(ClientErrors(f), Hours) ==
      if f.hours != [] && !HoursPattern(f.hours) then Some(HoursInvalid) else None
    ensures At(ClientErrors(f), Description) ==
      if f.description != [] && !DescriptionPattern(f.description) then Some(DescriptionInvalid) else None
    ensures At(ClientErrors(f), GstNumber) ==
      if f.gstNumber != [] && !GstPattern(f.gstNumber) then Some(GstInvalid) else None
  {
    ReportedAt(Outcome(f), Hours);
    ReportedAt(Outcome(f), Description);
    ReportedAt(Outcome(f), GstNumber);
  }

  /** Cuisine types, website, social links, status and the logo are never
      checked. */
  lemma UncheckedFields(f: FormState)
    ensures ClientErrors(f).Keys <= CheckedKeys
  {
    ReportedKeys(Outcome(f));
  }

  /** No rule fires exactly when the form satisfies every rule, stated in
      plain terms. */
  lemma CleanIff(f: FormState)
    ensures Clean(Outcome(f)) <==> ClientAccepts(f)
  {
    ClientEmailIff(f.email);
    LetterRunsIff(Trim(f.contactPerson));
  }

  /** `validate` returns an empty object exactly when the form satisfies
      every rule. */
  lemma ClientErrorsEmptyIff(f: FormState)
    ensures ClientErrors(f) == map[] <==> ClientAccepts(f)
  {
    ReportedEmptyIff(Outcome(f));
    CleanIff(f);
  }
}
