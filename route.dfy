/** The registration endpoint, `POST` in app/api/resturants/route.js: check
    the logo's extension, pick the logo URL, generate the id against the
    stored ids, build and save the document, and map the outcome to a
    response. The file write is represented only by its possible failure. */
module RegistrationEndpoint {
  import opened Ascii
  import opened Multipart
  import opened RestaurantModel
  import opened RestaurantIds

  datatype Body =
    | MessageBody(message: string)
    | ErrorBody(error: string)
    | ErrorDetail(error: string, detail: string)

  datatype Response = Response(status: nat, body: Body)

  const LogoRejected: string := "Only PNG or JPG files are allowed for logo."
  const Registered: string := "Restaurant Registered Successfully"
  const RegistrationFailed: string := "Error registering restaurant"

  /** The text after the last `.` of a name, or the whole name when it has
      no `.`: `name.split(".").pop()`. */
  function AfterLastDot(name: string): (t: string)
    ensures |t| <= |name|
  {
    if name == [] || name[|name| - 1] == '.' then []
    else AfterLastDot(name[..|name| - 1]) + [name[|name| - 1]]
  }

  /** `AfterLastDot` is a suffix without a dot, preceded by a dot unless it
      is the whole name. */
  lemma {:induction false} AfterLastDotSuffix(name: string)
    ensures var t := AfterLastDot(name);
      t == name[|name| - |t|..] && (forall i :: 0 <= i < |t| ==> t[i] != '.')
      && (|t| < |name| ==> name[|name| - |t| - 1] == '.')
    decreases |name|
  {
    if name == [] || name[|name| - 1] == '.' {
    } else {
      var init := name[..|name| - 1];
      AfterLastDotSuffix(init);
      var u := AfterLastDot(init);
      var t := AfterLastDot(name);
      assert t == u + [name[|name| - 1]];
      assert name[|name| - |t|..] == init[|init| - |u|..] + [name[|name| - 1]];
      if |t| < |name| {
        assert name[|name| - |t| - 1] == init[|init| - |u| - 1];
      }
    }
  }

  /** `logo.name.split(".").pop().toLowerCase()` */
  function Extension(name: string): string {
    ToLower(AfterLastDot(name))
  }

  predicate AcceptedExtension(ext: string) {
    ext == "png" || ext == "jpg" || ext == "jpeg"
  }

  /** The extension is the lower-cased text after the last dot; a name
      without a dot is its own extension. */
  lemma ExtensionRule(name: string)
    ensures forall i :: 0 <= i < |Extension(name)| ==> Extension(name)[i] != '.'
    ensures (forall i :: 0 <= i < |name| ==> name[i] != '.') ==> Extension(name) == ToLower(name)
    ensures forall i :: 0 <= i < |name| && name[i] == '.' && (forall j :: i < j < |name| ==> name[j] != '.') ==>
      Extension(name) == ToLower(name[i + 1..])
  {
    var t := AfterLastDot(name);
    AfterLastDotSuffix(name);
    var k := |name| - |t|;
    forall i | 0 <= i < |Extension(name)| ensures Extension(name)[i] != '.' {
      assert Extension(name)[i] == LowerChar(t[i]);
    }
    forall m | k <= m < |name| ensures name[m] != '.' {
      assert name[m] == t[m - k];
    }
    forall i | 0 <= i < |name| && name[i] == '.' && (forall j :: i < j < |name| ==> name[j] != '.')
      ensures Extension(name) == ToLower(name[i + 1..])
    {
      assert i < k;
      assert name[k - 1] == '.';
      assert t == name[i + 1..];
    }
  }

  /** The extension of "stem.ext", for an `ext` without a dot, is `ext`
      lower-cased. */
  lemma {:induction false} AfterLastDotOf(stem: string, ext: string)
    requires forall i :: 0 <= i < |ext| ==> ext[i] != '.'
    ensures AfterLastDot(stem + "." + ext) == ext
    decreases |ext|
  {
    var name := stem + "." + ext;
    if ext == [] {
    } else {
      var init := ext[..|ext| - 1];
      AfterLastDotOf(stem, init);
      assert name[..|name| - 1] == stem + "." + init;
      assert init + [ext[|ext| - 1]] == ext;
    }
  }

  /** An upper-case extension is accepted. */
  lemma UpperCaseExtension()
    ensures AcceptedExtension(Extension("logo.PNG"))
  {
    AfterLastDotOf("logo", "PNG");
    assert "logo" + "." + "PNG" == "logo.PNG";
    var e := ToLower("PNG");
    assert e[0] == LowerChar('P') && e[1] == LowerChar('N') && e[2] == LowerChar('G');
    assert e == "png";
  }

  /** A GIF is refused. */
  lemma GifRejected()
    ensures !AcceptedExtension(Extension("logo.gif"))
  {
    AfterLastDotOf("logo", "gif");
    assert "logo" + "." + "gif" == "logo.gif";
    assert Extension("logo.gif")[2] == LowerChar('f');
  }

  /** A double extension is judged by its last part only. */
  lemma DoubleExtensionRejected()
    ensures !AcceptedExtension(Extension("logo.png.exe"))
  {
    AfterLastDotOf("logo.png", "exe");
    assert "logo.png" + "." + "exe" == "logo.png.exe";
    assert Extension("logo.png.exe")[2] == LowerChar('e');
  }

  // ---------------------------------------------------------------------
  // Reading the multipart body

  /** `Object.fromEntries(formData.entries())[key]`: a string field, or
      missing. A file posted under a text key is read as missing. */
  function Field(entries: seq<Entry>, key: string): Value {
    match Last(entries, key)
    case None => Undefined
    case Some(part) => if part.Str? then Text(part.s) else Undefined
  }

  /** The string parts of a list of parts, in order. */
  function Texts(parts: seq<Part>): (ss: seq<string>)
    ensures |ss| <= |parts|
    ensures (forall i :: 0 <= i < |parts| ==> parts[i].Str?) ==>
      |ss| == |parts| && forall i :: 0 <= i < |parts| ==> ss[i] == parts[i].s
  {
    if parts == [] then []
    else (if parts[0].Str? then [parts[0].s] else []) + Texts(parts[1..])
  }

  /** `logo && logo.name`: the first `logo` part, when it is a file with a
      non-empty name. A string part (the browser sends "null" when no file
      was chosen) has no name. */
  function NamedLogo(entries: seq<Entry>): (r: Option<File>)
    ensures r.Some? ==> r.value.name != "" && Get(entries, "logo") == Some(Blob(r.value))
  {
    match Get(entries, "logo")
    case Some(Blob(f)) => if f.name != "" then Some(f) else None
    case _ => None
  }

  /** What the handler reads from the body before doing anything else:
      `fields`, `cuisines` and the named `logo`. */
  datatype Submission = Submission(
    name: Value, category: Value, cuisineTypes: seq<string>,
    contactPerson: Value, phone: Value, email: Value,
    address: Value, pincode: Value, city: Value, state: Value, country: Value,
    coordinates: Value, hours: Value, website: Value, socialLinks: Value,
    description: Value, licenseNumber: Value, gstNumber: Value,
    status: Value, logo: Option<File>)

  function Parse(entries: seq<Entry>): (sub: Submission)
    ensures sub.name == Field(entries, "name") && sub.city == Field(entries, "city")
    ensures sub.category == Field(entries, "category")
    ensures sub.cuisineTypes == Texts(GetAll(entries, "cuisineTypes[]"))
    ensures sub.logo == NamedLogo(entries)
  {
    Submission(
      Field(entries, "name"), Field(entries, "category"), Texts(GetAll(entries, "cuisineTypes[]")),
      Field(entries, "contactPerson"), Field(entries, "phone"), Field(entries, "email"),
      Field(entries, "address"), Field(entries, "pincode"), Field(entries, "city"),
      Field(entries, "state"), Field(entries, "country"), Field(entries, "coordinates"),
      Field(entries, "hours"), Field(entries, "website"), Field(entries, "socialLinks"),
      Field(entries, "description"), Field(entries, "licenseNumber"), Field(entries, "gstNumber"),
      Field(entries, "status"), NamedLogo(entries))
  }

  // ---------------------------------------------------------------------
  // The handler

  /** `new Restaurant({...})`: the document built from the submission, the
      logo URL and the id, with the schema default applied. Every submitted
      field is carried over unchanged. */
  function Document(sub: Submission, logoUrl: string, id: string): (d: Restaurant)
    ensures d.restaurantId == id && d.logoUrl == logoUrl
    ensures d.(status := sub.status) == Restaurant(
      sub.name, sub.category, sub.cuisineTypes, sub.contactPerson, sub.phone, sub.email,
      sub.address, sub.pincode, sub.city, sub.state, sub.country, sub.coordinates,
      sub.hours, sub.website, sub.socialLinks, sub.description, sub.licenseNumber,
      sub.gstNumber, sub.status, logoUrl, id)
    ensures sub.status.Undefined? ==> d.status == Text("Active")
    ensures !sub.status.Undefined? ==> d.status == sub.status
  {
    WithDefaults(Restaurant(
      sub.name, sub.category, sub.cuisineTypes, sub.contactPerson, sub.phone, sub.email,
      sub.address, sub.pincode, sub.city, sub.state, sub.country, sub.coordinates,
      sub.hours, sub.website, sub.socialLinks, sub.description, sub.licenseNumber,
      sub.gstNumber, sub.status, logoUrl, id))
  }

  const DuplicateKeyLead: string := "E11000 duplicate key error collection: restaurants index: restaurantId_1 dup key: { restaurantId: \""
  const DuplicateKeyTail: string := "\" }"

  /** The driver's message for a second document with the same id. */
  function DuplicateKeyDetail(id: string): string {
    DuplicateKeyLead + id + DuplicateKeyTail
  }

  /** The id the handler computes against the current records. */
  function IdFor(records: seq<Restaurant>, sub: Submission): string {
    NewId(sub.city, sub.category, Ids(records))
  }

  /** `logoUrl`: "" unless a named logo is present, then "/uploads/"
      followed by the file's name. */
  function LogoUrl(sub: Submission): string {
    match sub.logo
    case None => ""
    case Some(f) => "/uploads/" + f.name
  }

  /** The document the handler saves, once past the logo step. */
  function DocumentFor(records: seq<Restaurant>, sub: Submission): Restaurant {
    Document(sub, LogoUrl(sub), IdFor(records, sub))
  }

  /** `newRestaurant.save()` and the mapping of its outcome to a response:
      the response and the records after. */
  function Persist(records: seq<Restaurant>, doc: Restaurant): (Response, seq<Restaurant>) {
    var errs := Errors(doc);
    if errs != [] then (Response(400, ErrorBody(errs[0].message)), records)
    else if doc.restaurantId in Ids(records) then
      (Response(500, ErrorDetail(RegistrationFailed, DuplicateKeyDetail(doc.restaurantId))), records)
    else (Response(200, MessageBody(Registered)), records + [doc])
  }

  /** Whether the request gets past the logo step: no named logo, or one
      with an accepted extension that was written to disk. */
  predicate LogoStepPasses(sub: Submission, writeError: Option<string>) {
    sub.logo.None? || (AcceptedExtension(Extension(sub.logo.value.name)) && writeError.None?)
  }

  /** The handler as a function of the stored records, the parsed request
      and the outcome of the file write: the response and the records after. */
  function Handle(records: seq<Restaurant>, sub: Submission, writeError: Option<string>): (Response, seq<Restaurant>) {
    if sub.logo.Some? && !AcceptedExtension(Extension(sub.logo.value.name)) then
      (Response(400, ErrorBody(LogoRejected)), records)
    else if sub.logo.Some? && writeError.Some? then
      (Response(500, ErrorDetail(RegistrationFailed, writeError.value)), records)
    else Persist(records, DocumentFor(records, sub))
  }

  /** `POST`: the steps of the handler against the collection. */
  method Post(store: Store, entries: seq<Entry>, writeError: Option<string>) returns (resp: Response)
    requires store.Valid()
    modifies store
    ensures store.Valid()
    ensures (resp, store.records) == Handle(old(store.records), Parse(entries), writeError)
  {
    var sub := Parse(entries);
    var logoUrl := "";
    if sub.logo.Some? {
      var ext := Extension(sub.logo.value.name);
      if !AcceptedExtension(ext) {
        return Response(400, ErrorBody(LogoRejected));
      }
      if writeError.Some? {
        return Response(500, ErrorDetail(RegistrationFailed, writeError.value));
      }
      logoUrl := "/uploads/" + sub.logo.value.name;
    }
    assert logoUrl == LogoUrl(sub);
    resp := Register(store, sub, logoUrl);
  }

  /** The id step of `POST`: the codes of the city and the category, the
      number of stored ids under that prefix, and the next sequence number. */
  method GenerateId(store: Store, sub: Submission) returns (restaurantId: string)
    ensures restaurantId == NewId(sub.city, sub.category, Ids(store.records))
  {
    var cityCode := Code(sub.city);
    var categoryCode := Code(sub.category);
    var prefix := cityCode + categoryCode;
    var count := store.CountDocuments(prefix);
    restaurantId := prefix + Sequence(count);
  }

  /** The part of `POST` after the logo step: count, generate the id, build
      the document and save it. */
  method Register(store: Store, sub: Submission, logoUrl: string) returns (resp: Response)
    requires store.Valid()
    modifies store
    ensures store.Valid()
    ensures (resp, store.records) ==
      Persist(old(store.records), Document(sub, logoUrl, IdFor(old(store.records), sub)))
  {
    var restaurantId := GenerateId(store, sub);
    var doc := Document(sub, logoUrl, restaurantId);
    ghost var before := store.records;
    var outcome := store.Save(doc);
    ghost var expected := Persist(before, doc);
    match outcome {
      case Saved =>
        resp := Response(200, MessageBody(Registered));
      case ValidationFailed(errs) =>
        resp := Response(400, ErrorBody(errs[0].message));
      case DuplicateKey(id) =>
        resp := Response(500, ErrorDetail(RegistrationFailed, DuplicateKeyDetail(id)));
    }
    assert (resp, store.records) == expected;
  }

  // ---------------------------------------------------------------------
  // What the handler promises

  /** Every response is one of three: 200 with the success message, 400
      with the logo message or the first validation error's message, or 500
      with the generic error and a detail (the write failure or the
      duplicate key). The records grow by the one new document exactly on
      200, and are otherwise left as they were. */
  lemma HandleShape(records: seq<Restaurant>, sub: Submission, writeError: Option<string>)
    ensures var (resp, after) := Handle(records, sub, writeError);
      var doc := DocumentFor(records, sub);
      (resp.status == 200 || resp.status == 400 || resp.status == 500)
      && (resp.status == 200 ==> resp.body == MessageBody(Registered) && after == records + [doc])
      && (resp.status == 400 ==>
            resp.body.ErrorBody?
            && (resp.body.error == LogoRejected
                || (Errors(doc) != [] && resp.body.error == Errors(doc)[0].message)))
      && (resp.status == 500 ==>
            resp.body.ErrorDetail? && resp.body.error == RegistrationFailed
            && ((writeError.Some? && resp.body.detail == writeError.value)
                || resp.body.detail == DuplicateKeyDetail(doc.restaurantId)))
      && (resp.status != 200 ==> after == records)
  {
    if sub.logo.Some? && !AcceptedExtension(Extension(sub.logo.value.name)) {
    } else if sub.logo.Some? && writeError.Some? {
    } else {
      var doc := DocumentFor(records, sub);
      assert Handle(records, sub, writeError) == Persist(records, doc);
      var errs := Errors(doc);
      if errs != [] {
      } else if doc.restaurantId in Ids(records) {
      } else {
      }
    }
  }

  /** A logo whose extension is not png, jpg or jpeg is answered with 400
      and the message about allowed types, and nothing is saved. */
  lemma BadLogoRejected(records: seq<Restaurant>, sub: Submission, writeError: Option<string>)
    requires sub.logo.Some? && !AcceptedExtension(Extension(sub.logo.value.name))
    ensures Handle(records, sub, writeError) == (Response(400, ErrorBody(LogoRejected)), records)
  {
  }

  /** A successful registration stores a conforming document whose id
      starts with the prefix of the submitted city and category and is new,
      whose logo URL is "" without a named logo and "/uploads/" + its name
      with an accepted one, and whose fields are the submitted ones. */
  lemma SuccessStoresDocument(records: seq<Restaurant>, sub: Submission, writeError: Option<string>)
    requires Handle(records, sub, writeError).0.status == 200
    ensures var (resp, after) := Handle(records, sub, writeError);
      var doc := DocumentFor(records, sub);
      resp.body == MessageBody(Registered) && after == records + [doc]
      && StartsWith(doc.restaurantId, Prefix(sub.city, sub.category))
      && doc.restaurantId !in Ids(records)
      && Conforms(doc)
      && (sub.logo.None? ==> doc.logoUrl == "")
      && (sub.logo.Some? ==> doc.logoUrl == "/uploads/" + sub.logo.value.name
                             && AcceptedExtension(Extension(sub.logo.value.name)))
      && doc.name == sub.name && doc.cuisineTypes == sub.cuisineTypes
  {
    ErrorsEmptyIff(DocumentFor(records, sub));
  }

  /** Past the logo step, a document that fails validation is answered
      with 400 and the first error's message, and nothing is saved. */
  lemma ValidationErrorIs400(records: seq<Restaurant>, sub: Submission, writeError: Option<string>)
    requires LogoStepPasses(sub, writeError)
    requires !Conforms(DocumentFor(records, sub))
    ensures var errs := Errors(DocumentFor(records, sub));
      errs != [] && Handle(records, sub, writeError) == (Response(400, ErrorBody(errs[0].message)), records)
  {
    var doc := DocumentFor(records, sub);
    assert Handle(records, sub, writeError) == Persist(records, doc);
    ErrorsEmptyIff(doc);
  }

  /** A request without name, address or city never registers. */
  lemma RequiredFieldsMissing(records: seq<Restaurant>, sub: Submission, writeError: Option<string>)
    requires !Present(sub.name) || !Present(sub.city) || !Present(sub.address)
    ensures Handle(records, sub, writeError).0.status != 200
    ensures Handle(records, sub, writeError).1 == records
  {
    var doc := DocumentFor(records, sub);
    assert doc.name == sub.name && doc.city == sub.city && doc.address == sub.address;
    ErrorsEmptyIff(doc);
  }

  /** Past the logo step, the handler saves the document built from the
      request under the generated id. */
  lemma PastLogoStep(records: seq<Restaurant>, sub: Submission, writeError: Option<string>)
    requires LogoStepPasses(sub, writeError)
    ensures Handle(records, sub, writeError) == Persist(records, DocumentFor(records, sub))
    ensures DocumentFor(records, sub).restaurantId == NewId(sub.city, sub.category, Ids(records))
  {
  }

  /** Saving a conforming document under a fresh id registers it. */
  lemma PersistFresh(records: seq<Restaurant>, doc: Restaurant)
    requires Conforms(doc) && doc.restaurantId !in Ids(records)
    ensures Persist(records, doc) == (Response(200, MessageBody(Registered)), records + [doc])
    ensures Ids(records + [doc]) == Ids(records) + [doc.restaurantId]
  {
    ErrorsEmptyIff(doc);
  }

  /** Over records whose ids were all generated this way, from city and
      category codes without digits, a conforming request is never refused
      by the unique index: it registers, and the invariant carries over. */
  lemma SequentialRegistrationsSucceed(records: seq<Restaurant>, sub: Submission, writeError: Option<string>)
    requires WellIssued(Ids(records))
    requires NoDigit(Prefix(sub.city, sub.category))
    requires LogoStepPasses(sub, writeError)
    requires Conforms(DocumentFor(records, sub))
    ensures Handle(records, sub, writeError).0 == Response(200, MessageBody(Registered))
    ensures WellIssued(Ids(Handle(records, sub, writeError).1))
  {
    PastLogoStep(records, sub, writeError);
    NewIdFresh(Ids(records), sub.city, sub.category);
    PersistFresh(records, DocumentFor(records, sub));
  }
}
