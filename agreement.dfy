/** How the page's checks and the endpoint's relate: where they agree, where
    one lets through what the other refuses, and what a form the page
    accepts becomes once posted. */
module Agreement {
  import opened Ascii
  import opened Patterns
  import opened ClientPatterns
  import opened Multipart
  import opened RestaurantModel
  import opened RestaurantIds
  import opened RegistrationPage
  import opened FormPayload
  import opened RegisterComponent
  import opened RegistrationEndpoint
  import opened PostedBody

  // ---------------------------------------------------------------------
  // Field by field

  /** The contact person: the page accepts exactly the values the schema
      accepts. */
  lemma ContactPersonAgrees(s: string)
    ensures ContactMessage(s).None? <==> CheckContactPerson(Text(s)) == []
  {
    LetterRunsIff(Trim(s));
    if s == [] {
      assert AllSpace(s);
    }
  }

  /** The phone: ten digits on both sides. */
  lemma PhoneAgrees(s: string)
    ensures PhoneMessage(s).None? <==> CheckPhone(Text(s)) == []
  {
  }

  /** The licence number: empty or fourteen digits on both sides. */
  lemma LicenseAgrees(s: string)
    ensures LicenseMessage(s).None? <==> CheckLicense(Text(s)) == []
  {
  }

  /** Every email the schema accepts, the page accepts too. */
  lemma ServerEmailIsClientEmail(s: string)
    requires CheckEmail(Text(s)) == []
    ensures EmailMessage(s).None?
  {
    ClientEmailIff(s);
    var i :| 0 < i < |s| && s[i] == '@' && (forall k | 0 <= k < |s| :: s[k] == '@' ==> k == i)
      && exists j | i + 1 < j < |s| - 1 :: s[j] == '.';
    var j :| i + 1 < j < |s| - 1 && s[j] == '.';
    assert s[i] == '@' && s[j] == '.';
  }

  /** ... but not conversely: a second `@` passes the page and fails the
      schema. */
  lemma TwoAtSignsPassOnlyThePage()
    ensures EmailMessage("a@b@c.d").None?
    ensures CheckEmail(Text("a@b@c.d")) != []
  {
    var s := "a@b@c.d";
    ClientEmailIff(s);
    assert s[1] == '@' && s[5] == '.';
    assert NoSpace(s);
    assert s[3] == '@';
  }

  /** A name of spaces only is refused by the page and accepted by the
      schema, which requires a non-empty string only. */
  lemma BlankNamePassesOnlyTheServer()
    ensures NameMessage("   ") == Some(NameRequired)
    ensures CheckRequired("name", Text("   ")) == []
  {
    assert AllSpace("   ");
  }

  /** The page never checks the website; the schema refuses a host without
      "www.". */
  lemma WebsiteOnlyCheckedByTheServer(f: FormState)
    requires f.website == "example.com"
    ensures Website !in ClientErrors(f)
    ensures CheckWebsite(Text(f.website)) != []
  {
    UncheckedFields(f);
    WebsiteExamples();
  }

  /** The page judges a logo by its MIME type and the endpoint by its file
      name: a GIF named ".png" passes the endpoint and not the page, and a
      PNG named ".gif" passes the page and not the endpoint. */
  lemma LogoChecksDiffer()
    ensures !AcceptedMime("image/gif") && AcceptedExtension(Extension("logo.png"))
    ensures AcceptedMime("image/png") && !AcceptedExtension(Extension("logo.gif"))
  {
    AfterLastDotOf("logo", "png");
    assert "logo" + "." + "png" == "logo.png";
    assert ToLower("png") == "png" by {
      var e := ToLower("png");
      assert e[0] == LowerChar('p') && e[1] == LowerChar('n') && e[2] == LowerChar('g');
    }
    GifRejected();
  }

  // ---------------------------------------------------------------------
  // From the form to the endpoint

  /** What the endpoint reads from the body the page posts: every text
      field as typed, the cuisines in order, and the logo when it is a file
      with a name. */
  function Submitted(f: FormState): Submission {
    Submission(
      Text(f.name), Text(f.category), f.cuisineTypes, Text(f.contactPerson), Text(f.phone),
      Text(f.email), Text(f.address), Text(f.pincode), Text(f.city), Text(f.state),
      Text(f.country), Text(f.coordinates), Text(f.hours), Text(f.website),
      Text(f.socialLinks), Text(f.description), Text(f.licenseNumber), Text(f.gstNumber),
      Text(f.status), if f.logo.Some? && f.logo.value.name != "" then f.logo else None)
  }

  /** A body that carries the form's text fields, cuisines and logo parses
      to what the form submits. */
  lemma ParseReadsBack(p: seq<Entry>, f: FormState)
    requires Field(p, "name") == Text(f.name)
    requires Field(p, "category") == Text(f.category)
    requires Field(p, "contactPerson") == Text(f.contactPerson)
    requires Field(p, "phone") == Text(f.phone)
    requires Field(p, "email") == Text(f.email)
    requires Field(p, "address") == Text(f.address)
    requires Field(p, "pincode") == Text(f.pincode)
    requires Field(p, "city") == Text(f.city)
    requires Field(p, "state") == Text(f.state)
    requires Field(p, "country") == Text(f.country)
    requires Field(p, "coordinates") == Text(f.coordinates)
    requires Field(p, "hours") == Text(f.hours)
    requires Field(p, "website") == Text(f.website)
    requires Field(p, "socialLinks") == Text(f.socialLinks)
    requires Field(p, "description") == Text(f.description)
    requires Field(p, "licenseNumber") == Text(f.licenseNumber)
    requires Field(p, "gstNumber") == Text(f.gstNumber)
    requires Field(p, "status") == Text(f.status)
    requires Texts(GetAll(p, CuisineKey)) == f.cuisineTypes
    requires NamedLogo(p) == if f.logo.Some? && f.logo.value.name != "" then f.logo else None
    ensures Parse(p) == Submitted(f)
  {
  }

  /** Parsing the posted body gives back the form. */
  lemma PayloadRoundTrip(f: FormState)
    ensures Parse(Payload(f)) == Submitted(f)
  {
    NameFieldsArrive(f);
    ContactFieldsArrive(f);
    PlaceFieldsArrive(f);
    RegionFieldsArrive(f);
    ProfileFieldsArrive(f);
    RegistrationFieldsArrive(f);
    CuisinesOfPayload(f);
    LogoOfPayload(f);
    ParseReadsBack(Payload(f), f);
  }

  /** The schema's rules the page does not check the same way: the email
      with a single `@`, the website, and the status. */
  predicate ServerOnlyRules(f: FormState) {
    CheckEmail(Text(f.email)) == [] && CheckWebsite(Text(f.website)) == []
    && CheckStatus(Text(f.status)) == []
  }

  /** A form the page accepts that also meets the schema's own rules
      becomes a conforming document. */
  lemma AcceptedFormConforms(records: seq<Restaurant>, f: FormState)
    requires ClientAccepts(f) && ServerOnlyRules(f)
    ensures Conforms(DocumentFor(records, Submitted(f)))
  {
    var d := DocumentFor(records, Submitted(f));
    assert d.name == Text(f.name) && d.address == Text(f.address) && d.city == Text(f.city);
    assert f.name != [] && f.address != [] && f.city != [];
  }

  /** What the page reads from the endpoint's response: `res.ok` (a 2xx
      status) and the `error` field of the JSON body. */
  function ReplyOf(resp: Response): (r: Reply)
    ensures r.Reply? && (r.ok <==> 200 <= resp.status < 300)
    ensures r.error.None? <==> resp.body.MessageBody?
  {
    Reply(200 <= resp.status < 300,
      match resp.body
      case MessageBody(_) => None
      case ErrorBody(e) => Some(e)
      case ErrorDetail(e, _) => Some(e))
  }

  /** The page shows its success message for the endpoint's response
      exactly when the endpoint registered the restaurant; every refusal
      is shown as a failure. */
  lemma SuccessShownOnlyOn200(records: seq<Restaurant>, sub: Submission, writeError: Option<string>)
    ensures var resp := Handle(records, sub, writeError).0;
      ReplyMessage(ReplyOf(resp)) == RegisteredMessage <==> resp.status == 200
  {
    HandleShape(records, sub, writeError);
    var resp := Handle(records, sub, writeError).0;
    if resp.status != 200 {
      var m := ReplyMessage(ReplyOf(resp));
      assert m[0] == FailureMark[0];
      assert RegisteredMessage[0] != FailureMark[0];
    }
  }

  /** A form the page accepts and posts, over records whose ids were all
      generated by the endpoint, registers: the endpoint answers 200 and the
      page shows its success message. */
  lemma AcceptedFormRegisters(records: seq<Restaurant>, f: FormState, writeError: Option<string>)
    requires ClientAccepts(f) && ServerOnlyRules(f)
    requires LogoStepPasses(Submitted(f), writeError)
    requires WellIssued(Ids(records))
    requires NoDigit(Prefix(Text(f.city), Text(f.category)))
    ensures Handle(records, Parse(Payload(f)), writeError).0 == Response(200, MessageBody(Registered))
    ensures ReplyMessage(ReplyOf(Handle(records, Parse(Payload(f)), writeError).0)) == RegisteredMessage
  {
    PayloadRoundTrip(f);
    AcceptedFormConforms(records, f);
    SequentialRegistrationsSucceed(records, Submitted(f), writeError);
    SuccessShownOnlyOn200(records, Submitted(f), writeError);
  }
}
