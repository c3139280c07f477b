/** The `Restaurant` document schema (backend/models/resturant.js) and the
    collection that stores it: required paths, the five custom validators,
    the `status` enum and its default, and the unique index on
    `restaurantId`. */
module RestaurantModel {
  import opened Ascii
  import opened Patterns

  /** A path's value as the document holds it: absent (`undefined`),
      `null`, or a string. */
  datatype Value = Undefined | Null | Text(s: string)

  /** The persisted registration record. */
  datatype Restaurant = Restaurant(
    name: Value, category: Value, cuisineTypes: seq<string>,
    contactPerson: Value, phone: Value, email: Value,
    address: Value, pincode: Value, city: Value, state: Value, country: Value,
    coordinates: Value, hours: Value, website: Value, socialLinks: Value,
    description: Value, licenseNumber: Value, gstNumber: Value,
    status: Value, logoUrl: string, restaurantId: string)

  /** One validation failure: the path and the message reported for it. */
  datatype SchemaError = SchemaError(path: string, message: string)

  /** The text a validator's regex and its message see: `null` and
      `undefined` are coerced to their names. */
  function Shown(v: Value): string {
    match v
    case Undefined => "undefined"
    case Null => "null"
    case Text(s) => s
  }

  /** A required string path is satisfied by a non-empty string only. */
  predicate Present(v: Value) { v.Text? && v.s != "" }

  // ---------------------------------------------------------------------
  // The regexes of the email and website validators

  /** `[^\s@]+` */
  predicate EmailBlock(t: string) {
    |t| > 0 && forall k :: 0 <= k < |t| ==> !IsSpace(t[k]) && t[k] != '@'
  }

  /** `/^[^\s@]+@[^\s@]+\.[^\s@]+$/` */
  predicate EmailPattern(s: string) {
    exists i, j | 0 <= i < j < |s| ::
      s[i] == '@' && s[j] == '.' && EmailBlock(s[..i]) && EmailBlock(s[i + 1..j]) && EmailBlock(s[j + 1..])
  }

  /** The plain reading of the email pattern: no whitespace, exactly one `@`
      with text before it, and after it a `.` that is neither the first nor
      the last character of the domain. */
  predicate OneAtWithDottedDomain(s: string) {
    NoSpace(s) &&
    exists i | 0 < i < |s| :: s[i] == '@' && (forall k | 0 <= k < |s| :: s[k] == '@' ==> k == i)
      && exists j | i + 1 < j < |s| - 1 :: s[j] == '.'
  }

  /** `[a-zA-Z0-9-]+` */
  predicate HostLabel(t: string) {
    |t| > 0 && forall k :: 0 <= k < |t| ==> IsLetter(t[k]) || IsDigit(t[k]) || t[k] == '-'
  }

  /** `[a-z]{2,}` */
  predicate LowerWord(t: string) {
    |t| >= 2 && forall k :: 0 <= k < |t| ==> IsLower(t[k])
  }

  /** `[a-z]{2,}(\.[a-z]{2,})?` */
  predicate TopLevel(t: string) {
    LowerWord(t) || exists e | 0 < e < |t| :: t[e] == '.' && LowerWord(t[..e]) && LowerWord(t[e + 1..])
  }

  /** `/^www\.[a-zA-Z0-9-]+\.[a-z]{2,}(\.[a-z]{2,})?$/` */
  predicate WebsitePattern(s: string) {
    |s| >= 4 && s[..4] == "www." &&
    exists d | 4 < d < |s| :: s[d] == '.' && HostLabel(s[4..d]) && TopLevel(s[d + 1..])
  }

  // ---------------------------------------------------------------------
  // Per-path checks, each reporting at most one error: a failing
  // `required` is reported instead of the path's own validator, and custom
  // validators are skipped for an `undefined` value.

  function RequiredMessage(path: string): string {
    "Path `" + path + "` is required."
  }

  // The custom validators' messages, after the rejected value.
  const ContactPersonRequired: string := "Contact person is required"
  const NotAName: string := " is not a valid name! Only letters and single spaces allowed, and it should not be empty."
  const NotAPhone: string := " is not a valid 10-digit phone number!"
  const NotAnEmail: string := " is not a valid email address!"
  const NotAWebsite: string := " is not a valid website! Only format like \"www.example.com\" is allowed."
  const NotAStatus: string := "` is not a valid enum value for path `status`."
  const NotALicense: string := " is invalid. License number must be 14 digits."

  function CheckRequired(path: string, v: Value): (errs: seq<SchemaError>)
    ensures errs == [] <==> Present(v)
    ensures forall e :: e in errs ==> e.path == path
  {
    if Present(v) then [] else [SchemaError(path, RequiredMessage(path))]
  }

  function CheckContactPerson(v: Value): (errs: seq<SchemaError>)
    ensures errs == [] <==> Present(v) && SingleSpacedWords(Trim(v.s))
    ensures forall e :: e in errs ==> e.path == "contactPerson"
  {
    ContactNameIff(v);
    if !Present(v) then [SchemaError("contactPerson", ContactPersonRequired)]
    else if LetterRuns(Trim(v.s)) then []
    else [SchemaError("contactPerson", v.s + NotAName)]
  }

  lemma ContactNameIff(v: Value)
    ensures v.Text? ==> (LetterRuns(Trim(v.s)) <==> SingleSpacedWords(Trim(v.s)))
  {
    if v.Text? { LetterRunsIff(Trim(v.s)); }
  }

  function CheckPhone(v: Value): (errs: seq<SchemaError>)
    ensures errs == [] <==> v.Text? && DigitsN(v.s, 10)
    ensures forall e :: e in errs ==> e.path == "phone"
  {
    if !Present(v) then CheckRequired("phone", v)
    else if DigitsN(v.s, 10) then []
    else [SchemaError("phone", v.s + NotAPhone)]
  }

  function CheckEmail(v: Value): (errs: seq<SchemaError>)
    ensures errs == [] <==> v.Undefined? || (v.Text? && OneAtWithDottedDomain(v.s))
    ensures forall e :: e in errs ==> e.path == "email"
  {
    EmailPatternIff(Shown(v));
    if v.Undefined? || EmailPattern(Shown(v)) then []
    else [SchemaError("email", Shown(v) + NotAnEmail)]
  }

  function CheckWebsite(v: Value): (errs: seq<SchemaError>)
    ensures errs == [] <==> v.Undefined? || v == Text("") || (v.Text? && WebsitePattern(v.s))
    ensures forall e :: e in errs ==> e.path == "website"
  {
    if v.Undefined? || v == Text("") || WebsitePattern(Shown(v)) then []
    else [SchemaError("website", Shown(v) + NotAWebsite)]
  }

  function CheckLicense(v: Value): (errs: seq<SchemaError>)
    ensures errs == [] <==> v != Undefined ==> v == Text("") || v == Null || DigitsN(v.s, 14)
    ensures forall e :: e in errs ==> e.path == "licenseNumber"
  {
    if v.Undefined? || v == Text("") || v == Null || DigitsN(Shown(v), 14) then []
    else [SchemaError("licenseNumber", Shown(v) + NotALicense)]
  }

  const StatusValues: seq<string> := ["Active", "Inactive"]

  /** The enum validator: accepts a missing value or one of the listed ones. */
  function CheckStatus(v: Value): (errs: seq<SchemaError>)
    ensures errs == [] <==> !v.Text? || v.s == "Active" || v.s == "Inactive"
    ensures forall e :: e in errs ==> e.path == "status"
  {
    if !v.Text? || v.s in StatusValues then []
    else [SchemaError("status", "`" + v.s + NotAStatus)]
  }

  /** All validation errors of a document, in the order of the schema's
      paths. */
  function Errors(d: Restaurant): (errs: seq<SchemaError>)
    ensures forall e :: e in errs ==> e.path in ValidatedPaths
  {
    CheckRequired("name", d.name) + CheckContactPerson(d.contactPerson) + CheckPhone(d.phone)
    + CheckEmail(d.email) + CheckRequired("address", d.address) + CheckRequired("city", d.city)
    + CheckWebsite(d.website) + CheckLicense(d.licenseNumber) + CheckStatus(d.status)
  }

  const ValidatedPaths: set<string> :=
    {"name", "contactPerson", "phone", "email", "address", "city", "website", "licenseNumber", "status"}

  /** Every rule of the schema, stated in plain terms. */
  predicate Conforms(d: Restaurant) {
    Present(d.name) && Present(d.address) && Present(d.city)
    && d.contactPerson.Text? && SingleSpacedWords(Trim(d.contactPerson.s))
    && d.phone.Text? && DigitsN(d.phone.s, 10)
    && (d.email.Text? ==> OneAtWithDottedDomain(d.email.s)) && !d.email.Null?
    && (d.website.Text? ==> d.website.s == "" || WebsitePattern(d.website.s)) && !d.website.Null?
    && (d.licenseNumber.Text? ==> d.licenseNumber.s == "" || DigitsN(d.licenseNumber.s, 14))
    && (d.status.Text? ==> d.status.s == "Active" || d.status.s == "Inactive")
  }

  /** A document passes validation exactly when it meets every rule. */
  lemma ErrorsEmptyIff(d: Restaurant)
    ensures Errors(d) == [] <==> Conforms(d)
  {
    var a, b, c := CheckRequired("name", d.name), CheckContactPerson(d.contactPerson), CheckPhone(d.phone);
    var e, f, g := CheckEmail(d.email), CheckRequired("address", d.address), CheckRequired("city", d.city);
    var h, l, m := CheckWebsite(d.website), CheckLicense(d.licenseNumber), CheckStatus(d.status);
    assert Errors(d) == a + b + c + e + f + g + h + l + m;
    assert |Errors(d)| == |a| + |b| + |c| + |e| + |f| + |g| + |h| + |l| + |m|;
  }

  /** The `status` default: applied to a missing value only. */
  function WithDefaults(d: Restaurant): (r: Restaurant)
    ensures r.status.Text? || r.status.Null?
    ensures d.status != Undefined ==> r == d
    ensures r.(status := d.status) == d
  {
    if d.status.Undefined? then d.(status := Text("Active")) else d
  }

  /** With the default applied, `status` fails validation exactly when it is
      a string other than "Active" and "Inactive"; a missing status ends up
      "Active". */
  lemma StatusRule(d: Restaurant)
    ensures CheckStatus(WithDefaults(d).status) == [] <==>
      d.status == Undefined || d.status == Null || d.status == Text("Active") || d.status == Text("Inactive")
    ensures d.status == Undefined ==> WithDefaults(d).status == Text("Active")
  {
  }

  // ---------------------------------------------------------------------
  // The email and website patterns, read in plain terms

  /** The email pattern accepts exactly the strings with no whitespace, one
      `@` with something before it, and a `.` after it that neither starts
      nor ends the domain. */
  lemma EmailPatternIff(s: string)
    ensures EmailPattern(s) <==> OneAtWithDottedDomain(s)
  {
    if EmailPattern(s) { EmailPatternReads(s); }
    if OneAtWithDottedDomain(s) { EmailPatternMatches(s); }
  }

  lemma EmailPatternReads(s: string)
    requires EmailPattern(s)
    ensures OneAtWithDottedDomain(s)
  {
    var i, j :| 0 <= i < j < |s| && s[i] == '@' && s[j] == '.' && EmailBlock(s[..i])
      && EmailBlock(s[i + 1..j]) && EmailBlock(s[j + 1..]);
    var local, mid, top := s[..i], s[i + 1..j], s[j + 1..];
    forall k | 0 <= k < |s| ensures !IsSpace(s[k]) && (s[k] == '@' ==> k == i) {
      if k < i { assert s[k] == local[k]; }
      else if i < k < j { assert s[k] == mid[k - i - 1]; }
      else if j < k { assert s[k] == top[k - j - 1]; }
    }
    assert 0 < i && i + 1 < j < |s| - 1;
  }

  lemma EmailPatternMatches(s: string)
    requires OneAtWithDottedDomain(s)
    ensures EmailPattern(s)
  {
    var i :| 0 < i < |s| && s[i] == '@' && (forall k | 0 <= k < |s| :: s[k] == '@' ==> k == i)
      && exists j | i + 1 < j < |s| - 1 :: s[j] == '.';
    var j :| i + 1 < j < |s| - 1 && s[j] == '.';
    var local, mid, top := s[..i], s[i + 1..j], s[j + 1..];
    assert EmailBlock(local) by {
      forall k | 0 <= k < |local| ensures !IsSpace(local[k]) && local[k] != '@' {
        assert local[k] == s[k];
      }
    }
    assert EmailBlock(mid) by {
      forall k | 0 <= k < |mid| ensures !IsSpace(mid[k]) && mid[k] != '@' {
        assert mid[k] == s[i + 1 + k];
      }
    }
    assert EmailBlock(top) by {
      forall k | 0 <= k < |top| ensures !IsSpace(top[k]) && top[k] != '@' {
        assert top[k] == s[j + 1 + k];
      }
    }
  }

  /** A website the pattern accepts starts with "www.", ends with a
      lower-case letter and holds only letters, digits, `-` and `.`. */
  lemma WebsiteShape(s: string)
    requires WebsitePattern(s)
    ensures s[..4] == "www." && IsLower(s[|s| - 1])
    ensures forall k :: 0 <= k < |s| ==> IsLetter(s[k]) || IsDigit(s[k]) || s[k] == '-' || s[k] == '.'
  {
    var d :| 4 < d < |s| && s[d] == '.' && HostLabel(s[4..d]) && TopLevel(s[d + 1..]);
    var host, t := s[4..d], s[d + 1..];
    TopLevelShape(t);
    forall k | 0 <= k < |s| ensures IsLetter(s[k]) || IsDigit(s[k]) || s[k] == '-' || s[k] == '.' {
      if k < 4 { assert s[k] == s[..4][k]; }
      else if k < d { assert s[k] == host[k - 4]; }
      else if k > d { assert s[k] == t[k - d - 1]; }
    }
    assert s[|s| - 1] == t[|t| - 1];
  }

  lemma TopLevelShape(t: string)
    requires TopLevel(t)
    ensures |t| > 0 && IsLower(t[|t| - 1])
    ensures forall k :: 0 <= k < |t| ==> IsLower(t[k]) || t[k] == '.'
  {
    if !LowerWord(t) {
      var e :| 0 < e < |t| && t[e] == '.' && LowerWord(t[..e]) && LowerWord(t[e + 1..]);
      var x, y := t[..e], t[e + 1..];
      forall k | 0 <= k < |t| ensures IsLower(t[k]) || t[k] == '.' {
        if k < e { assert t[k] == x[k]; }
        else if k > e { assert t[k] == y[k - e - 1]; }
      }
      assert t[|t| - 1] == y[|y| - 1];
    }
  }

  /** The forms the website message itself names: "www.example.com" is
      accepted, a host without "www." or with a one-letter top-level label
      is not. */
  lemma WebsiteExamples()
    ensures WebsitePattern("www.example.com")
    ensures WebsitePattern("www.my-shop.co.in")
    ensures !WebsitePattern("example.com")
    ensures !WebsitePattern("www.example.c")
  {
    var s := "www.example.com";
    assert s[11] == '.' && HostLabel(s[4..11]) && LowerWord(s[12..]);
    var w := "www.my-shop.co.in";
    assert w[11] == '.' && HostLabel(w[4..11]);
    var t := w[12..];
    assert t == "co.in" && t[2] == '.' && LowerWord(t[..2]) && LowerWord(t[3..]);
    assert "example.com"[..4][0] == 'e';
    var u := "www.example.c";
    forall d | 4 < d < |u| && u[d] == '.' ensures !TopLevel(u[d + 1..]) {
      assert d == 11;
      assert u[d + 1..] == "c";
    }
  }

  // ---------------------------------------------------------------------
  // The collection

  function Ids(rs: seq<Restaurant>): (ids: seq<string>)
    ensures |ids| == |rs| && forall i :: 0 <= i < |rs| ==> ids[i] == rs[i].restaurantId
  {
    if rs == [] then [] else Ids(rs[..|rs| - 1]) + [rs[|rs| - 1].restaurantId]
  }

  predicate StartsWith(s: string, prefix: string) { prefix <= s }

  /** `countDocuments({restaurantId: /^prefix/})` over a list of ids, for a
      prefix free of regular-expression metacharacters. */
  function CountPrefixed(ids: seq<string>, prefix: string): (n: nat)
    ensures n <= |ids|
    ensures n == 0 <==> forall i :: 0 <= i < |ids| ==> !StartsWith(ids[i], prefix)
    ensures n == |ids| <==> forall i :: 0 <= i < |ids| ==> StartsWith(ids[i], prefix)
  {
    if ids == [] then 0
    else
      var init := ids[..|ids| - 1];
      assert forall i :: 0 <= i < |init| ==> init[i] == ids[i];
      CountPrefixed(init, prefix) + if StartsWith(ids[|ids| - 1], prefix) then 1 else 0
  }

  /** Appending an id raises the count for every prefix it starts with, by
      one, and leaves the others. */
  lemma CountAppend(ids: seq<string>, id: string, prefix: string)
    ensures CountPrefixed(ids + [id], prefix) ==
      CountPrefixed(ids, prefix) + if StartsWith(id, prefix) then 1 else 0
  {
    assert (ids + [id])[..|ids|] == ids;
  }

  /** The count is the number of positions holding an id with the prefix. */
  lemma {:induction false} CountIsCardinality(ids: seq<string>, prefix: string)
    ensures CountPrefixed(ids, prefix) == |set i | 0 <= i < |ids| && StartsWith(ids[i], prefix)|
  {
    if ids != [] {
      var n := |ids| - 1;
      var init := ids[..n];
      CountIsCardinality(init, prefix);
      var before := set i | 0 <= i < |init| && StartsWith(init[i], prefix);
      var after := set i | 0 <= i < |ids| && StartsWith(ids[i], prefix);
      if StartsWith(ids[n], prefix) {
        assert after == before + {n};
      } else {
        assert after == before;
      }
    }
  }

  predicate UniqueIds(ids: seq<string>) {
    forall i, j :: 0 <= i < j < |ids| ==> ids[i] != ids[j]
  }

  datatype SaveOutcome = Saved | ValidationFailed(errors: seq<SchemaError>) | DuplicateKey(id: string)

  /** The `restaurants` collection: validation on save and a unique index on
      `restaurantId`. Documents are never updated or removed. */
  class Store {
    var records: seq<Restaurant>

    ghost predicate Valid()
      reads this
    {
      UniqueIds(Ids(records))
    }

    constructor ()
      ensures Valid() && records == []
    {
      records := [];
    }

    /** `countDocuments({restaurantId: /^prefix/})` */
    function CountDocuments(prefix: string): (n: nat)
      reads this
      ensures n <= |records|
      ensures n == 0 <==> forall i :: 0 <= i < |records| ==> !StartsWith(records[i].restaurantId, prefix)
    {
      CountPrefixed(Ids(records), prefix)
    }

    /** `doc.save()`: validate, then insert unless the id is already taken.
        A rejected save leaves the collection as it was. */
    method Save(doc: Restaurant) returns (outcome: SaveOutcome)
      requires Valid()
      modifies this
      ensures Valid()
      ensures outcome == if Errors(doc) != [] then ValidationFailed(Errors(doc))
                         else if doc.restaurantId in Ids(old(records)) then DuplicateKey(doc.restaurantId)
                         else Saved
      ensures records == if outcome.Saved? then old(records) + [doc] else old(records)
    {
      var errs := Errors(doc);
      if errs != [] {
        return ValidationFailed(errs);
      }
      if doc.restaurantId in Ids(records) {
        return DuplicateKey(doc.restaurantId);
      }
      records := records + [doc];
      assert Ids(records) == Ids(old(records)) + [doc.restaurantId];
      outcome := Saved;
    }
  }
}
