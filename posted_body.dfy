/** What the endpoint reads from the body the registration page posts:
    the page's `FormData` loop and the handler's `formData.get` calls are
    inverse on every field the handler reads. */
module PostedBody {
  import opened Multipart
  import opened RestaurantModel
  import opened RegistrationPage
  import opened FormPayload
  import opened RegistrationEndpoint

  /** Each text field arrives as typed, under its own name. */
  lemma FieldOfPayload(f: FormState, k: FieldKey, n: string, v: string)
    requires TextKey(k) && KeyName(k) == n && TextField(f, k) == v
    ensures Field(Payload(f), n) == Text(v)
  {
    PayloadFields(f, k);
    GetLastAgree(Payload(f), KeyName(k), PartOf(f, k));
  }

  /** The cuisines arrive in order. */
  lemma CuisinesOfPayload(f: FormState)
    ensures Texts(GetAll(Payload(f), CuisineKey)) == f.cuisineTypes
  {
    PayloadCuisinesNoPreview(f);
    var ps := CuisineParts(f.cuisineTypes);
    assert forall i :: 0 <= i < |ps| ==> ps[i].Str?;
  }

  /** The logo arrives when it is a file with a name; "null" or a nameless
      file is no logo. */
  lemma LogoOfPayload(f: FormState)
    ensures NamedLogo(Payload(f)) == if f.logo.Some? && f.logo.value.name != "" then f.logo else None
  {
    PayloadFields(f, Logo);
    GetLastAgree(Payload(f), "logo", LogoPart(f.logo));
  }

  /** The posted body carries the name, category and contact person as typed. */
  lemma NameFieldsArrive(f: FormState)
    ensures Field(Payload(f), "name") == Text(f.name)
    ensures Field(Payload(f), "category") == Text(f.category)
    ensures Field(Payload(f), "contactPerson") == Text(f.contactPerson)
  {
    FieldOfPayload(f, Name, "name", f.name);
    FieldOfPayload(f, Category, "category", f.category);
    FieldOfPayload(f, ContactPerson, "contactPerson", f.contactPerson);
  }

  /** The posted body carries the phone, email and address as typed. */
  lemma ContactFieldsArrive(f: FormState)
    ensures Field(Payload(f), "phone") == Text(f.phone)
    ensures Field(Payload(f), "email") == Text(f.email)
    ensures Field(Payload(f), "address") == Text(f.address)
  {
    FieldOfPayload(f, Phone, "phone", f.phone);
    FieldOfPayload(f, Email, "email", f.email);
    FieldOfPayload(f, Address, "address", f.address);
  }

  /** The posted body carries the pincode, city and state as typed. */
  lemma PlaceFieldsArrive(f: FormState)
    ensures Field(Payload(f), "pincode") == Text(f.pincode)
    ensures Field(Payload(f), "city") == Text(f.city)
    ensures Field(Payload(f), "state") == Text(f.state)
  {
    FieldOfPayload(f, Pincode, "pincode", f.pincode);
    FieldOfPayload(f, City, "city", f.city);
    FieldOfPayload(f, State, "state", f.state);
  }

  /** The posted body carries the country, coordinates and hours as typed. */
  lemma RegionFieldsArrive(f: FormState)
    ensures Field(Payload(f), "country") == Text(f.country)
    ensures Field(Payload(f), "coordinates") == Text(f.coordinates)
    ensures Field(Payload(f), "hours") == Text(f.hours)
  {
    FieldOfPayload(f, Country, "country", f.country);
    FieldOfPayload(f, Coordinates, "coordinates", f.coordinates);
    FieldOfPayload(f, Hours, "hours", f.hours);
  }

  /** The posted body carries the website, social links and description as typed. */
  lemma ProfileFieldsArrive(f: FormState)
    ensures Field(Payload(f), "website") == Text(f.website)
    ensures Field(Payload(f), "socialLinks") == Text(f.socialLinks)
    ensures Field(Payload(f), "description") == Text(f.description)
  {
    FieldOfPayload(f, Website, "website", f.website);
    FieldOfPayload(f, SocialLinks, "socialLinks", f.socialLinks);
    FieldOfPayload(f, Description, "description", f.description);
  }

  /** The posted body carries the licence number, GST number and status as typed. */
  lemma RegistrationFieldsArrive(f: FormState)
    ensures Field(Payload(f), "licenseNumber") == Text(f.licenseNumber)
    ensures Field(Payload(f), "gstNumber") == Text(f.gstNumber)
    ensures Field(Payload(f), "status") == Text(f.status)
  {
    FieldOfPayload(f, LicenseNumber, "licenseNumber", f.licenseNumber);
    FieldOfPayload(f, GstNumber, "gstNumber", f.gstNumber);
    FieldOfPayload(f, Status, "status", f.status);
  }
}
