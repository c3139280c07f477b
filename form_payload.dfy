/** The multipart body `handleSubmit` builds from `form` (app/register/page.jsx):
    one entry per key of the form, in the order of its initial value, except
    that the cuisine types are spread over repeated "cuisineTypes[]" entries
    and the preview URL is not sent. */
module FormPayload {
  import opened Multipart
  import opened RegistrationPage

  /** The name of each key, as the form object spells it. */
  function KeyName(k: FieldKey): string {
    match k
    case Name => "name"
    case Category => "category"
    case CuisineTypes => "cuisineTypes"
    case ContactPerson => "contactPerson"
    case Phone => "phone"
    case Email => "email"
    case Address => "address"
    case Pincode => "pincode"
    case City => "city"
    case State => "state"
    case Country => "country"
    case Coordinates => "coordinates"
    case Hours => "hours"
    case Website => "website"
    case SocialLinks => "socialLinks"
    case Description => "description"
    case LicenseNumber => "licenseNumber"
    case GstNumber => "gstNumber"
    case Status => "status"
    case Logo => "logo"
    case LogoPreview => "logoPreview"
  }

  const CuisineKey: string := "cuisineTypes[]"

  /** The position of each key in the initial value of `form`. */
  function Position(k: FieldKey): nat {
    match k
    case Name => 0
    case Category => 1
    case CuisineTypes => 2
    case ContactPerson => 3
    case Phone => 4
    case Email => 5
    case Address => 6
    case Pincode => 7
    case City => 8
    case State => 9
    case Country => 10
    case Coordinates => 11
    case Hours => 12
    case Website => 13
    case SocialLinks => 14
    case Description => 15
    case LicenseNumber => 16
    case GstNumber => 17
    case Status => 18
    case Logo => 19
    case LogoPreview => 20
  }

  /** The key at a position of the initial value of `form`. */
  function KeyAt(i: nat): (k: FieldKey)
    requires i < 21
    ensures Position(k) == i
  {
    if i == 0 then Name
    else if i == 1 then Category
    else if i == 2 then CuisineTypes
    else if i == 3 then ContactPerson
    else if i == 4 then Phone
    else if i == 5 then Email
    else if i == 6 then Address
    else if i == 7 then Pincode
    else if i == 8 then City
    else if i == 9 then State
    else if i == 10 then Country
    else if i == 11 then Coordinates
    else if i == 12 then Hours
    else if i == 13 then Website
    else if i == 14 then SocialLinks
    else if i == 15 then Description
    else if i == 16 then LicenseNumber
    else if i == 17 then GstNumber
    else if i == 18 then Status
    else if i == 19 then Logo
    else LogoPreview
  }

  /** `for (let key in form)` visits the keys in the order of the initial
      object. */
  const FormKeys: seq<FieldKey> := [
    Name, Category, CuisineTypes, ContactPerson, Phone, Email, Address, Pincode,
    City, State, Country, Coordinates, Hours, Website, SocialLinks, Description,
    LicenseNumber, GstNumber, Status, Logo, LogoPreview]

  /** The keys whose value is a string. */
  predicate TextKey(k: FieldKey) {
    k != CuisineTypes && k != Logo && k != LogoPreview
  }

  /** The string value under a text key. */
  function TextField(f: FormState, k: FieldKey): string
    requires TextKey(k)
  {
    match k
    case Name => f.name
    case Category => f.category
    case ContactPerson => f.contactPerson
    case Phone => f.phone
    case Email => f.email
    case Address => f.address
    case Pincode => f.pincode
    case City => f.city
    case State => f.state
    case Country => f.country
    case Coordinates => f.coordinates
    case Hours => f.hours
    case Website => f.website
    case SocialLinks => f.socialLinks
    case Description => f.description
    case LicenseNumber => f.licenseNumber
    case GstNumber => f.gstNumber
    case Status => f.status
  }

  /** `formData.append("logo", form.logo)`: the file, or the string "null"
      when no file was chosen. */
  function LogoPart(logo: Option<File>): Part {
    match logo
    case Some(file) => Blob(file)
    case None => Str("null")
  }

  /** The part `append` sends for a key other than the cuisine types and the
      preview. */
  function PartOf(f: FormState, k: FieldKey): Part
    requires k != CuisineTypes && k != LogoPreview
  {
    if k == Logo then LogoPart(f.logo) else Str(TextField(f, k))
  }

  /** `form.cuisineTypes.forEach((c) => formData.append("cuisineTypes[]", c))` */
  function CuisineEntries(cs: seq<string>): (es: seq<Entry>)
    ensures |es| == |cs|
    ensures forall i :: 0 <= i < |cs| ==> es[i] == (CuisineKey, Str(cs[i]))
  {
    if cs == [] then [] else CuisineEntries(cs[..|cs| - 1]) + [(CuisineKey, Str(cs[|cs| - 1]))]
  }

  /** The entries one key of the loop appends. */
  function EntriesFor(f: FormState, k: FieldKey): seq<Entry> {
    if k == CuisineTypes then CuisineEntries(f.cuisineTypes)
    else if k == LogoPreview then []
    else [(KeyName(k), PartOf(f, k))]
  }

  /** The entries appended for `keys`, in order. */
  function PayloadOf(f: FormState, keys: seq<FieldKey>): seq<Entry> {
    if keys == [] then [] else PayloadOf(f, keys[..|keys| - 1]) + EntriesFor(f, keys[|keys| - 1])
  }

  /** The body `handleSubmit` posts. */
  function Payload(f: FormState): seq<Entry> {
    PayloadOf(f, FormKeys)
  }

  /** One more key extends the entries by that key's own. */
  lemma PayloadOfStep(f: FormState, keys: seq<FieldKey>, i: nat)
    requires i < |keys|
    ensures PayloadOf(f, keys[..i + 1]) == PayloadOf(f, keys[..i]) + EntriesFor(f, keys[i])
  {
    assert keys[..i + 1][..i] == keys[..i];
  }

  /** The inner loop of `handleSubmit`: one "cuisineTypes[]" entry per
      cuisine, in order. */
  method AppendCuisines(fd: FormData, cs: seq<string>)
    modifies fd
    ensures fd.entries == old(fd.entries) + CuisineEntries(cs)
  {
    var j := 0;
    while j < |cs|
      invariant 0 <= j <= |cs|
      invariant fd.entries == old(fd.entries) + CuisineEntries(cs[..j])
    {
      assert cs[..j + 1][..j] == cs[..j];
      fd.Append(CuisineKey, Str(cs[j]));
      j := j + 1;
    }
    assert cs[..j] == cs;
  }

  /** The loop of `handleSubmit`: append the entries of each key of `form`
      to a fresh `FormData`. */
  method BuildPayload(f: FormState) returns (entries: seq<Entry>)
    ensures entries == Payload(f)
  {
    var fd := new FormData();
    var i := 0;
    while i < |FormKeys|
      invariant 0 <= i <= |FormKeys|
      invariant fd.entries == PayloadOf(f, FormKeys[..i])
    {
      var k := FormKeys[i];
      PayloadOfStep(f, FormKeys, i);
      if k == CuisineTypes {
        AppendCuisines(fd, f.cuisineTypes);
      } else if k != LogoPreview {
        fd.Append(KeyName(k), PartOf(f, k));
      }
      i := i + 1;
    }
    assert FormKeys[..i] == FormKeys;
    entries := fd.entries;
  }

  // ---------------------------------------------------------------------
  // What the body holds

  /** `getAll` over two bodies back to back. */
  lemma {:induction false} GetAllConcat(a: seq<Entry>, b: seq<Entry>, key: string)
    ensures GetAll(a + b, key) == GetAll(a, key) + GetAll(b, key)
  {
    if a == [] {
      assert a + b == b;
    } else {
      GetAllConcat(a[1..], b, key);
      GetAllCons(a + b, key);
      GetAllCons(a, key);
      assert (a + b)[0] == a[0] && (a + b)[1..] == a[1..] + b;
      var h := if a[0].0 == key then [a[0].1] else [];
      assert h + (GetAll(a[1..], key) + GetAll(b, key)) == (h + GetAll(a[1..], key)) + GetAll(b, key);
    }
  }

  lemma GetAllCons(s: seq<Entry>, key: string)
    requires s != []
    ensures GetAll(s, key) == (if s[0].0 == key then [s[0].1] else []) + GetAll(s[1..], key)
  {
  }

  /** The cuisine entries hold the cuisines under "cuisineTypes[]", in
      order, and nothing under any other key. */
  lemma {:induction false} CuisineGetAll(cs: seq<string>, key: string)
    ensures GetAll(CuisineEntries(cs), key) == if key == CuisineKey then CuisineParts(cs) else []
  {
    if cs != [] {
      var init := cs[..|cs| - 1];
      CuisineGetAll(init, key);
      GetAllConcat(CuisineEntries(init), [(CuisineKey, Str(cs[|cs| - 1]))], key);
    }
  }

  /** Distinct keys have distinct names, and none of them is
      "cuisineTypes[]". */
  lemma KeyNameInjective(a: FieldKey, b: FieldKey)
    ensures KeyName(a) == KeyName(b) ==> a == b
    ensures KeyName(a) != CuisineKey
  {
  }

  /** Keys listed once each. */
  predicate Distinct(keys: seq<FieldKey>) {
    forall i, j :: 0 <= i < j < |keys| ==> keys[i] != keys[j]
  }

  /** The entries of one key hold a part under the name of `k` only when
      that key is `k`, and never under the name of the preview. */
  lemma EntriesForGetAll(f: FormState, key: FieldKey, k: FieldKey)
    requires k != CuisineTypes
    ensures GetAll(EntriesFor(f, key), KeyName(k)) ==
      if key == k && k != LogoPreview then [PartOf(f, k)] else []
  {
    KeyNameInjective(key, k);
    if key == CuisineTypes {
      CuisineGetAll(f.cuisineTypes, KeyName(k));
    } else if key != LogoPreview {
      assert GetAll([(KeyName(key), PartOf(f, key))][1..], KeyName(k)) == [];
    }
  }

  /** For a key other than the cuisine types, listed at most once, `getAll`
      over the entries of `keys` finds its part exactly when it is listed
      and is not the preview. */
  lemma {:induction false} PayloadOfSingle(f: FormState, keys: seq<FieldKey>, k: FieldKey)
    requires k != CuisineTypes
    requires Distinct(keys)
    ensures GetAll(PayloadOf(f, keys), KeyName(k)) ==
      if k in keys && k != LogoPreview then [PartOf(f, k)] else []
  {
    if keys != [] {
      var init, last := keys[..|keys| - 1], keys[|keys| - 1];
      assert keys == init + [last];
      assert Distinct(init);
      PayloadOfSingle(f, init, k);
      GetAllConcat(PayloadOf(f, init), EntriesFor(f, last), KeyName(k));
      EntriesForGetAll(f, last, k);
      if last == k {
        assert k !in init;
      }
    }
  }

  /** The cuisines, as string parts. */
  function CuisineParts(cs: seq<string>): (ps: seq<Part>)
    ensures |ps| == |cs| && forall i :: 0 <= i < |cs| ==> ps[i] == Str(cs[i])
  {
    seq(|cs|, i requires 0 <= i < |cs| => Str(cs[i]))
  }

  /** Over keys listed at most once, "cuisineTypes[]" holds the cuisines
      in order when the cuisine key is listed, and nothing otherwise. */
  lemma {:induction false} PayloadOfCuisines(f: FormState, keys: seq<FieldKey>)
    requires Distinct(keys)
    ensures GetAll(PayloadOf(f, keys), CuisineKey) ==
      if CuisineTypes in keys then CuisineParts(f.cuisineTypes) else []
  {
    if keys != [] {
      var init, last := keys[..|keys| - 1], keys[|keys| - 1];
      assert keys == init + [last];
      assert Distinct(init);
      PayloadOfCuisines(f, init);
      GetAllConcat(PayloadOf(f, init), EntriesFor(f, last), CuisineKey);
      KeyNameInjective(last, last);
      if last == CuisineTypes {
        assert CuisineTypes !in init;
        CuisineGetAll(f.cuisineTypes, CuisineKey);
      } else if last != LogoPreview {
        assert GetAll([(KeyName(last), PartOf(f, last))][1..], CuisineKey) == [];
      }
    }
  }

  /** Every key is visited, once. */
  lemma FormKeysDistinct()
    ensures Distinct(FormKeys)
    ensures forall k :: k in FormKeys
  {
    assert |FormKeys| == 21;
    forall i | 0 <= i < 21 ensures FormKeys[i] == KeyAt(i) {
    }
    forall k ensures k in FormKeys {
      KeyAtPosition(k);
      assert FormKeys[Position(k)] == k;
    }
  }

  lemma KeyAtPosition(k: FieldKey)
    ensures Position(k) < 21 && KeyAt(Position(k)) == k
  {
  }

  /** The posted body holds, under the name of every key but the cuisine
      types and the preview, exactly one part: the key's value, with "null"
      for a missing logo. */
  lemma PayloadFields(f: FormState, k: FieldKey)
    requires k != CuisineTypes && k != LogoPreview
    ensures GetAll(Payload(f), KeyName(k)) == [PartOf(f, k)]
  {
    FormKeysDistinct();
    PayloadOfSingle(f, FormKeys, k);
  }

  /** The posted body holds the cuisines, in order, under "cuisineTypes[]",
      and nothing under "logoPreview". */
  lemma PayloadCuisinesNoPreview(f: FormState)
    ensures GetAll(Payload(f), CuisineKey) == CuisineParts(f.cuisineTypes)
    ensures GetAll(Payload(f), KeyName(LogoPreview)) == []
  {
    FormKeysDistinct();
    PayloadOfCuisines(f, FormKeys);
    PayloadOfSingle(f, FormKeys, LogoPreview);
  }
}
