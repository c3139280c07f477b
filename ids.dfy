/** Generation of `restaurantId` (app/api/resturants/route.js): the upper-cased
    first three characters of city and category, followed by the number of
    stored ids with that prefix plus one, zero-padded to seven digits. */
module RestaurantIds {
  import opened Ascii
  import opened RestaurantModel

  function DigitChar(d: nat): (c: char)
    requires d < 10
    ensures IsDigit(c) && c as int - '0' as int == d
  {
    ('0' as int + d) as char
  }

  function Pow10(k: nat): (p: nat)
    ensures p >= 1
  {
    if k == 0 then 1 else 10 * Pow10(k - 1)
  }

  /** `String(n)`: the decimal digits of `n`, without leading zeros. */
  function Decimal(n: nat): (s: string)
    ensures |s| >= 1 && AllDigits(s)
    ensures s[0] == '0' <==> n == 0
    ensures DigitsValue(s) == n
  {
    if n < 10 then [DigitChar(n)]
    else
      var s := Decimal(n / 10) + [DigitChar(n % 10)];
      assert s[..|s| - 1] == Decimal(n / 10);
      s
  }

  /** A string of `k` digits denotes a number below 10^k. */
  lemma {:induction false} DigitsValueBound(s: string)
    requires AllDigits(s)
    ensures DigitsValue(s) < Pow10(|s|)
  {
    if s != [] {
      DigitsValueBound(s[..|s| - 1]);
    }
  }

  /** A string of `k` digits whose first digit is not 0 denotes at least 10^(k-1). */
  lemma {:induction false} DigitsValueLower(s: string)
    requires AllDigits(s) && |s| >= 1 && s[0] != '0'
    ensures DigitsValue(s) >= Pow10(|s| - 1)
  {
    if |s| > 1 {
      DigitsValueLower(s[..|s| - 1]);
    }
  }

  /** `String(n)` has at most `k` digits exactly when `n < 10^k`. */
  lemma DecimalLength(n: nat, k: nat)
    requires k >= 1
    ensures |Decimal(n)| <= k <==> n < Pow10(k)
  {
    var s := Decimal(n);
    DigitsValueBound(s);
    if n > 0 {
      DigitsValueLower(s);
      if |s| > k { PowMonotone(k, |s| - 1); }
    }
    if |s| <= k { PowMonotone(|s|, k); }
  }

  lemma {:induction false} PowMonotone(a: nat, b: nat)
    requires a <= b
    ensures Pow10(a) <= Pow10(b)
  {
    if a < b { PowMonotone(a, b - 1); }
  }

  function Zeros(k: nat): (z: string)
    ensures |z| == k && forall i :: 0 <= i < k ==> z[i] == '0'
  {
    if k == 0 then [] else Zeros(k - 1) + ['0']
  }

  /** `s.padStart(width, "0")`: zeros are added on the left up to `width`;
      a longer string is returned whole, never cut. */
  function PadStart(s: string, width: nat): (r: string)
    ensures |r| == if |s| < width then width else |s|
    ensures r[|r| - |s|..] == s
    ensures forall i :: 0 <= i < |r| - |s| ==> r[i] == '0'
  {
    if |s| < width then Zeros(width - |s|) + s else s
  }

  /** Leading zeros do not change the number denoted. */
  lemma {:induction false} LeadingZeros(z: string, s: string)
    requires AllDigits(s) && forall i :: 0 <= i < |z| ==> z[i] == '0'
    ensures AllDigits(z + s) && DigitsValue(z + s) == DigitsValue(s)
    decreases |s|, |z|
  {
    if s == [] {
      assert z + s == z;
      if z != [] {
        LeadingZeros(z[..|z| - 1], []);
        assert z[..|z| - 1] + [] == z[..|z| - 1];
      }
    } else {
      var t := s[..|s| - 1];
      LeadingZeros(z, t);
      assert (z + s)[..|z + s| - 1] == z + t;
    }
  }

  /** The sequence part of an id: `String(count + 1).padStart(7, "0")`.
      It is all digits, exactly seven of them unless count + 1 needs more,
      and it reads back as count + 1. */
  function Sequence(count: nat): (q: string)
    ensures AllDigits(q) && DigitsValue(q) == count + 1
    ensures |q| == if |Decimal(count + 1)| < 7 then 7 else |Decimal(count + 1)|
    ensures |q| == 7 <==> count + 1 < 10000000
  {
    PaddedValue(Decimal(count + 1), 7);
    SevenDigits(count + 1);
    PadStart(Decimal(count + 1), 7)
  }

  /** Padding with zeros keeps a string of digits and the number it
      denotes. */
  lemma PaddedValue(s: string, width: nat)
    requires AllDigits(s)
    ensures AllDigits(PadStart(s, width)) && DigitsValue(PadStart(s, width)) == DigitsValue(s)
  {
    var q := PadStart(s, width);
    assert q == Zeros(|q| - |s|) + s;
    LeadingZeros(Zeros(|q| - |s|), s);
  }

  /** A number needs at most seven digits exactly when it is below ten
      million. */
  lemma SevenDigits(n: nat)
    ensures |Decimal(n)| <= 7 <==> n < 10000000
  {
    DecimalLength(n, 7);
    assert Pow10(7) == 10000000;
  }

  /** Distinct counts give distinct sequence parts. */
  lemma SequenceInjective(a: nat, b: nat)
    requires Sequence(a) == Sequence(b)
    ensures a == b
  {
  }

  /** The text `fields.x || ""` stands for: a missing or null value is "". */
  function TextOrEmpty(v: Value): string {
    if v.Text? then v.s else ""
  }

  /** `(v || "").substring(0, 3).toUpperCase()`: the first (at most) three
      characters, upper-cased; empty when the value is missing. */
  function Code(v: Value): (c: string)
    ensures |c| == if |TextOrEmpty(v)| < 3 then |TextOrEmpty(v)| else 3
    ensures forall i :: 0 <= i < |c| ==> c[i] == UpperChar(TextOrEmpty(v)[i])
    ensures !v.Text? ==> c == ""
  {
    ToUpper(Take(TextOrEmpty(v), 3))
  }

  function Prefix(city: Value, category: Value): string {
    Code(city) + Code(category)
  }

  /** The id the handler generates against the ids already stored: it starts
      with the prefix used for counting, and the rest reads back as one more
      than the number of stored ids with that prefix. */
  function NewId(city: Value, category: Value, ids: seq<string>): (id: string)
    ensures StartsWith(id, Prefix(city, category))
    ensures var p := Prefix(city, category);
      AllDigits(id[|p|..]) && DigitsValue(id[|p|..]) == CountPrefixed(ids, p) + 1
  {
    var p := Prefix(city, category);
    var id := p + Sequence(CountPrefixed(ids, p));
    assert id[|p|..] == Sequence(CountPrefixed(ids, p));
    id
  }

  /** With no stored id under the prefix the sequence is 0000001. */
  lemma FirstSequence()
    ensures Sequence(0) == "0000001"
  {
    assert Decimal(1) == "1";
    assert Zeros(6) == "000000";
  }

  lemma KochiRestaurantPrefix()
    ensures Prefix(Text("Kochi"), Text("Restaurant")) == "KOCRES"
  {
    var k, r := Code(Text("Kochi")), Code(Text("Restaurant"));
    assert |k| == 3 && k[0] == UpperChar('K') && k[1] == UpperChar('o') && k[2] == UpperChar('c');
    assert UpperChar('o') == 'O' && UpperChar('c') == 'C';
    assert k == "KOC";
    assert |r| == 3 && r[0] == UpperChar('R') && r[1] == UpperChar('e') && r[2] == UpperChar('s');
    assert UpperChar('e') == 'E' && UpperChar('s') == 'S';
    assert r == "RES";
  }

  /** The worked example: Kochi / Restaurant gives prefix KOCRES, numbered
      from 0000001 on. */
  lemma KochiRestaurantFirst()
    ensures NewId(Text("Kochi"), Text("Restaurant"), []) == "KOCRES0000001"
  {
    KochiRestaurantPrefix();
    FirstSequence();
  }

  lemma FourthSequence()
    ensures Sequence(3) == "0000004"
  {
    assert Decimal(4) == "4";
    assert Zeros(6) == "000000";
  }

  lemma CountExample()
    ensures CountPrefixed(["KOCRES0000001", "TVMCAF0000001", "KOCRES0000002", "KOCRES0000003"], "KOCRES") == 3
  {
    var p := "KOCRES";
    var a, b, c, d := "KOCRES0000001", "TVMCAF0000001", "KOCRES0000002", "KOCRES0000003";
    assert StartsWith(a, p) by { assert a == p + "0000001"; }
    assert !StartsWith(b, p) by { assert b[0] != p[0]; }
    assert StartsWith(c, p) by { assert c == p + "0000002"; }
    assert StartsWith(d, p) by { assert d == p + "0000003"; }
    var s1, s2, s3, s4 := [a], [a, b], [a, b, c], [a, b, c, d];
    assert s1 == [] + [a] && s2 == s1 + [b] && s3 == s2 + [c] && s4 == s3 + [d];
    CountAppend([], a, p);
    assert CountPrefixed(s1, p) == 1;
    CountAppend(s1, b, p);
    assert CountPrefixed(s2, p) == 1;
    CountAppend(s2, c, p);
    assert CountPrefixed(s3, p) == 2;
    CountAppend(s3, d, p);
  }

  /** Three stored KOCRES ids (and one under another prefix) give KOCRES0000004. */
  lemma KochiRestaurantFourth()
    ensures NewId(Text("Kochi"), Text("Restaurant"),
                  ["KOCRES0000001", "TVMCAF0000001", "KOCRES0000002", "KOCRES0000003"]) == "KOCRES0000004"
  {
    KochiRestaurantPrefix();
    CountExample();
    FourthSequence();
  }

  /** A missing city contributes nothing to the prefix. */
  lemma MissingCity()
    ensures NewId(Undefined, Text("Cafe"), ["KOCRES0000001"]) == "CAF0000001"
  {
    var c := Code(Text("Cafe"));
    assert |c| == 3 && c[0] == UpperChar('C') && c[1] == UpperChar('a') && c[2] == UpperChar('f');
    assert UpperChar('a') == 'A' && UpperChar('f') == 'F';
    assert Prefix(Undefined, Text("Cafe")) == "CAF";
    CountAppend([], "KOCRES0000001", "CAF");
    assert [] + ["KOCRES0000001"] == ["KOCRES0000001"];
    assert !StartsWith("KOCRES0000001", "CAF") by { assert "KOCRES0000001"[0] != "CAF"[0]; }
    FirstSequence();
  }

  // ---------------------------------------------------------------------
  // Uniqueness of sequentially generated ids

  /** Length of the longest prefix of `id` without a digit. */
  function LeadLength(id: string): (n: nat)
    ensures n <= |id| && NoDigit(id[..n])
    ensures n < |id| ==> IsDigit(id[n])
  {
    if id == [] || IsDigit(id[0]) then 0
    else
      var n := LeadLength(id[1..]) + 1;
      assert id[..n] == [id[0]] + id[1..][..n - 1];
      n
  }

  lemma LeadLengthOf(p: string, q: string)
    requires NoDigit(p) && |q| > 0 && IsDigit(q[0])
    ensures LeadLength(p + q) == |p|
  {
    var n := LeadLength(p + q);
    assert (p + q)[|p|] == q[0];
  }

  /** Every stored id is a digit-free prefix followed by digits that denote
      at most the number of stored ids with that prefix. Ids generated one
      after another from digit-free prefixes keep this invariant. */
  predicate WellIssued(ids: seq<string>) {
    forall i :: 0 <= i < |ids| ==>
      var n := LeadLength(ids[i]);
      AllDigits(ids[i][n..]) && DigitsValue(ids[i][n..]) <= CountPrefixed(ids, ids[i][..n])
  }

  /** When the prefix has no digit, the generated id is not yet stored, so
      the unique index is never hit by sequential registrations; and the
      store with the new id still satisfies the invariant. */
  lemma {:induction false} NewIdFresh(ids: seq<string>, city: Value, category: Value)
    requires WellIssued(ids)
    requires NoDigit(Prefix(city, category))
    ensures NewId(city, category, ids) !in ids
    ensures WellIssued(ids + [NewId(city, category, ids)])
  {
    var p := Prefix(city, category);
    var c := CountPrefixed(ids, p);
    var id := NewId(city, category, ids);
    var q := Sequence(c);
    assert id == p + q;
    assert q[0] == '0' || IsDigit(q[0]);
    LeadLengthOf(p, q);
    assert id[..|p|] == p && id[|p|..] == q;
    var ids' := ids + [id];
    forall i | 0 <= i < |ids'|
      ensures var n := LeadLength(ids'[i]);
        AllDigits(ids'[i][n..]) && DigitsValue(ids'[i][n..]) <= CountPrefixed(ids', ids'[i][..n])
    {
      var n := LeadLength(ids'[i]);
      CountAppend(ids, id, ids'[i][..n]);
      if i == |ids| {
        assert ids'[i] == id;
        assert StartsWith(id, p);
      }
    }
  }
}
