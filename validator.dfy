/**
 * The cross-document validator: compares the name, date of birth and
 * address of one driver-licence record with one insurance record and
 * reports every field that disagrees after normalisation.
 */
module Validator {
  import opened Wrappers
  import opened Text
  import opened Models

  /** `_normalize`: absent is empty; otherwise strip, then lower-case. */
  function Normalize(value: Option<string>): string {
    if value.None? then "" else Lower(Strip(value.value))
  }

  /**
   * What `_normalize` returns: the empty string for an absent value;
   * otherwise a string with no whitespace at its ends and no upper-case
   * letter, which is the lower-cased input with only its surrounding
   * whitespace removed.
   */
  lemma NormalizeMeaning(value: Option<string>)
    ensures value.None? ==> Normalize(value) == ""
    ensures IsStripped(Normalize(value))
    ensures forall i :: 0 <= i < |Normalize(value)| ==> !IsUpper(Normalize(value)[i])
    ensures value.Some? ==> PaddedWith(Lower(value.value), Normalize(value))
  {
    if value.Some? {
      StripLower(value.value);
      LowerKeepsWhitespace(Strip(value.value));
    }
  }

  /** Normalising a normalised value changes nothing. */
  lemma NormalizeIdempotent(value: Option<string>)
    ensures Normalize(Some(Normalize(value))) == Normalize(value)
  {
    var r := Normalize(value);
    NormalizeMeaning(value);
    StripOf([], r, []);
    assert [] + r + [] == r;
    if value.Some? {
      LowerIdempotent(Strip(value.value));
    }
  }

  /** Two strings that differ only in letter case normalise alike. */
  lemma NormalizeIgnoresCase(s: string, t: string)
    requires Lower(s) == Lower(t)
    ensures Normalize(Some(s)) == Normalize(Some(t))
  {
    StripLower(s);
    StripLower(t);
  }

  /** Whitespace added around a string does not change its normal form. */
  lemma NormalizeIgnoresPadding(w1: string, s: string, w2: string)
    requires AllWhitespace(w1) && AllWhitespace(w2)
    ensures Normalize(Some(w1 + s + w2)) == Normalize(Some(s))
  {
    StripIgnoresPadding(w1, s, w2);
  }

  /** A string with no whitespace at its ends normalises to its lower case. */
  lemma NormalizeStripped(s: string)
    requires IsStripped(s)
    ensures Normalize(Some(s)) == Lower(s)
  {
    StripOf([], s, []);
    assert [] + s + [] == s;
  }

  /**
   * Two strings without surrounding whitespace whose characters at one
   * position differ even after lower-casing do not normalise alike.
   */
  lemma NormalizeDiffersAt(s: string, t: string, k: nat)
    requires IsStripped(s) && IsStripped(t)
    requires k < |s| && k < |t| && LowerChar(s[k]) != LowerChar(t[k])
    ensures Normalize(Some(s)) != Normalize(Some(t))
  {
    NormalizeStripped(s);
    NormalizeStripped(t);
    assert Lower(s)[k] != Lower(t)[k];
  }

  /** The f-string `f"{first} {last}"`. */
  function FullName(first: string, last: string): string {
    first + " " + last
  }

  /**
   * Every entry carries the original, un-normalised values of its field:
   * the joined names, the two dates (absent written as ""), or the two
   * addresses.
   */
  predicate CarriesOriginals(ds: seq<FieldDiscrepancy>, dl: DriverLicenseData, ins: InsuranceData) {
    forall d :: d in ds ==>
      && (d.fieldName == NameField ==>
            d.dlValue == FullName(dl.firstName, dl.lastName)
            && d.insuranceValue == FullName(ins.firstName, ins.lastName))
      && (d.fieldName == DobField ==>
            d.dlValue == dl.dateOfBirth.GetOr("") && d.insuranceValue == ins.dateOfBirth.GetOr(""))
      && (d.fieldName == AddressField ==>
            d.dlValue == dl.address && d.insuranceValue == ins.address)
  }

  predicate NamesAgree(dl: DriverLicenseData, ins: InsuranceData) {
    Normalize(Some(FullName(dl.firstName, dl.lastName)))
      == Normalize(Some(FullName(ins.firstName, ins.lastName)))
  }

  /** Dates are compared only when both are present; otherwise they agree. */
  predicate DatesAgree(dl: DriverLicenseData, ins: InsuranceData) {
    if dl.dateOfBirth.Some? && ins.dateOfBirth.Some? then
      Normalize(dl.dateOfBirth) == Normalize(ins.dateOfBirth)
    else true
  }

  predicate AddressesAgree(dl: DriverLicenseData, ins: InsuranceData) {
    Normalize(Some(dl.address)) == Normalize(Some(ins.address))
  }

  /**
   * The report built from the three comparison outcomes: one entry per
   * failed comparison, in the order name, date of birth, address, each with
   * the original values, and status "match" exactly when none failed.
   */
  function Report(dl: DriverLicenseData, ins: InsuranceData,
                  nameMatch: bool, dobMatch: bool, addressMatch: bool): (r: ValidationReport)
    ensures ReportConsistent(r)
    ensures r.nameMatch == nameMatch && r.dobMatch == dobMatch && r.addressMatch == addressMatch
    ensures CarriesOriginals(r.discrepancies, dl, ins)
    ensures r.personName == FullName(dl.firstName, dl.lastName)
    ensures r.dlSource == dl.filePath && r.insuranceSource == ins.filePath
  {
    var none: seq<FieldDiscrepancy> := [];
    var nameEntry := FieldDiscrepancy(NameField, FullName(dl.firstName, dl.lastName),
                                      FullName(ins.firstName, ins.lastName));
    var afterName := if nameMatch then none else none + [nameEntry];
    var dobEntry := FieldDiscrepancy(DobField, dl.dateOfBirth.GetOr(""), ins.dateOfBirth.GetOr(""));
    var afterDob := if dobMatch then afterName else afterName + [dobEntry];
    var addressEntry := FieldDiscrepancy(AddressField, dl.address, ins.address);
    var discrepancies := if addressMatch then afterDob else afterDob + [addressEntry];
    FieldNamesDistinct();
    FieldNamesAppend(none, nameEntry);
    FieldNamesAppend(afterName, dobEntry);
    FieldNamesAppend(afterDob, addressEntry);
    ValidationReport(
      FullName(dl.firstName, dl.lastName),
      nameMatch, dobMatch, addressMatch,
      if nameMatch && dobMatch && addressMatch then Match else Discrepancy,
      discrepancies,
      dl.filePath, ins.filePath)
  }

  /**
   * `validate_documents`, as the value it returns. The report is consistent
   * (status "match" exactly when all three checks pass, one entry per failed
   * check in the order name, date of birth, address), each entry carries the
   * original values, and the name and the two sources come from the inputs.
   */
  function Validate(dl: DriverLicenseData, ins: InsuranceData): (r: ValidationReport)
    ensures ReportConsistent(r)
    ensures r.nameMatch <==> NamesAgree(dl, ins)
    ensures r.dobMatch <==> DatesAgree(dl, ins)
    ensures r.addressMatch <==> AddressesAgree(dl, ins)
    ensures CarriesOriginals(r.discrepancies, dl, ins)
    ensures r.personName == FullName(dl.firstName, dl.lastName)
    ensures r.dlSource == dl.filePath && r.insuranceSource == ins.filePath
  {
    Report(dl, ins, NamesAgree(dl, ins), DatesAgree(dl, ins), AddressesAgree(dl, ins))
  }

  /**
   * `validate_documents` as written: a local list grows by one conditional
   * append per comparison, then the report is built from it.
   */
  method ValidateDocuments(dl: DriverLicenseData, ins: InsuranceData) returns (report: ValidationReport)
    ensures report == Validate(dl, ins)
  {
    var discrepancies: seq<FieldDiscrepancy> := [];

    var dlName := Normalize(Some(FullName(dl.firstName, dl.lastName)));
    var insName := Normalize(Some(FullName(ins.firstName, ins.lastName)));
    var nameMatch := dlName == insName;
    if !nameMatch {
      discrepancies := discrepancies + [FieldDiscrepancy(NameField,
        FullName(dl.firstName, dl.lastName), FullName(ins.firstName, ins.lastName))];
    }

    var dobMatch;
    if dl.dateOfBirth.Some? && ins.dateOfBirth.Some? {
      dobMatch := Normalize(dl.dateOfBirth) == Normalize(ins.dateOfBirth);
    } else {
      dobMatch := true;
    }
    if !dobMatch {
      discrepancies := discrepancies + [FieldDiscrepancy(DobField,
        dl.dateOfBirth.GetOr(""), ins.dateOfBirth.GetOr(""))];
    }

    var addressMatch := Normalize(Some(dl.address)) == Normalize(Some(ins.address));
    if !addressMatch {
      discrepancies := discrepancies + [FieldDiscrepancy(AddressField, dl.address, ins.address)];
    }

    var allMatch := nameMatch && dobMatch && addressMatch;
    report := ValidationReport(
      FullName(dl.firstName, dl.lastName),
      nameMatch, dobMatch, addressMatch,
      if allMatch then Match else Discrepancy,
      discrepancies,
      dl.filePath, ins.filePath);
  }

  /**
   * The invariant of every validator report: "match" iff no discrepancies
   * iff all three flags hold; at most three entries, each field at most once.
   */
  lemma ValidateReportShape(dl: DriverLicenseData, ins: InsuranceData)
    ensures var r := Validate(dl, ins);
      && (r.matchStatus == Match <==> r.discrepancies == [])
      && (r.discrepancies == [] <==> r.nameMatch && r.dobMatch && r.addressMatch)
      && |r.discrepancies| <= 3
      && forall i, j :: 0 <= i < j < |r.discrepancies| ==>
           r.discrepancies[i].fieldName != r.discrepancies[j].fieldName
  {
    ConsistentReportFacts(Validate(dl, ins));
  }

  /** When either date of birth is absent the dates agree and are not reported. */
  lemma AbsentDobMatches(dl: DriverLicenseData, ins: InsuranceData)
    requires dl.dateOfBirth.None? || ins.dateOfBirth.None?
    ensures Validate(dl, ins).dobMatch
    ensures forall d :: d in Validate(dl, ins).discrepancies ==> d.fieldName != DobField
  {
    ConsistentReportOmitsPassed(Validate(dl, ins));
  }

  /**
   * A date-of-birth entry appears only when both dates are present, and it
   * carries both dates as given.
   */
  lemma DobEntryHasBothDates(dl: DriverLicenseData, ins: InsuranceData, d: FieldDiscrepancy)
    requires d in Validate(dl, ins).discrepancies && d.fieldName == DobField
    ensures dl.dateOfBirth.Some? && ins.dateOfBirth.Some?
    ensures d.dlValue == dl.dateOfBirth.value && d.insuranceValue == ins.dateOfBirth.value
  {
    if dl.dateOfBirth.None? || ins.dateOfBirth.None? {
      AbsentDobMatches(dl, ins);
    }
  }

  /**
   * Records whose names, dates and addresses differ only in letter case (or
   * whose dates are missing on one side) match, with no discrepancies.
   */
  lemma CaseInsensitiveMatch(dl: DriverLicenseData, ins: InsuranceData)
    requires Lower(FullName(dl.firstName, dl.lastName)) == Lower(FullName(ins.firstName, ins.lastName))
    requires Lower(dl.address) == Lower(ins.address)
    requires dl.dateOfBirth.Some? && ins.dateOfBirth.Some? ==>
               Lower(dl.dateOfBirth.value) == Lower(ins.dateOfBirth.value)
    ensures Validate(dl, ins).matchStatus == Match
    ensures Validate(dl, ins).discrepancies == []
  {
    NormalizeIgnoresCase(FullName(dl.firstName, dl.lastName), FullName(ins.firstName, ins.lastName));
    NormalizeIgnoresCase(dl.address, ins.address);
    if dl.dateOfBirth.Some? && ins.dateOfBirth.Some? {
      NormalizeIgnoresCase(dl.dateOfBirth.value, ins.dateOfBirth.value);
    }
    ValidateReportShape(dl, ins);
  }

  /**
   * Whitespace around the insurance address never changes whether the
   * addresses agree, nor the overall status.
   */
  lemma AddressPaddingIgnored(dl: DriverLicenseData, ins: InsuranceData, w1: string, w2: string)
    requires AllWhitespace(w1) && AllWhitespace(w2)
    ensures var padded := Validate(dl, ins.(address := w1 + ins.address + w2));
      padded.addressMatch == Validate(dl, ins).addressMatch
      && padded.matchStatus == Validate(dl, ins).matchStatus
  {
    NormalizeIgnoresPadding(w1, ins.address, w2);
  }

  /**
   * Only the names, dates of birth, addresses and file paths affect the
   * report: the licence number, state, expiry date, policy and vehicle
   * fields do not.
   */
  lemma OnlyComparedFieldsMatter(dl: DriverLicenseData, ins: InsuranceData,
                                 dl': DriverLicenseData, ins': InsuranceData)
    requires dl'.filePath == dl.filePath && dl'.firstName == dl.firstName
    requires dl'.lastName == dl.lastName && dl'.address == dl.address
    requires dl'.dateOfBirth == dl.dateOfBirth
    requires ins'.filePath == ins.filePath && ins'.firstName == ins.firstName
    requires ins'.lastName == ins.lastName && ins'.address == ins.address
    requires ins'.dateOfBirth == ins.dateOfBirth
    ensures Validate(dl', ins') == Validate(dl, ins)
  {
  }

  /**
   * Normalisation applies to the joined name, not to each part: a trailing
   * space on a first name leaves two spaces inside, and the names differ.
   */
  lemma InternalSpacingCounts(dl: DriverLicenseData, ins: InsuranceData)
    requires dl.firstName == "John " && dl.lastName == "Smith"
    requires ins.firstName == "John" && ins.lastName == "Smith"
    ensures !Validate(dl, ins).nameMatch
    ensures Validate(dl, ins).matchStatus == Discrepancy
  {
    var a, b := FullName(dl.firstName, dl.lastName), FullName(ins.firstName, ins.lastName);
    assert a == "John  Smith" && b == "John Smith";
    NormalizeStripped(a);
    NormalizeStripped(b);
  }

  /** Records differing in the name alone yield one entry, for the name. */
  lemma OnlyNameDiffers(dl: DriverLicenseData, ins: InsuranceData)
    requires ins.address == dl.address && ins.dateOfBirth == dl.dateOfBirth
    requires Normalize(Some(FullName(dl.firstName, dl.lastName)))
             != Normalize(Some(FullName(ins.firstName, ins.lastName)))
    ensures var r := Validate(dl, ins);
      r.matchStatus == Discrepancy && !r.nameMatch && r.dobMatch && r.addressMatch
      && r.discrepancies == [FieldDiscrepancy(NameField, FullName(dl.firstName, dl.lastName),
                                              FullName(ins.firstName, ins.lastName))]
  {
    assert Validate(dl, ins) == Report(dl, ins, false, true, true);
  }

  /**
   * Records differing in the date of birth alone, both present, yield one
   * entry, for the date, carrying both dates.
   */
  lemma OnlyDobDiffers(dl: DriverLicenseData, ins: InsuranceData)
    requires ins.firstName == dl.firstName && ins.lastName == dl.lastName && ins.address == dl.address
    requires dl.dateOfBirth.Some? && ins.dateOfBirth.Some?
    requires Normalize(dl.dateOfBirth) != Normalize(ins.dateOfBirth)
    ensures var r := Validate(dl, ins);
      r.matchStatus == Discrepancy && r.nameMatch && !r.dobMatch && r.addressMatch
      && r.discrepancies == [FieldDiscrepancy(DobField, dl.dateOfBirth.value, ins.dateOfBirth.value)]
  {
    assert Validate(dl, ins) == Report(dl, ins, true, false, true);
  }

  /** Records differing in the address alone yield one entry, for the address. */
  lemma OnlyAddressDiffers(dl: DriverLicenseData, ins: InsuranceData)
    requires ins.firstName == dl.firstName && ins.lastName == dl.lastName
    requires ins.dateOfBirth == dl.dateOfBirth
    requires Normalize(Some(dl.address)) != Normalize(Some(ins.address))
    ensures var r := Validate(dl, ins);
      r.matchStatus == Discrepancy && r.nameMatch && r.dobMatch && !r.addressMatch
      && r.discrepancies == [FieldDiscrepancy(AddressField, dl.address, ins.address)]
  {
    assert Validate(dl, ins) == Report(dl, ins, true, true, false);
  }

  /**
   * Records differing in name, date of birth and address yield three
   * entries (the name counts once), in the order name, date of birth, address.
   */
  lemma AllFieldsDiffer(dl: DriverLicenseData, ins: InsuranceData)
    requires Normalize(Some(FullName(dl.firstName, dl.lastName)))
             != Normalize(Some(FullName(ins.firstName, ins.lastName)))
    requires dl.dateOfBirth.Some? && ins.dateOfBirth.Some?
    requires Normalize(dl.dateOfBirth) != Normalize(ins.dateOfBirth)
    requires Normalize(Some(dl.address)) != Normalize(Some(ins.address))
    ensures var r := Validate(dl, ins);
      r.matchStatus == Discrepancy && !r.nameMatch && !r.dobMatch && !r.addressMatch
      && |r.discrepancies| == 3
      && FieldNames(r.discrepancies) == [NameField, DobField, AddressField]
  {
    var r := Validate(dl, ins);
    assert !r.nameMatch && !r.dobMatch && !r.addressMatch;
    ConsistentReportAllFailed(r);
  }

  /** The licence record the validator's tests start from. */
  function SampleLicense(): DriverLicenseData {
    DriverLicenseData("/tmp/dl.jpg", "John", "Smith", "D1234567",
      "123 Main St, Springfield, IL 62701", "IL", Some("1985-03-15"), Some("2027-03-15"))
  }

  /** The insurance record the validator's tests start from. */
  function SampleInsurance(): InsuranceData {
    InsuranceData("/tmp/ins.pdf", "John", "Smith", Some("1985-03-15"),
      "123 Main St, Springfield, IL 62701", Some("POL-98765"), Some("Toyota"),
      Some("Camry"), Some("2022"), Some("1HGBH41JXMN109186"))
  }

  /** Identical name, date of birth and address: a match with no entries. */
  lemma AllFieldsMatchScenario()
    ensures var r := Validate(SampleLicense(), SampleInsurance());
      r.matchStatus == Match && r.nameMatch && r.dobMatch && r.addressMatch
      && r.discrepancies == []
  {
    ValidateReportShape(SampleLicense(), SampleInsurance());
  }

  /** Only the addresses differ: exactly one entry, for the address. */
  lemma AddressMismatchScenario()
    ensures var r := Validate(SampleLicense(), SampleInsurance().(address := "456 Oak Ave, Springfield, IL 62702"));
      r.matchStatus == Discrepancy && !r.addressMatch && r.nameMatch
      && r.discrepancies == [FieldDiscrepancy(AddressField,
           "123 Main St, Springfield, IL 62701", "456 Oak Ave, Springfield, IL 62702")]
  {
    var dl, ins := SampleLicense(), SampleInsurance().(address := "456 Oak Ave, Springfield, IL 62702");
    NormalizeDiffersAt(dl.address, ins.address, 0);
    OnlyAddressDiffers(dl, ins);
  }

  /** Only the first names differ: exactly one entry, for the name. */
  lemma NameMismatchScenario()
    ensures var r := Validate(SampleLicense(), SampleInsurance().(firstName := "Jonathan"));
      r.matchStatus == Discrepancy && !r.nameMatch
      && r.discrepancies == [FieldDiscrepancy(NameField, "John Smith", "Jonathan Smith")]
  {
    var dl, ins := SampleLicense(), SampleInsurance().(firstName := "Jonathan");
    assert FullName(dl.firstName, dl.lastName) == "John Smith";
    assert FullName(ins.firstName, ins.lastName) == "Jonathan Smith";
    NormalizeDiffersAt("John Smith", "Jonathan Smith", 2);
    OnlyNameDiffers(dl, ins);
  }

  /**
   * Only the dates of birth differ: exactly one entry, for the date, with
   * both dates as given.
   */
  lemma DobMismatchScenario()
    ensures var r := Validate(SampleLicense(), SampleInsurance().(dateOfBirth := Some("1985-04-20")));
      r.matchStatus == Discrepancy && !r.dobMatch
      && r.discrepancies == [FieldDiscrepancy(DobField, "1985-03-15", "1985-04-20")]
  {
    NormalizeDiffersAt("1985-03-15", "1985-04-20", 6);
    OnlyDobDiffers(SampleLicense(), SampleInsurance().(dateOfBirth := Some("1985-04-20")));
  }

  /** No date of birth on the insurance side: the dates agree and all match. */
  lemma DobNullScenario()
    ensures var r := Validate(SampleLicense(), SampleInsurance().(dateOfBirth := None));
      r.dobMatch && r.matchStatus == Match
  {
    ValidateReportShape(SampleLicense(), SampleInsurance().(dateOfBirth := None));
  }

  /** The names of the three-mismatch test case, "John Smith" and "Jane Smith", normalise differently. */
  lemma JaneSmithDiffers(first: string, last: string, first': string)
    requires first == "John" && last == "Smith" && first' == "Jane"
    ensures Normalize(Some(FullName(first, last))) != Normalize(Some(FullName(first', last)))
  {
    var a, b := FullName(first, last), FullName(first', last);
    assert a == "John Smith" && b == "Jane Smith";
    NormalizeDiffersAt(a, b, 1);
  }

  /** The dates of the three-mismatch test case normalise differently. */
  lemma DatesOfBirthDiffer(d: string, d': string)
    requires d == "1985-03-15" && d' == "1990-01-01"
    ensures Normalize(Some(d)) != Normalize(Some(d'))
  {
    NormalizeDiffersAt(d, d', 2);
  }

  /** The addresses of the three-mismatch test case normalise differently. */
  lemma AddressesDiffer(a: string, a': string)
    requires a == "123 Main St, Springfield, IL 62701" && a' == "999 Different St"
    ensures Normalize(Some(a)) != Normalize(Some(a'))
  {
    NormalizeDiffersAt(a, a', 0);
  }

  /**
   * Name, date of birth and address all differ: three entries, in the order
   * name, date of birth, address.
   */
  lemma MultipleDiscrepanciesScenario(dl: DriverLicenseData, ins: InsuranceData)
    requires dl == SampleLicense()
    requires ins == SampleInsurance().(firstName := "Jane", address := "999 Different St",
                                       dateOfBirth := Some("1990-01-01"))
    ensures var r := Validate(dl, ins);
      r.matchStatus == Discrepancy && !r.nameMatch && !r.dobMatch && !r.addressMatch
      && |r.discrepancies| == 3
      && FieldNames(r.discrepancies) == [NameField, DobField, AddressField]
  {
    JaneSmithDiffers(dl.firstName, dl.lastName, ins.firstName);
    DatesOfBirthDiffer(dl.dateOfBirth.value, ins.dateOfBirth.value);
    AddressesDiffer(dl.address, ins.address);
    AllFieldsDiffer(dl, ins);
  }

  /** Names written in upper case on one side and lower case on the other match. */
  lemma CaseInsensitiveNameScenario()
    ensures Validate(SampleLicense().(firstName := "JOHN", lastName := "SMITH"),
                     SampleInsurance().(firstName := "john", lastName := "smith")).nameMatch
  {
    var a, b := FullName("JOHN", "SMITH"), FullName("john", "smith");
    assert a == "JOHN SMITH" && b == "john smith";
    assert Lower(a) == Lower(b);
    NormalizeIgnoresCase(a, b);
  }

  /** Addresses written in different letter case match. */
  lemma CaseInsensitiveAddressScenario()
    ensures Validate(SampleLicense().(address := "123 MAIN ST"),
                     SampleInsurance().(address := "123 main st")).addressMatch
  {
    assert Lower("123 MAIN ST") == Lower("123 main st");
    NormalizeIgnoresCase("123 MAIN ST", "123 main st");
  }
}
