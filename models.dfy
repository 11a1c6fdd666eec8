/**
 * The record types shared by the document skills. Each pydantic model is a
 * datatype; a field typed `str | None = None` is an `Option<string>`, and a
 * `Literal[...]` field is an enumeration whose wire labels are given by a
 * `Label` function and read back by a `Parse...` function.
 */
module Models {
  import opened Wrappers

  /** The three labels a classification may carry. */
  datatype DocumentType = DriverLicense | Insurance | Unknown

  function DocumentTypeLabel(t: DocumentType): string {
    match t
    case DriverLicense => "driver_license"
    case Insurance => "insurance"
    case Unknown => "unknown"
  }

  /**
   * Literal validation of `document_type`: a string is accepted exactly when
   * it is the label of some document type, and then it reads back as that type.
   */
  function ParseDocumentType(s: string): (r: Option<DocumentType>)
    ensures r.Some? <==> s == "driver_license" || s == "insurance" || s == "unknown"
    ensures r.Some? ==> DocumentTypeLabel(r.value) == s
    ensures forall t :: DocumentTypeLabel(t) == s ==> r == Some(t)
  {
    if s == "driver_license" then Some(DriverLicense)
    else if s == "insurance" then Some(Insurance)
    else if s == "unknown" then Some(Unknown)
    else None
  }

  /** The confidence is a float in the source; it is modelled as a real. */
  datatype ClassificationResult = ClassificationResult(
    filePath: string,
    documentType: DocumentType,
    confidence: real)

  datatype DriverLicenseData = DriverLicenseData(
    filePath: string,
    firstName: string,
    lastName: string,
    licenseNumber: string,
    address: string,
    state: string,
    dateOfBirth: Option<string>,
    expirationDate: Option<string>)

  /**
   * Building a licence record from its six required fields: both optional
   * dates take their default, absent.
   */
  function NewDriverLicense(filePath: string, firstName: string, lastName: string,
                            licenseNumber: string, address: string, state: string)
    : (dl: DriverLicenseData)
    ensures dl.dateOfBirth == None && dl.expirationDate == None
    ensures dl.filePath == filePath && dl.firstName == firstName && dl.lastName == lastName
    ensures dl.licenseNumber == licenseNumber && dl.address == address && dl.state == state
  {
    DriverLicenseData(filePath, firstName, lastName, licenseNumber, address, state, None, None)
  }

  datatype InsuranceData = InsuranceData(
    filePath: string,
    firstName: string,
    lastName: string,
    dateOfBirth: Option<string>,
    address: string,
    policyNumber: Option<string>,
    vehicleMake: Option<string>,
    vehicleModel: Option<string>,
    vehicleYear: Option<string>,
    vin: Option<string>)

  /**
   * Building an insurance record from its four required fields: all six
   * optional fields take their default, absent.
   */
  function NewInsurance(filePath: string, firstName: string, lastName: string, address: string)
    : (ins: InsuranceData)
    ensures ins.dateOfBirth == None && ins.policyNumber == None && ins.vin == None
    ensures ins.vehicleMake == None && ins.vehicleModel == None && ins.vehicleYear == None
    ensures ins.filePath == filePath && ins.firstName == firstName
    ensures ins.lastName == lastName && ins.address == address
  {
    InsuranceData(filePath, firstName, lastName, None, address, None, None, None, None, None)
  }

  datatype FieldDiscrepancy = FieldDiscrepancy(
    fieldName: string,
    dlValue: string,
    insuranceValue: string)

  /** The two values `match_status` may take. */
  datatype MatchStatus = Match | Discrepancy

  function MatchStatusLabel(m: MatchStatus): string {
    match m
    case Match => "match"
    case Discrepancy => "discrepancy"
  }

  /** Literal validation of `match_status`. */
  function ParseMatchStatus(s: string): (r: Option<MatchStatus>)
    ensures r.Some? <==> s == "match" || s == "discrepancy"
    ensures r.Some? ==> MatchStatusLabel(r.value) == s
    ensures forall m :: MatchStatusLabel(m) == s ==> r == Some(m)
  {
    if s == "match" then Some(Match)
    else if s == "discrepancy" then Some(Discrepancy)
    else None
  }

  datatype ValidationReport = ValidationReport(
    personName: string,
    nameMatch: bool,
    dobMatch: bool,
    addressMatch: bool,
    matchStatus: MatchStatus,
    discrepancies: seq<FieldDiscrepancy>,
    dlSource: string,
    insuranceSource: string)

  /** The field names a validator compares, in the order it compares them. */
  const NameField := "name"
  const DobField := "date_of_birth"
  const AddressField := "address"

  /** The three field names are distinct (their lengths already differ). */
  lemma FieldNamesDistinct()
    ensures NameField != DobField && DobField != AddressField && NameField != AddressField
  {
    assert |NameField| == 4 && |DobField| == 13 && |AddressField| == 7;
  }

  function FieldNames(ds: seq<FieldDiscrepancy>): (names: seq<string>)
    ensures |names| == |ds|
    ensures forall i :: 0 <= i < |ds| ==> names[i] == ds[i].fieldName
  {
    if ds == [] then [] else [ds[0].fieldName] + FieldNames(ds[1..])
  }

  /** Appending an entry appends its field name. */
  lemma FieldNamesAppend(ds: seq<FieldDiscrepancy>, d: FieldDiscrepancy)
    ensures FieldNames(ds + [d]) == FieldNames(ds) + [d.fieldName]
  {
    assert forall i :: 0 <= i < |ds| ==> (ds + [d])[i] == ds[i];
  }

  /** The names of the fields whose flag is false, in comparison order. */
  function FailedFields(nameMatch: bool, dobMatch: bool, addressMatch: bool): seq<string> {
    (if nameMatch then [] else [NameField])
    + (if dobMatch then [] else [DobField])
    + (if addressMatch then [] else [AddressField])
  }

  /**
   * What a report produced by the validator satisfies, though the type does
   * not demand it: the status is "match" exactly when all three flags hold,
   * and the discrepancy list names exactly the failed fields, in order.
   */
  predicate ReportConsistent(r: ValidationReport) {
    && (r.matchStatus == Match <==> r.nameMatch && r.dobMatch && r.addressMatch)
    && FieldNames(r.discrepancies) == FailedFields(r.nameMatch, r.dobMatch, r.addressMatch)
  }

  /**
   * Consequences of consistency: "match" iff the list is empty iff all flags
   * hold; one entry per false flag, so at most three; each field at most once.
   */
  lemma ConsistentReportFacts(r: ValidationReport)
    requires ReportConsistent(r)
    ensures r.matchStatus == Match <==> r.discrepancies == []
    ensures r.discrepancies == [] <==> r.nameMatch && r.dobMatch && r.addressMatch
    ensures |r.discrepancies|
            == (if r.nameMatch then 0 else 1) + (if r.dobMatch then 0 else 1)
               + (if r.addressMatch then 0 else 1)
    ensures |r.discrepancies| <= 3
    ensures forall i, j :: 0 <= i < j < |r.discrepancies| ==>
              r.discrepancies[i].fieldName != r.discrepancies[j].fieldName
    ensures forall d :: d in r.discrepancies ==>
              d.fieldName in FailedFields(r.nameMatch, r.dobMatch, r.addressMatch)
  {
    var names := FieldNames(r.discrepancies);
    assert |names| == |FailedFields(r.nameMatch, r.dobMatch, r.addressMatch)|;
  }

  /** In a consistent report, a check that passed has no entry. */
  lemma ConsistentReportOmitsPassed(r: ValidationReport)
    requires ReportConsistent(r)
    ensures r.nameMatch ==> forall d :: d in r.discrepancies ==> d.fieldName != NameField
    ensures r.dobMatch ==> forall d :: d in r.discrepancies ==> d.fieldName != DobField
    ensures r.addressMatch ==> forall d :: d in r.discrepancies ==> d.fieldName != AddressField
  {
    ConsistentReportFacts(r);
    FieldNamesDistinct();
  }

  /** A consistent report whose three checks all failed lists all three fields, in order. */
  lemma ConsistentReportAllFailed(r: ValidationReport)
    requires ReportConsistent(r)
    requires !r.nameMatch && !r.dobMatch && !r.addressMatch
    ensures r.matchStatus == Discrepancy && |r.discrepancies| == 3
    ensures FieldNames(r.discrepancies) == [NameField, DobField, AddressField]
  {
  }

  /**
   * The record type alone does not tie the status to the flags or the list:
   * a report saying "match" beside a false flag and a discrepancy is a valid
   * instance of the type, and it is not consistent.
   */
  lemma ReportTypeAdmitsInconsistency()
    ensures exists r: ValidationReport :: !ReportConsistent(r)
  {
    var r := ValidationReport("John Smith", true, true, false, Match,
      [FieldDiscrepancy(AddressField, "123 Main St", "456 Oak Ave")], "/tmp/dl.pdf", "/tmp/ins.pdf");
    assert !ReportConsistent(r);
  }
}
