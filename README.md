# Cross-document validator, modelled in Dafny

This project models the deterministic core of a document-checking toolkit.
The toolkit has two kinds of record: a driver-licence record and an
insurance record, each extracted from a scanned document. The validator
(`validate_documents`) compares one record of each kind for the same person
and reports the fields that disagree.

The validator makes three checks:

- **name**: first and last name joined with one space, then normalised;
- **date of birth**: compared only when both records carry one;
- **address**: normalised, then compared.

Normalisation (`_normalize`) turns an absent value into the empty string.
Otherwise it strips surrounding whitespace and lower-cases the text. It does
not collapse internal spaces and it keeps punctuation. Each failed check
appends one discrepancy that carries the original, un-normalised values. The
entries come in the fixed order name, date of birth, address. The status is
"match" exactly when all three checks pass.

Files:

- `wrappers.dfy`: `Option`, for the source's `str | None` fields.
- `models.dfy`: the record types as datatypes. The `Literal` fields become
  enumerations, with a parser that accepts exactly their labels.
  Constructors with defaults become functions that leave the optional
  fields absent. It also defines `ReportConsistent`, the invariant the
  report type itself does not enforce.
- `text.dfy`: Python's `str.strip()` and `str.lower()` on `seq<char>`.
  `Strip` is `lstrip` then `rstrip`, as the interpreter does it. A lemma
  shows that the result is uniquely determined: it is the input minus its
  surrounding whitespace, and nothing else.
- `validator.dfy`: `Normalize`, and the validator twice over. `Validate` is
  the report as a value. `ValidateDocuments` is the imperative form that
  grows a local list by conditional appends, and it is proved equal to
  `Validate`. The file also holds the lemmas for the properties the
  validator and its tests promise.

The main result is that every report `validate_documents` builds is
consistent. The status is "match" if and only if the discrepancy list is
empty, and that holds if and only if all three flags are true. The list
names exactly the failed fields, in order, so it has at most three entries.
The record type alone admits inconsistent reports
(`ReportTypeAdmitsInconsistency`), so this is a property of the validator,
not of the type.

## Model

| member | source | states |
|---|---|---|
| `Models.ParseDocumentType` | legal_skills/models.py:14 | a `document_type` is accepted iff it is one of `driver_license`, `insurance`, `unknown`, and it then reads back as the type with that label |
| `Models.NewDriverLicense` | legal_skills/models.py:18-28 | a licence record built from its six required strings keeps them and has no date of birth and no expiry date |
| `Models.NewInsurance` | legal_skills/models.py:31-43 | an insurance record built from its four required strings keeps them and has all six optional fields absent |
| `Models.ParseMatchStatus` | legal_skills/models.py:61 | a `match_status` is accepted iff it is `match` or `discrepancy`, and it reads back as that status |
| `Models.ConsistentReportFacts` | legal_skills/models.py:54-64 | for a consistent report: "match" iff no discrepancies iff all three flags hold; one entry per false flag, so at most three; no field named twice; every entry names a failed field |
| `Models.ConsistentReportOmitsPassed` | legal_skills/models.py:54-64 | in a consistent report, a check whose flag is true has no entry with its field name |
| `Models.ReportTypeAdmitsInconsistency` | legal_skills/models.py:54-64 | the report type accepts a report that is not consistent ("match" beside a false flag and an entry) |
| `Text.LowerChar` | doc-validator/scripts/validate.py:22 | one character of `lower()`: the result is never upper case; only upper-case letters change, each to the letter 32 code points above; whitespace is kept |
| `Text.StripStart` | doc-validator/scripts/validate.py:22 | the left pass of `strip()`: what remains is no longer than the input, what was dropped is all whitespace, and what remains does not start with whitespace |
| `Text.StripEnd` | doc-validator/scripts/validate.py:22 | the right pass of `strip()`: what was dropped is all whitespace, and what remains does not end with whitespace |
| `Text.Strip` | doc-validator/scripts/validate.py:22 | `strip()` returns a string with no whitespace at either end, and the input is that string with only whitespace added around it |
| `Text.StripOf` | doc-validator/scripts/validate.py:22 | for any whitespace `a`, `b` and any `m` with no whitespace at its ends, `strip(a + m + b) == m` |
| `Text.StripStartOf` | doc-validator/scripts/validate.py:22 | `lstrip` of a whitespace prefix followed by a string not starting with whitespace returns exactly that string |
| `Text.StripEndOf` | doc-validator/scripts/validate.py:22 | `rstrip` of a string not ending with whitespace followed by a whitespace suffix returns exactly that string |
| `Text.StripIdempotent` | doc-validator/scripts/validate.py:22 | stripping twice equals stripping once |
| `Text.StripIgnoresPadding` | doc-validator/scripts/validate.py:22 | adding whitespace around a string does not change what `strip()` returns |
| `Text.StripLower` | doc-validator/scripts/validate.py:22 | `strip` and `lower` commute |
| `Text.LowerIdempotent` | doc-validator/scripts/validate.py:22 | lower-casing twice equals lower-casing once |
| `Text.Lower` | doc-validator/scripts/validate.py:22 | `str.lower()` on a whole string: `LowerChar` applied at every position, nothing added or removed; it has no contract of its own, and `Text.LowerIdempotent` and `Text.StripLower` state its properties |
| `Validator.Normalize` | doc-validator/scripts/validate.py:18-22 | `_normalize`: it has no contract of its own; `Validator.NormalizeMeaning` states what it means |
| `Validator.FullName` | doc-validator/scripts/validate.py:37-38 | the f-string joining first and last name with one space, also used for `person_name` (line 79) and the name entry's values (lines 44-45); it has no contract of its own |
| `Validator.NormalizeMeaning` | doc-validator/scripts/validate.py:18-22 | an absent value normalises to ""; otherwise the result has no whitespace at its ends and no upper-case letter, and it is the lower-cased input with only its surrounding whitespace removed |
| `Validator.NormalizeIdempotent` | doc-validator/scripts/validate.py:18-22 | normalising a normalised value changes nothing |
| `Validator.NormalizeIgnoresCase` | doc-validator/scripts/validate.py:18-22 | strings that are equal after lower-casing normalise alike |
| `Validator.NormalizeIgnoresPadding` | doc-validator/scripts/validate.py:18-22 | whitespace added around a string does not change its normal form |
| `Validator.NormalizeStripped` | doc-validator/scripts/validate.py:18-22 | a string with no whitespace at its ends normalises to its lower-cased self |
| `Validator.NormalizeDiffersAt` | doc-validator/scripts/validate.py:18-22 | two strings with no whitespace at their ends, whose characters at one position differ even after lower-casing, normalise differently |
| `Validator.Report` | doc-validator/scripts/validate.py:34-87 | the report assembled from three outcomes is consistent, keeps the three flags, each entry carries the original values, and `person_name` and both sources come from the inputs |
| `Validator.Validate` | doc-validator/scripts/validate.py:25-87 | the report is consistent; each flag holds iff its normalised comparison succeeds (the date only when both are present); entries carry the original values; `person_name` is the licence's joined name; the sources are the two file paths |
| `Validator.ValidateDocuments` | doc-validator/scripts/validate.py:25-87 | the imperative version, growing the list by appends, returns exactly `Validate`'s report |
| `Validator.ValidateReportShape` | doc-validator/scripts/validate.py:34-83 | "match" iff no discrepancies iff all three flags hold; at most three entries; no field named twice |
| `Validator.AbsentDobMatches` | doc-validator/scripts/validate.py:49-63 | when either date of birth is absent, `dob_match` holds and no entry is for the date of birth |
| `Validator.DobEntryHasBothDates` | doc-validator/scripts/validate.py:49-63 | a date-of-birth entry appears only when both dates are present, and it carries both dates as given |
| `Validator.CaseInsensitiveMatch` | doc-validator/scripts/validate.py:36-74 | records whose joined names, addresses and (present) dates differ only in letter case match, with no discrepancies |
| `Validator.AddressPaddingIgnored` | doc-validator/scripts/validate.py:65-66 | whitespace around the insurance address changes neither `address_match` nor the status |
| `Validator.OnlyComparedFieldsMatter` | doc-validator/scripts/validate.py:78-87 | the report depends only on the names, dates of birth, addresses and file paths; licence number, state, expiry, policy and vehicle fields have no effect |
| `Validator.InternalSpacingCounts` | doc-validator/scripts/validate.py:37-38 | normalisation is applied to the joined name, so a first name "John " against "John" (same last name) is a name mismatch |
| `Validator.OnlyNameDiffers` | doc-validator/scripts/validate.py:36-47 | records that differ only in the name give a single "name" entry holding both joined names, and status "discrepancy" |
| `Validator.OnlyDobDiffers` | doc-validator/scripts/validate.py:49-63 | records that differ only in two present dates of birth give a single "date_of_birth" entry holding both dates |
| `Validator.OnlyAddressDiffers` | doc-validator/scripts/validate.py:65-74 | records that differ only in the address give a single "address" entry holding both addresses |
| `Validator.AllFieldsDiffer` | doc-validator/scripts/validate.py:34-83 | records that differ in name, date of birth and address give exactly three entries, named name, date_of_birth, address in that order |
| `Validator.AllFieldsMatchScenario` | tests/test_validate.py:40-46 | the default pair of records matches, with all flags true and no entries |
| `Validator.AddressMismatchScenario` | tests/test_validate.py:49-58 | a different insurance address gives status "discrepancy" and one address entry with both addresses |
| `Validator.NameMismatchScenario` | tests/test_validate.py:61-69 | first name "Jonathan" against "John" gives one name entry, "John Smith" against "Jonathan Smith" |
| `Validator.DobMismatchScenario` | tests/test_validate.py:72-80 | date 1985-04-20 against 1985-03-15 gives one date_of_birth entry with both dates |
| `Validator.DobNullScenario` | tests/test_validate.py:83-89 | no insurance date of birth still gives `dob_match` and status "match" |
| `Validator.MultipleDiscrepanciesScenario` | tests/test_validate.py:92-105 | first name "Jane", date 1990-01-01 and address "999 Different St" against the defaults give status "discrepancy", all three flags false and three entries named name, date_of_birth, address |
| `Validator.CaseInsensitiveNameScenario` | tests/test_validate.py:108-113 | "JOHN SMITH" and "john smith" agree on the name |
| `Validator.CaseInsensitiveAddressScenario` | tests/test_validate.py:116-121 | "123 MAIN ST" and "123 main st" agree on the address |

## Left out

- The driver-licence and insurance extractors (`extract_dl.py`, `extract_insurance.py`) are not modelled. Each is one call to an external vision model followed by JSON parsing. The pydantic check that rejects a reply missing a required field is also left out. In the model the required fields are constructor arguments, so they cannot be missing.
- The classifier (`classify.py`) is not modelled. It is an external model call, and its only local logic is the `.get` defaults for a missing label or confidence.
- `ClassificationResult.confidence` is a Python float. The model uses `real` for it. Nothing in the source bounds it to [0, 1], and neither does the model.
- The image normaliser (`image_utils.py`) is not modelled. It wraps PDF rendering, image decoding and base64 encoding, all foreign calls. `file_to_base64_image` (legal_skills/image_utils.py:11-26) takes no rotation flag and has no rotation step.
- The command-line entry points, JSON (de)serialisation and printing are not modelled. Neither are the test-path setup and the integration tests, which need a live model service.
- `Text.LowerChar`: `str.lower` is modelled for the ASCII and Latin-1 upper-case letters only. Other scripts and multi-character lower-case mappings are not covered. The whitespace that `strip` removes is Python's full `str.isspace` set.

Internal spacing is significant: the normaliser trims only the ends of the joined name, so "JOHN  SMITH" and "john smith" differ (`Validator.InternalSpacingCounts`).
