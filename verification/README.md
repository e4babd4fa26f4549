# Document-compliance core of the partner-document validator

This project models the part of the Streamlit validator that decides whether a partner's
documents comply with a per-country policy. The model covers:

- the static `COUNTRY_RULES` table: for every country and person type, the identification label,
  the required document kinds and the maximum age of each kind in days;
- `parse_date_safe`;
- the check run on each uploaded file:
  - default and strip the detected kind;
  - compare the legal name case-insensitively;
  - compare the identification case-sensitively;
  - check the issue date against the kind's maximum age;
  - build one row of the results table;
- the loop over the uploads, which skips a file when the extraction service fails;
- the global summary: the required kinds that are missing, whether any row is an ERROR or a
  WARNING, and which banners are shown.

Modules, one concern each:

- `Wrappers` (text.dfy) holds `Option`, which stands for a Python value that may be `None`.
- `Text` (text.dfy) models the Python string operations the check relies on:
  - `str.strip()` over the exact `str.isspace()` set;
  - `str.lower()`;
  - the `in` substring test;
  - `" | ".join`;
  - the decimal rendering of an `int`.
- `Severity` (severity.dfy) holds the `Estado` values and their order OK < WARNING < ERROR.
- `Policy` (policy.dfy) holds the table, with all 18 entries copied exactly.
- `Validation` (validation.dfy) holds the per-file check:
  - `ValidateDocument` and its three steps `CheckName`, `CheckId` and `CheckVigency` are methods
    that update `estado` and `detalle_msgs` step by step, as the loop body does;
  - they are proved equal to `ExpectedRow`, whose status is the maximum severity of the findings.
- `ValidationProperties` (validation_props.dfy) holds what the per-file check guarantees.
- `Batch` (batch.dfy) holds:
  - the loop `RunBatch`, proved against `BatchRows` and `DetectedKinds`;
  - the missing-kinds filter, the `any(...)` flags and the banners;
  - `RunValidation`, covering the guards before the loop and the early return when no row was
    produced.
- `BatchProperties` (batch_props.dfy) holds what the loop and the summary guarantee, including
  the Colombian RUT scenario.

How the model represents things the program gets from outside:

- **Time:** instants are integers in microseconds, the resolution of `timedelta`.
- **The clock:** `datetime.now()` is read at most once per file, only when the age is checked, so
  each upload carries its own clock reading.
- **Date parsing:** `datetime.fromisoformat` is a parameter `fromIso : string -> Option<int>`.
  `None` stands for "raises".
- **The extraction service:** its reply for each file is a parameter. It is either a record or a
  service error (`OpenAIError`). The record the program substitutes for an undecodable reply is
  `UndecodableReply`.
- **The service client:** whether it could be created is a boolean.

Behaviour of the code worth noting:

- With no answered upload, the code stops at `if not results:` and shows no summary.
  `RunValidation` returns `NoResults` in that case; it does not report every required kind as
  missing. `MissingDocsNothingDetected` still proves that the filter itself yields the full
  required list when nothing is detected.
- A `tipo_documento` made only of whitespace is not defaulted: it strips to the empty string
  (`DocKindDefaults`). Only `null` or `""` become "Desconocido".
- A maximum age of `0` is falsy and disables the vigency check, like a missing rule.
- The messages are the code's Spanish strings. The age message prints the number of days with
  `IntToDecimal`.
- The name test is `expected.lower() in detected.lower()`. The identification test is
  `expected in detected`, case-sensitive.
- The status is written by overwriting `estado` in check order. `OverwriteIsMax` and
  `FindingsAscending` prove that this equals the maximum severity, because only the last check
  can raise ERROR.

## Model

| member | source | states |
|---|---|---|
| Policy.Lookup | streamlit_app.py:16-297 | every entry the selectors can reach is well formed: non-empty id label, no duplicate required kinds, every required kind has a positive maximum age, and "Desconocido" is neither required nor aged |
| Policy.LookupIsTableEntry | streamlit_app.py:603 | every (country, person type) pair the selectors offer is a key of the table, and the lookup returns that key's entry |
| Policy.EntryWellFormed | streamlit_app.py:16-297 | each of the 18 entries is well formed and does not mention "Desconocido" |
| Policy.CountryRulesWellFormed | streamlit_app.py:16-297 | every value of the table is well formed and requires no "Desconocido" document |
| Policy.ColombiaEntriesWellFormed | streamlit_app.py:17-46 | both Colombian entries are well formed |
| Policy.MexicoEntriesWellFormed | streamlit_app.py:47-78 | both Mexican entries are well formed |
| Policy.BrasilEntriesWellFormed | streamlit_app.py:79-112 | both Brazilian entries are well formed |
| Policy.ArgentinaEntriesWellFormed | streamlit_app.py:113-144 | both Argentinian entries are well formed |
| Policy.ChileEntriesWellFormed | streamlit_app.py:145-176 | both Chilean entries are well formed |
| Policy.PeruEntriesWellFormed | streamlit_app.py:177-208 | both Peruvian entries are well formed |
| Policy.EcuadorEntriesWellFormed | streamlit_app.py:209-238 | both Ecuadorian entries are well formed |
| Policy.UruguayEntriesWellFormed | streamlit_app.py:239-268 | both Uruguayan entries are well formed |
| Policy.CostaRicaEntriesWellFormed | streamlit_app.py:269-296 | both Costa Rican entries are well formed |
| Policy.KeyNamesDistinct | streamlit_app.py:520-525 | distinct country or person-type constructors stand for distinct keys, as shown by the selectors |
| Policy.CountriesListEveryCountry | streamlit_app.py:520 | the country selector lists every country of the table, each once |
| Text.StripLeftSpec | streamlit_app.py:624-626 | left stripping removes exactly the leading whitespace |
| Text.StripRightSpec | streamlit_app.py:624-626 | right stripping removes exactly the trailing whitespace |
| Text.StripSpec | streamlit_app.py:624-626 | `strip()` removes whitespace, and only whitespace, from both ends; the result does not start or end with whitespace, and it is empty exactly when the input is all whitespace |
| Text.StripIdempotent | streamlit_app.py:624-626 | stripping twice equals stripping once |
| Text.LowerChar | streamlit_app.py:642 | the lowered character is never upper-case, and non-upper-case characters are unchanged |
| Text.Lower | streamlit_app.py:642 | lowering keeps the length, leaves no upper-case letter, and keeps every character that was not upper-case in its place |
| Text.LowerIdempotent | streamlit_app.py:642 | lowering twice equals lowering once |
| Text.LowerSlice | streamlit_app.py:642 | lowering commutes with slicing |
| Text.ContainsIffOccurs | streamlit_app.py:642 | the left-to-right scan answers exactly whether the needle occurs at some index |
| Text.ContainsTrivialCases | streamlit_app.py:655 | the empty string occurs in every string, and every string occurs in itself |
| Text.ContainsLower | streamlit_app.py:642 | a case-sensitive occurrence is also a case-insensitive one |
| Text.JoinStartsWithFirst | streamlit_app.py:686 | a join starts with its first part and is at least as long as the parts' separators |
| Text.NatToDecimal | streamlit_app.py:669 | the decimal rendering is non-empty, all digits, with no leading zero |
| Text.NatToDecimalRoundTrip | streamlit_app.py:669 | the rendered days read back as the same number |
| Severity.LabelInjective | streamlit_app.py:685 | distinct statuses show distinct `Estado` labels |
| Severity.Max | streamlit_app.py:632-675 | the maximum of two statuses is one of them and at least as severe as both |
| Severity.MaxOf | streamlit_app.py:632-675 | the maximum of a list is at least as severe as every element and is OK or one of them |
| Severity.MaxOfOkIff | streamlit_app.py:632-675 | the maximum is OK exactly when every status is OK |
| Severity.MaxOfErrorDominates | streamlit_app.py:664-670 | the maximum is ERROR exactly when some status is ERROR, whatever warnings are present |
| Validation.ParseDateSafe | streamlit_app.py:465-472 | a missing or empty date string gives `None`; any other string gives what the ISO parser gives, with `None` where it raises |
| Validation.NameFindings | streamlit_app.py:636-646 | the name comparison raises at most one finding, and it is a WARNING |
| Validation.IdFindings | streamlit_app.py:648-659 | the identification comparison raises at most one finding, and it is a WARNING |
| Validation.VigencyFindings | streamlit_app.py:661-675 | the vigency check raises at most one finding, and it is never OK |
| Validation.CheckName | streamlit_app.py:636-646 | the name step leaves `estado` overwritten by, and `detalle_msgs` extended with, exactly the name findings |
| Validation.CheckId | streamlit_app.py:648-659 | the identification step leaves `estado` overwritten by, and `detalle_msgs` extended with, exactly the identification findings |
| Validation.CheckVigency | streamlit_app.py:661-675 | the vigency step leaves `estado` overwritten by, and `detalle_msgs` extended with, exactly the vigency finding |
| Validation.OverwriteIsMax | streamlit_app.py:632-675 | when severities never decrease along the findings, the last one written is the maximum |
| Validation.FindingsAscending | streamlit_app.py:635-675 | in check order (name, identification, vigency) severities never decrease |
| Validation.ValidateDocument | streamlit_app.py:624-688 | the row built step by step is the row whose status is the most severe finding and whose detail joins all messages in check order, or reads "OK" when there are none |
| ValidationProperties.RowOkIffNoFindings | streamlit_app.py:632-686 | a row is OK, and its detail reads "OK", exactly when no check raised a finding; there are at most three findings |
| ValidationProperties.ErrorOnlyFromVigency | streamlit_app.py:636-675 | among the findings only the vigency check's can be ERROR |
| ValidationProperties.ErrorIffTooOld | streamlit_app.py:661-670 | a row is ERROR exactly when the kind has a non-zero maximum age, the issue date parses, and more time than that has elapsed; warnings never hide it |
| ValidationProperties.ErrorIgnoresExpectations | streamlit_app.py:636-670 | whether a row is ERROR does not depend on the expected name or identification |
| ValidationProperties.WarningIffFindingsButNotTooOld | streamlit_app.py:632-675 | a row is WARNING exactly when something was found and the document is not too old |
| ValidationProperties.NameCheckIff | streamlit_app.py:636-646 | the name check passes exactly when no name is expected or the lowered expected name occurs in the lowered detected one |
| ValidationProperties.NameCheckAcceptsContainment | streamlit_app.py:642 | a detected name that contains the expected one verbatim passes |
| ValidationProperties.NameCheckIgnoresCase | streamlit_app.py:642 | lowering either name does not change the name check |
| ValidationProperties.IdCheckIff | streamlit_app.py:648-659 | the identification check passes exactly when no identification is expected or the expected one occurs in the detected one |
| ValidationProperties.NameExamples | streamlit_app.py:642-646 | "ACME" passes against "ACME Corp S.A." and draws the mismatch warning against "Beta Corp" |
| ValidationProperties.IdExampleIsCaseSensitive | streamlit_app.py:655-659 | an identification differing only in case draws the mismatch warning, while the same pair of names passes |
| ValidationProperties.VigencyBoundary | streamlit_app.py:664-670 | a document exactly the maximum age passes, one microsecond older is ERROR with the age message |
| ValidationProperties.VigencyBoundaryNinetyDays | streamlit_app.py:664-670 | with a 90-day limit, 90 days old passes and 91 days old is ERROR |
| ValidationProperties.NoRuleNoVigencyCheck | streamlit_app.py:662-664 | a kind with no maximum age, or a maximum age of 0, is never age-checked |
| ValidationProperties.UnreadableDateWarns | streamlit_app.py:671-675 | a kind with a maximum age and an unreadable issue date draws the date WARNING, not an ERROR |
| ValidationProperties.DocKindDefaults | streamlit_app.py:624 | a missing or empty kind becomes "Desconocido", a whitespace-only one becomes "", any other is the stripped kind |
| ValidationProperties.UndecodableReplyRow | streamlit_app.py:454-461 | an undecodable reply gives a "Desconocido" row whose detected name, identification, issue date and expiry date all read "—"; under any table policy it is never ERROR and is WARNING exactly when a name or identification was expected |
| Batch.Banners | streamlit_app.py:708-748 | the all-clear banner appears, alone, exactly when nothing is missing and no row is ERROR or WARNING; the missing banner appears exactly when kinds are missing, carries exactly the missing list, and comes first; the critical banner appears exactly on an ERROR; the minor banner exactly on a WARNING without ERROR; no other banner appears, and none appears twice |
| Batch.RunBatch | streamlit_app.py:604-688 | the loop yields one row per answered upload in upload order, skipping service errors, and the set of their kinds |
| Batch.RunValidation | streamlit_app.py:590-748 | a press of the button ends in the guard errors, no results, or the report over the loop's rows |
| BatchProperties.MissingDocsMembership | streamlit_app.py:700-704 | a kind is reported missing exactly when it is required and not detected |
| BatchProperties.MissingDocsEmptyIff | streamlit_app.py:700-708 | nothing is missing exactly when every required kind was detected |
| BatchProperties.MissingDocsKeepsOrder | streamlit_app.py:700-704 | the missing kinds keep the policy's order |
| BatchProperties.MissingDocsNothingDetected | streamlit_app.py:700-704 | with nothing detected, all required kinds are missing, in order |
| BatchProperties.ExtraKindIgnored | streamlit_app.py:700-704 | detecting a kind that is not required does not change the missing list |
| BatchProperties.AnyStatusIff | streamlit_app.py:705-706 | the ERROR/WARNING flag holds exactly when some row has that status |
| BatchProperties.BatchRowsConcat | streamlit_app.py:610-688 | the rows of two runs of uploads in turn are the rows of their concatenation |
| BatchProperties.DetectedKindsConcat | streamlit_app.py:630 | the kinds of two runs of uploads in turn are the union of their kinds |
| BatchProperties.FailedUploadAddsNoRow | streamlit_app.py:616-622 | a file whose extraction failed adds no row |
| BatchProperties.FailedUploadAddsNoKind | streamlit_app.py:616-630 | a file whose extraction failed adds no detected kind |
| BatchProperties.AnsweredUploadRow | streamlit_app.py:677-688 | an answered file contributes its own row between the rows of the files before and after it |
| BatchProperties.NoRowsIffAllFailed | streamlit_app.py:692-695 | the loop yields no row exactly when every upload failed |
| BatchProperties.CheckerKeepsKind | streamlit_app.py:680 | each row records its document under the kind that was added to the detected set |
| BatchProperties.DetectedKindsAreRowKinds | streamlit_app.py:630 | the detected kinds are exactly the kinds of the rows |
| BatchProperties.GuardsInOrder | streamlit_app.py:591-601 | a missing API key is reported first, then the lack of uploads; a report needs both plus a working client |
| BatchProperties.ReportIffSomeAnswered | streamlit_app.py:591-695 | a report is produced exactly when the guards pass and some upload was answered |
| BatchProperties.SummaryReflectsRows | streamlit_app.py:705-748 | the flags and the critical banner reflect the rows' statuses, and the all-clear banner means nothing missing and every row OK |
| BatchProperties.UnknownKindSatisfiesNothing | streamlit_app.py:700-704 | a "Desconocido" document never removes a kind from the missing list of any table policy |
| BatchProperties.ColombiaRutRow | streamlit_app.py:661-670 | a Colombian RUT issued 400 days earlier is ERROR against its 365-day limit |
| BatchProperties.ColombiaRutMissing | streamlit_app.py:700-704 | with only a RUT, a Colombian natural person lacks the identity document and the bank certificate |
| BatchProperties.ColombiaRutScenario | streamlit_app.py:590-748 | that batch reports one ERROR row, those two missing kinds, and the missing and critical banners |

## Left out

- PDF text extraction (`extract_text_from_pdf`) and the call to the extraction service are outside
  the model. The service's reply for each file is an input. A reply is a record or a service error.
- Exceptions other than `OpenAIError` are not modelled: a PDF that fails to parse, or another
  failure of the service call. The program does not catch them, and the run ends there.
- The model assumes the decoded JSON is an object with string or `null` values. A JSON value of
  another type (a number, a list, a non-object reply) is not modelled.
- Date parsing is not modelled in detail. `datetime.fromisoformat` is an uninterpreted parameter,
  so the set of accepted ISO formats is not modelled.
- An issue date carrying a time-zone offset makes `datetime.now() - fecha_emision` raise a
  `TypeError`. The model does not capture that crash.
- `Validation.Days` ignores the `OverflowError` of `timedelta(days=...)` for ages beyond
  999999999 days. Every table value is far below that.
- `Text.Lower` lowers only ASCII `A`-`Z` and the Latin-1 upper-case letters `À`-`Þ` (except `×`).
  Python's `str.lower()` covers all of Unicode, including multi-character lowerings.
- Only the outcome of `get_client` matters to the model. It is a boolean input.
- The presentation layer is not modelled:
  - the CSS;
  - the progress bar and the "Procesando" messages;
  - the HTML text of the banners, which are modelled as their kinds;
  - the DataFrame rendering;
  - the disclaimer.
- The identification column is headed with the label, as in `f"{id_label} detectado"`. The model
  keeps the column's value but not that header text.
- `fecha_vencimiento` is only displayed and never checked, and the model keeps it the same way.
