/**
 * One press of the "Ejecutar validación" button: the input guards, the loop
 * over the uploaded files, and the global summary (missing required kinds,
 * whether any row is an ERROR or a WARNING, and the banners shown).
 */
module Batch {
  import opened Wrappers
  import opened Severity
  import opened Policy
  import opened Validation

  /**
   * What the extraction service gives for one file: a record (possibly the
   * undecodable-reply record), or a service error, after which the file is
   * skipped.
   */
  datatype Reply = Extracted(info: ExtractedRecord) | ServiceError

  /** One uploaded file: its name, the service's reply for it, and the clock reading when its age is computed. */
  datatype Upload = Upload(name: string, reply: Reply, now: int)

  /** The row a file name, an extracted record and a clock reading give. */
  type Checker = (string, ExtractedRecord, int) -> Row

  /** The per-document check under the run's settings. */
  function CheckerFor(ctx: Context): Checker {
    (name: string, info: ExtractedRecord, now: int) => ExpectedRow(ctx, name, info, now)
  }

  /** The rows one upload contributes: none when the service failed, its row otherwise. */
  function RowsOf(check: Checker, f: Upload): seq<Row> {
    match f.reply
    case ServiceError => []
    case Extracted(info) => [check(f.name, info, f.now)]
  }

  /** The kinds one upload adds to the set of detected kinds. */
  function KindsOf(f: Upload): set<string> {
    match f.reply
    case ServiceError => {}
    case Extracted(info) => {DocKind(info)}
  }

  /** The `results` list after the loop: one row per upload the service answered, in upload order. */
  function BatchRows(check: Checker, files: seq<Upload>): seq<Row>
    decreases |files|
  {
    if files == [] then [] else BatchRows(check, files[..|files| - 1]) + RowsOf(check, files[|files| - 1])
  }

  /** The `detected_doc_types` set after the loop. */
  function DetectedKinds(files: seq<Upload>): set<string>
    decreases |files|
  {
    if files == [] then {} else DetectedKinds(files[..|files| - 1]) + KindsOf(files[|files| - 1])
  }

  /**
   * The loop over the uploaded files: a file whose extraction fails with a
   * service error is skipped; every other file has its kind recorded and its
   * row appended.
   */
  method RunBatch(ctx: Context, files: seq<Upload>) returns (results: seq<Row>, detected: set<string>)
    ensures results == BatchRows(CheckerFor(ctx), files)
    ensures detected == DetectedKinds(files)
  {
    results := [];
    detected := {};
    var i := 0;
    while i < |files|
      invariant 0 <= i <= |files|
      invariant results == BatchRows(CheckerFor(ctx), files[..i])
      invariant detected == DetectedKinds(files[..i])
    {
      var file := files[i];
      assert files[..i + 1][..i] == files[..i];
      match file.reply {
        case ServiceError =>
        case Extracted(info) =>
          var docType := DocKind(info);
          detected := detected + {docType};
          var row := ValidateDocument(ctx, file.name, info, file.now);
          results := results + [row];
      }
      i := i + 1;
    }
    assert files[..i] == files;
  }

  /** The required kinds not among the detected ones, in the policy's order. */
  function MissingDocs(required: seq<string>, detected: set<string>): seq<string>
    decreases |required|
  {
    if required == [] then []
    else (if required[0] in detected then [] else [required[0]]) + MissingDocs(required[1..], detected)
  }

  /** `any(r["Estado"] == label(s) for r in rows)`. */
  function AnyStatus(rows: seq<Row>, s: Status): bool
    decreases |rows|
  {
    rows != [] && (Label(rows[0].estado) == Label(s) || AnyStatus(rows[1..], s))
  }

  /** The summary banners. */
  datatype Banner =
    | AllClear                          // every required kind present, no ERROR, no WARNING
    | MissingDocuments(kinds: seq<string>)
    | CriticalIssues                    // some row is an ERROR
    | MinorIssues                       // some row is a WARNING and none is an ERROR

  /**
   * The banners shown above the table: "all clear" alone when nothing is
   * wrong; otherwise the missing-documents banner when kinds are missing,
   * followed by the critical banner when a row is an ERROR or, failing that,
   * the minor-issues banner when a row is a WARNING.
   */
  function Banners(missing: seq<string>, hasError: bool, hasWarning: bool): (r: seq<Banner>)
    ensures AllClear in r <==> missing == [] && !hasError && !hasWarning
    ensures AllClear in r ==> r == [AllClear]
    ensures MissingDocuments(missing) in r <==> missing != []
    ensures CriticalIssues in r <==> hasError
    ensures MinorIssues in r <==> hasWarning && !hasError
    ensures 1 <= |r| <= 2
    ensures forall b :: b in r ==> b == AllClear || b == MissingDocuments(missing) || b == CriticalIssues || b == MinorIssues
    ensures missing != [] ==> r[0] == MissingDocuments(missing)
    ensures forall i, j :: 0 <= i < j < |r| ==> r[i] != r[j]
  {
    if missing == [] && !hasError && !hasWarning then [AllClear]
    else
      (if missing != [] then [MissingDocuments(missing)] else [])
      + (if hasError then [CriticalIssues] else if hasWarning then [MinorIssues] else [])
  }

  /** What a press of the button ends in. */
  datatype Outcome =
    | MissingApiKey
    | NoFilesUploaded
    | ClientUnavailable
    | NoResults
    | Report(rows: seq<Row>, missing: seq<string>, hasError: bool, hasWarning: bool, banners: seq<Banner>)

  /**
   * The settings of the left-hand panel and the uploads of the right-hand
   * one, plus whether the service client could be created.
   */
  datatype Request = Request(
    country: Country,
    personType: PersonType,
    expectedName: string,
    expectedId: string,
    apiKey: string,
    clientReady: bool,
    fromIso: string -> Option<int>,
    files: seq<Upload>)

  function RequestContext(req: Request): Context {
    Context(Lookup(req.country, req.personType), req.expectedName, req.expectedId, req.fromIso)
  }

  /** The summary of a batch that produced at least one row. */
  function Summary(policy: DocumentPolicy, rows: seq<Row>, detected: set<string>): Outcome {
    var missing := MissingDocs(policy.requiredDocs, detected);
    var hasError := AnyStatus(rows, Error);
    var hasWarning := AnyStatus(rows, Warning);
    Report(rows, missing, hasError, hasWarning, Banners(missing, hasError, hasWarning))
  }

  /** The outcome of a press of the button. */
  function ExpectedOutcome(req: Request): Outcome {
    if req.apiKey == "" then MissingApiKey
    else if req.files == [] then NoFilesUploaded
    else if !req.clientReady then ClientUnavailable
    else
      var rows := BatchRows(CheckerFor(RequestContext(req)), req.files);
      if rows == [] then NoResults
      else Summary(RequestContext(req).policy, rows, DetectedKinds(req.files))
  }

  /** A press of the button: the guards, the loop, and the summary. */
  method RunValidation(req: Request) returns (outcome: Outcome)
    ensures outcome == ExpectedOutcome(req)
  {
    if req.apiKey == "" {
      return MissingApiKey;
    } else if req.files == [] {
      return NoFilesUploaded;
    } else if !req.clientReady {
      return ClientUnavailable;
    }
    var rulesCfg := Lookup(req.country, req.personType);
    var ctx := Context(rulesCfg, req.expectedName, req.expectedId, req.fromIso);
    var results, detectedDocTypes := RunBatch(ctx, req.files);
    if results == [] {
      return NoResults;
    }
    var missingDocs := MissingDocs(rulesCfg.requiredDocs, detectedDocTypes);
    var hasError := AnyStatus(results, Error);
    var hasWarning := AnyStatus(results, Warning);
    outcome := Report(results, missingDocs, hasError, hasWarning, Banners(missingDocs, hasError, hasWarning));
  }
}
