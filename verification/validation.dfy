/**
 * The per-document check run for each uploaded file: the detected kind is
 * defaulted and stripped, the legal name and the identification are compared
 * with the expected values, and the issue date is compared with the policy's
 * maximum age for that kind. The result is one row of the results table.
 */
module Validation {
  import opened Wrappers
  import opened Text
  import opened Severity
  import opened Policy

  /** Instants are integer microseconds, the resolution of Python's `timedelta`. */
  const MicrosPerDay: int := 86_400_000_000

  /** `timedelta(days=days)`, in microseconds. */
  function Days(days: int): int {
    days * MicrosPerDay
  }

  const NameMissingMsg: string := "No se detectó razón social / nombre, revisar manualmente."
  const NameMismatchMsg: string := "La razón social / nombre no coincide con la esperada."
  const IdMissingMsg: string := "No se detectó identificación fiscal, revisar manualmente."
  const DateUnreadableMsg: string := "No se pudo interpretar la fecha de emisión para validar vigencia."

  function IdMismatchMsg(idLabel: string): string {
    "El " + idLabel + " no coincide con el esperado."
  }

  function AgeExceededMsg(maxAgeDays: int): string {
    "Documento con vigencia mayor a " + IntToDecimal(maxAgeDays) + " días."
  }

  /** The fields the extraction service returns for one file; each may be `null`. */
  datatype ExtractedRecord = ExtractedRecord(
    tipoDocumento: Option<string>,
    razonSocial: Option<string>,
    identificacion: Option<string>,
    fechaEmision: Option<string>,
    fechaVencimiento: Option<string>)

  /** The record used when the service's reply is not valid JSON. */
  const UndecodableReply: ExtractedRecord := ExtractedRecord(Some(UnknownKind), None, None, None, None)

  /**
   * Everything a run fixes before the loop starts: the selected policy, the
   * operator's expected legal name and identification, and
   * `datetime.fromisoformat` (an instant, or `None` where it raises). The
   * clock is read again for every document and is passed separately.
   */
  datatype Context = Context(
    policy: DocumentPolicy,
    expectedName: string,
    expectedId: string,
    fromIso: string -> Option<int>)

  /** Python's `value or default` for an optional string. */
  function OrElse(value: Option<string>, default: string): string {
    if value.Some? && value.value != "" then value.value else default
  }

  /** `parse_date_safe`: `None` for a missing or empty string, otherwise what the ISO parser gives. */
  function ParseDateSafe(raw: Option<string>, fromIso: string -> Option<int>): (r: Option<int>)
    ensures raw == None || raw == Some("") ==> r == None
    ensures raw.Some? && raw.value != "" ==> r == fromIso(raw.value)
  {
    if raw.None? || raw.value == "" then None else fromIso(raw.value)
  }

  /** The document kind as recorded: `(tipo_documento or "Desconocido").strip()`. */
  function DocKind(info: ExtractedRecord): string {
    Strip(OrElse(info.tipoDocumento, UnknownKind))
  }

  function DetectedName(info: ExtractedRecord): string {
    Strip(OrElse(info.razonSocial, ""))
  }

  function DetectedId(info: ExtractedRecord): string {
    Strip(OrElse(info.identificacion, ""))
  }

  /** `max_age_days.get(kind)`. */
  function AgeRule(policy: DocumentPolicy, kind: string): Option<int> {
    if kind in policy.maxAgeDays then Some(policy.maxAgeDays[kind]) else None
  }

  /** One problem found in a document: its severity and the message shown for it. */
  datatype Finding = Finding(severity: Status, message: string)

  /** At most one finding, and a warning. */
  predicate WarningsOnly(fs: seq<Finding>) {
    |fs| <= 1 && (fs != [] ==> fs[0].severity == Warning)
  }

  /** The legal-name comparison: at most one warning, case-insensitive containment. */
  function NameFindings(expectedName: string, detected: string): (r: seq<Finding>)
    ensures WarningsOnly(r)
  {
    if expectedName == "" then []
    else if detected == "" then [Finding(Warning, NameMissingMsg)]
    else if !Contains(Lower(detected), Lower(expectedName)) then [Finding(Warning, NameMismatchMsg)]
    else []
  }

  /** The identification comparison: at most one warning, case-sensitive containment. */
  function IdFindings(expectedId: string, detected: string, idLabel: string): (r: seq<Finding>)
    ensures WarningsOnly(r)
  {
    if expectedId == "" then []
    else if detected == "" then [Finding(Warning, IdMissingMsg)]
    else if !Contains(detected, expectedId) then [Finding(Warning, IdMismatchMsg(idLabel))]
    else []
  }

  /** The vigency check; a rule of `0` is falsy and disables it like a missing rule. */
  function VigencyFindings(rule: Option<int>, issued: Option<int>, now: int): (r: seq<Finding>)
    ensures |r| <= 1 && (r != [] ==> r[0].severity != Ok)
  {
    if rule.Some? && rule.value != 0 && issued.Some? then
      if now - issued.value > Days(rule.value) then
        [Finding(Error, AgeExceededMsg(rule.value))]
      else []
    else if rule.Some? && rule.value != 0 then
      [Finding(Warning, DateUnreadableMsg)]
    else []
  }

  /** All findings for one document, in the order the checks run: name, identification, vigency. */
  function Findings(ctx: Context, info: ExtractedRecord, now: int): seq<Finding> {
    NameFindings(ctx.expectedName, DetectedName(info))
    + IdFindings(ctx.expectedId, DetectedId(info), ctx.policy.idLabel)
    + VigencyFindings(AgeRule(ctx.policy, DocKind(info)), ParseDateSafe(info.fechaEmision, ctx.fromIso), now)
  }

  function Severities(fs: seq<Finding>): (r: seq<Status>)
    ensures |r| == |fs|
  {
    if fs == [] then [] else Severities(fs[..|fs| - 1]) + [fs[|fs| - 1].severity]
  }

  function Messages(fs: seq<Finding>): (r: seq<string>)
    ensures |r| == |fs|
  {
    if fs == [] then [] else Messages(fs[..|fs| - 1]) + [fs[|fs| - 1].message]
  }

  /** The `Detalle` column: the messages joined with " | ", or "OK" when there are none. */
  function Detail(messages: seq<string>): string {
    if messages == [] then "OK" else Join(messages, " | ")
  }

  /** One row of the results table. */
  datatype Row = Row(
    archivo: string,
    tipoDocumento: string,
    razonDetectada: string,
    idDetectada: string,
    fechaEmision: string,
    fechaVencimiento: string,
    estado: Status,
    detalle: string)

  /**
   * The row a document should produce: its status is the most severe of its
   * findings, and its detail lists their messages in order.
   */
  function ExpectedRow(ctx: Context, archivo: string, info: ExtractedRecord, now: int): Row {
    var fs := Findings(ctx, info, now);
    Row(
      archivo,
      DocKind(info),
      OrElse(Some(DetectedName(info)), "—"),
      OrElse(Some(DetectedId(info)), "—"),
      OrElse(info.fechaEmision, "—"),
      OrElse(info.fechaVencimiento, "—"),
      MaxOf(Severities(fs)),
      Detail(Messages(fs)))
  }

  /** The status that overwriting `estado` with each finding in turn leaves behind. */
  function Overwrite(estado: Status, fs: seq<Finding>): Status {
    if fs == [] then estado else fs[|fs| - 1].severity
  }

  /** Overwriting with two lists in turn is overwriting with their concatenation. */
  lemma OverwriteConcat(estado: Status, a: seq<Finding>, b: seq<Finding>)
    ensures Overwrite(Overwrite(estado, a), b) == Overwrite(estado, a + b)
  {
  }

  /** The messages of two lists in turn are the messages of their concatenation. */
  lemma {:induction false} MessagesConcat(a: seq<Finding>, b: seq<Finding>)
    ensures Messages(a + b) == Messages(a) + Messages(b)
    decreases |b|
  {
    if b == [] {
      assert a + b == a;
    } else {
      var b' := b[..|b| - 1];
      var last := b[|b| - 1].message;
      MessagesConcat(a, b');
      DropLastConcat(a, b);
      assert Messages(a + b) == Messages(a + b') + [last];
      assert Messages(a) + Messages(b) == (Messages(a) + Messages(b')) + [last];
    }
  }

  /** The `i`-th severity and message are those of the `i`-th finding. */
  lemma {:induction false} FindingAt(fs: seq<Finding>, i: int)
    requires 0 <= i < |fs|
    ensures Severities(fs)[i] == fs[i].severity && Messages(fs)[i] == fs[i].message
    decreases |fs|
  {
    if i < |fs| - 1 {
      FindingAt(fs[..|fs| - 1], i);
    }
  }

  /** The severities of two lists in turn are the severities of their concatenation. */
  lemma {:induction false} SeveritiesConcat(a: seq<Finding>, b: seq<Finding>)
    ensures Severities(a + b) == Severities(a) + Severities(b)
    decreases |b|
  {
    if b == [] {
      assert a + b == a;
    } else {
      var b' := b[..|b| - 1];
      var last := b[|b| - 1].severity;
      SeveritiesConcat(a, b');
      DropLastConcat(a, b);
      assert Severities(a + b) == Severities(a + b') + [last];
      assert Severities(a) + Severities(b) == (Severities(a) + Severities(b')) + [last];
    }
  }

  /** Dropping the last element of `a + b`, for a non-empty `b`, drops it from `b`. */
  lemma DropLastConcat<T>(a: seq<T>, b: seq<T>)
    requires b != []
    ensures (a + b)[..|a + b| - 1] == a + b[..|b| - 1]
  {
  }

  /** Severities never decrease along the list. */
  predicate Ascending(fs: seq<Finding>) {
    forall i, j :: 0 <= i < j < |fs| ==> Rank(fs[i].severity) <= Rank(fs[j].severity)
  }

  /**
   * When no finding is followed by a milder one, overwriting the status in
   * order ends at the maximum severity.
   */
  lemma {:induction false} OverwriteIsMax(fs: seq<Finding>)
    requires Ascending(fs)
    ensures Overwrite(Ok, fs) == MaxOf(Severities(fs))
    decreases |fs|
  {
    if |fs| > 1 {
      var init := fs[..|fs| - 1];
      OverwriteIsMax(init);
      assert Severities(fs)[..|fs| - 1] == Severities(init);
    } else if |fs| == 1 {
      assert Severities(fs)[..0] == [];
    }
  }

  /** The checks run in the order name, identification, vigency, and only the last one can raise ERROR. */
  lemma FindingsAscending(ctx: Context, info: ExtractedRecord, now: int)
    ensures Ascending(Findings(ctx, info, now))
  {
    var n := NameFindings(ctx.expectedName, DetectedName(info));
    var d := IdFindings(ctx.expectedId, DetectedId(info), ctx.policy.idLabel);
    var v := VigencyFindings(AgeRule(ctx.policy, DocKind(info)), ParseDateSafe(info.fechaEmision, ctx.fromIso), now);
    AscendingConcat(n, d, v);
  }

  lemma AscendingConcat(n: seq<Finding>, d: seq<Finding>, v: seq<Finding>)
    requires WarningsOnly(n) && WarningsOnly(d) && |v| <= 1 && (v != [] ==> v[0].severity != Ok)
    ensures Ascending(n + d + v)
  {
    var fs := n + d + v;
    forall i, j | 0 <= i < j < |fs| ensures Rank(fs[i].severity) <= Rank(fs[j].severity) {
      assert fs[i] == (n + d)[i];
      if j < |n| + |d| {
        assert fs[j] == (n + d)[j];
      } else {
        assert fs[j] == v[0];
      }
    }
  }

  /**
   * Running the three checks in turn, each overwriting `estado`, leaves the
   * most severe finding.
   */
  lemma StepsStatus(n: seq<Finding>, d: seq<Finding>, v: seq<Finding>)
    requires WarningsOnly(n) && WarningsOnly(d) && |v| <= 1 && (v != [] ==> v[0].severity != Ok)
    ensures Overwrite(Overwrite(Overwrite(Ok, n), d), v) == MaxOf(Severities(n + d + v))
  {
    OverwriteConcat(Ok, n, d);
    OverwriteConcat(Ok, n + d, v);
    AscendingConcat(n, d, v);
    OverwriteIsMax(n + d + v);
  }

  /** Running the three checks in turn, each appending its messages, lists all messages in order. */
  lemma StepsMessages(n: seq<Finding>, d: seq<Finding>, v: seq<Finding>)
    ensures [] + Messages(n) + Messages(d) + Messages(v) == Messages(n + d + v)
  {
    MessagesConcat(n, d);
    MessagesConcat(n + d, v);
    assert [] + Messages(n) == Messages(n);
  }

  /**
   * The legal-name comparison as the loop body runs it: a missing or
   * non-matching name sets `estado` to WARNING and appends its message.
   */
  method CheckName(expectedName: string, razon: string, estado: Status, detalleMsgs: seq<string>)
    returns (estado': Status, detalleMsgs': seq<string>)
    ensures estado' == Overwrite(estado, NameFindings(expectedName, razon))
    ensures detalleMsgs' == detalleMsgs + Messages(NameFindings(expectedName, razon))
  {
    estado', detalleMsgs' := estado, detalleMsgs;
    if expectedName != "" {
      if razon == "" {
        estado' := Warning;
        detalleMsgs' := detalleMsgs' + [NameMissingMsg];
      } else if !Contains(Lower(razon), Lower(expectedName)) {
        estado' := Warning;
        detalleMsgs' := detalleMsgs' + [NameMismatchMsg];
      }
    }
  }

  /**
   * The identification comparison as the loop body runs it: a missing or
   * non-matching identification sets `estado` to WARNING and appends its message.
   */
  method CheckId(expectedId: string, identificacion: string, idLabel: string, estado: Status, detalleMsgs: seq<string>)
    returns (estado': Status, detalleMsgs': seq<string>)
    ensures estado' == Overwrite(estado, IdFindings(expectedId, identificacion, idLabel))
    ensures detalleMsgs' == detalleMsgs + Messages(IdFindings(expectedId, identificacion, idLabel))
  {
    estado', detalleMsgs' := estado, detalleMsgs;
    if expectedId != "" {
      if identificacion == "" {
        estado' := Warning;
        detalleMsgs' := detalleMsgs' + [IdMissingMsg];
      } else if !Contains(identificacion, expectedId) {
        estado' := Warning;
        detalleMsgs' := detalleMsgs' + [IdMismatchMsg(idLabel)];
      }
    }
  }

  /**
   * The vigency check as the loop body runs it: a document older than its
   * kind's maximum age sets `estado` to ERROR, an unreadable issue date for a
   * kind that has a maximum age sets it to WARNING.
   */
  method CheckVigency(maxAgeDays: Option<int>, fechaEmision: Option<int>, now: int, estado: Status, detalleMsgs: seq<string>)
    returns (estado': Status, detalleMsgs': seq<string>)
    ensures estado' == Overwrite(estado, VigencyFindings(maxAgeDays, fechaEmision, now))
    ensures detalleMsgs' == detalleMsgs + Messages(VigencyFindings(maxAgeDays, fechaEmision, now))
  {
    estado', detalleMsgs' := estado, detalleMsgs;
    if maxAgeDays.Some? && maxAgeDays.value != 0 && fechaEmision.Some? {
      var delta := now - fechaEmision.value;
      if delta > Days(maxAgeDays.value) {
        estado' := Error;
        detalleMsgs' := detalleMsgs' + [AgeExceededMsg(maxAgeDays.value)];
      }
    } else if maxAgeDays.Some? && maxAgeDays.value != 0 {
      estado' := Warning;
      detalleMsgs' := detalleMsgs' + [DateUnreadableMsg];
    }
  }

  /**
   * The loop body for one file: `estado` starts at OK and each failing check
   * overwrites it and appends its message. Because only the last check can
   * raise ERROR, the status left behind is the most severe finding.
   */
  method ValidateDocument(ctx: Context, archivo: string, info: ExtractedRecord, now: int) returns (row: Row)
    ensures row == ExpectedRow(ctx, archivo, info, now)
  {
    var docType := DocKind(info);
    var razon := DetectedName(info);
    var identificacion := DetectedId(info);

    var estado := Ok;
    var detalleMsgs: seq<string> := [];
    estado, detalleMsgs := CheckName(ctx.expectedName, razon, estado, detalleMsgs);
    estado, detalleMsgs := CheckId(ctx.expectedId, identificacion, ctx.policy.idLabel, estado, detalleMsgs);
    var maxAgeDays := AgeRule(ctx.policy, docType);
    var fechaEmision := ParseDateSafe(info.fechaEmision, ctx.fromIso);
    estado, detalleMsgs := CheckVigency(maxAgeDays, fechaEmision, now, estado, detalleMsgs);

    ghost var n := NameFindings(ctx.expectedName, razon);
    ghost var d := IdFindings(ctx.expectedId, identificacion, ctx.policy.idLabel);
    ghost var v := VigencyFindings(maxAgeDays, fechaEmision, now);
    ghost var fs := Findings(ctx, info, now);
    assert fs == n + d + v;
    StepsStatus(n, d, v);
    StepsMessages(n, d, v);
    assert estado == MaxOf(Severities(fs));
    assert detalleMsgs == Messages(fs);

    row := Row(
      archivo,
      docType,
      OrElse(Some(razon), "—"),
      OrElse(Some(identificacion), "—"),
      OrElse(info.fechaEmision, "—"),
      OrElse(info.fechaVencimiento, "—"),
      estado,
      if detalleMsgs != [] then Join(detalleMsgs, " | ") else "OK");
  }
}
