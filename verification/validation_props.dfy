/**
 * What the per-document check guarantees: when a row is OK, when it is an
 * ERROR, how the name and identification comparisons behave, where the
 * vigency boundary lies, and what a reply that could not be decoded yields.
 */
module ValidationProperties {
  import opened Wrappers
  import opened Text
  import opened Severity
  import opened Policy
  import opened Validation

  /** The first finding of a document is never OK and its message is longer than "OK". */
  lemma FirstFinding(ctx: Context, info: ExtractedRecord, now: int)
    requires Findings(ctx, info, now) != []
    ensures Findings(ctx, info, now)[0].severity != Ok
    ensures |Findings(ctx, info, now)[0].message| > 2
  {
    var n := NameFindings(ctx.expectedName, DetectedName(info));
    var d := IdFindings(ctx.expectedId, DetectedId(info), ctx.policy.idLabel);
    var v := VigencyFindings(AgeRule(ctx.policy, DocKind(info)), ParseDateSafe(info.fechaEmision, ctx.fromIso), now);
    assert Findings(ctx, info, now) == n + d + v;
    if n != [] {
      assert Findings(ctx, info, now)[0] == n[0];
    } else if d != [] {
      assert Findings(ctx, info, now)[0] == d[0];
    } else {
      assert Findings(ctx, info, now)[0] == v[0];
    }
  }

  /**
   * A row is OK, and its detail reads "OK", exactly when no check raised a
   * finding; at most one finding comes from each of the three checks.
   */
  lemma RowOkIffNoFindings(ctx: Context, archivo: string, info: ExtractedRecord, now: int)
    ensures ExpectedRow(ctx, archivo, info, now).estado == Ok <==> Findings(ctx, info, now) == []
    ensures ExpectedRow(ctx, archivo, info, now).detalle == "OK" <==> Findings(ctx, info, now) == []
    ensures |Findings(ctx, info, now)| <= 3
  {
    var fs := Findings(ctx, info, now);
    var row := ExpectedRow(ctx, archivo, info, now);
    MaxOfOkIff(Severities(fs));
    if fs != [] {
      FirstFinding(ctx, info, now);
      FindingAt(fs, 0);
      JoinStartsWithFirst(Messages(fs), " | ");
      assert |row.detalle| > 2;
    }
  }

  /** The document is past its maximum age: a rule that is set and non-zero, a readable issue date, and more elapsed time than the rule allows. */
  predicate TooOld(rule: Option<int>, issued: Option<int>, now: int) {
    rule.Some? && rule.value != 0 && issued.Some? && now - issued.value > Days(rule.value)
  }

  lemma SeveritiesOfAtMostOne(fs: seq<Finding>)
    requires |fs| <= 1
    ensures Severities(fs) == if fs == [] then [] else [fs[0].severity]
  {
    if fs != [] {
      assert fs[..0] == [];
    }
  }

  /** Among warning-only name and identification findings, an ERROR can only come from the vigency check. */
  lemma ErrorOnlyFromVigency(n: seq<Finding>, d: seq<Finding>, v: seq<Finding>)
    requires WarningsOnly(n) && WarningsOnly(d) && |v| <= 1
    ensures Error in Severities(n + d + v) <==> v != [] && v[0].severity == Error
  {
    SeveritiesConcat(n, d);
    SeveritiesConcat(n + d, v);
    SeveritiesOfAtMostOne(n);
    SeveritiesOfAtMostOne(d);
    SeveritiesOfAtMostOne(v);
    var sn, sd, sv := Severities(n), Severities(d), Severities(v);
    assert Error !in sn && Error !in sd;
    assert Severities(n + d + v) == sn + sd + sv;
    assert Error in sn + sd + sv <==> Error in sv;
  }

  /**
   * A row is an ERROR exactly when the document is too old; the warnings of
   * the name and identification checks never hide it.
   */
  lemma ErrorIffTooOld(ctx: Context, archivo: string, info: ExtractedRecord, now: int)
    ensures ExpectedRow(ctx, archivo, info, now).estado == Error
        <==> TooOld(AgeRule(ctx.policy, DocKind(info)), ParseDateSafe(info.fechaEmision, ctx.fromIso), now)
  {
    var n := NameFindings(ctx.expectedName, DetectedName(info));
    var d := IdFindings(ctx.expectedId, DetectedId(info), ctx.policy.idLabel);
    var v := VigencyFindings(AgeRule(ctx.policy, DocKind(info)), ParseDateSafe(info.fechaEmision, ctx.fromIso), now);
    assert Findings(ctx, info, now) == n + d + v;
    ErrorOnlyFromVigency(n, d, v);
    MaxOfErrorDominates(Severities(n + d + v));
  }

  /** Whether a row is an ERROR does not depend on the expected name or identification. */
  lemma ErrorIgnoresExpectations(ctx: Context, archivo: string, info: ExtractedRecord, now: int, name: string, id: string)
    ensures ExpectedRow(ctx.(expectedName := name, expectedId := id), archivo, info, now).estado == Error
        <==> ExpectedRow(ctx, archivo, info, now).estado == Error
  {
    ErrorIffTooOld(ctx, archivo, info, now);
    ErrorIffTooOld(ctx.(expectedName := name, expectedId := id), archivo, info, now);
  }

  /** A row is a WARNING exactly when something was found and the document is not too old. */
  lemma WarningIffFindingsButNotTooOld(ctx: Context, archivo: string, info: ExtractedRecord, now: int)
    ensures ExpectedRow(ctx, archivo, info, now).estado == Warning
        <==> Findings(ctx, info, now) != []
             && !TooOld(AgeRule(ctx.policy, DocKind(info)), ParseDateSafe(info.fechaEmision, ctx.fromIso), now)
  {
    RowOkIffNoFindings(ctx, archivo, info, now);
    ErrorIffTooOld(ctx, archivo, info, now);
  }

  /** The name comparison passes exactly when no name is expected or the lowered expected name occurs in the lowered detected one. */
  lemma NameCheckIff(expected: string, detected: string)
    ensures NameFindings(expected, detected) == [] <==> expected == "" || Contains(Lower(detected), Lower(expected))
  {
    if expected != "" && detected == "" {
      assert |Lower(expected)| > |Lower(detected)|;
    }
  }

  /** A detected name that contains the expected one verbatim passes. */
  lemma NameCheckAcceptsContainment(expected: string, detected: string)
    requires Contains(detected, expected)
    ensures NameFindings(expected, detected) == []
  {
    if expected != "" {
      assert detected != "";
      ContainsLower(detected, expected);
    }
  }

  /** Changing the case of either name does not change the outcome of the name comparison. */
  lemma NameCheckIgnoresCase(expected: string, detected: string)
    ensures NameFindings(Lower(expected), Lower(detected)) == NameFindings(expected, detected)
  {
    LowerIdempotent(expected);
    LowerIdempotent(detected);
  }

  /** The identification comparison passes exactly when no identification is expected or the expected one occurs in the detected one. */
  lemma IdCheckIff(expected: string, detected: string, idLabel: string)
    ensures IdFindings(expected, detected, idLabel) == [] <==> expected == "" || Contains(detected, expected)
  {
  }

  /** "ACME" is found in "ACME Corp S.A." but not in "Beta Corp", which draws the mismatch warning. */
  lemma NameExamples()
    ensures NameFindings("ACME", "ACME Corp S.A.") == []
    ensures NameFindings("ACME", "Beta Corp") == [Finding(Warning, NameMismatchMsg)]
  {
    assert "ACME Corp S.A."[..4] == "ACME";
    NameCheckAcceptsContainment("ACME", "ACME Corp S.A.");
    assert Lower("ACME") == "acme";
    assert Lower("Beta Corp") == "beta corp";
    var hay, needle := "beta corp", "acme";
    forall i | 0 <= i <= |hay| - |needle| ensures !OccursAt(hay, needle, i) {
      if i == 3 {
        assert hay[i + 1] != needle[1];
      } else {
        assert hay[i] != needle[0];
      }
    }
    ContainsIffOccurs(hay, needle);
  }

  /** Unlike the name, the identification is compared case-sensitively. */
  lemma IdExampleIsCaseSensitive()
    ensures IdFindings("ab-1", "AB-1", "RUT") == [Finding(Warning, IdMismatchMsg("RUT"))]
    ensures NameFindings("ab-1", "AB-1") == []
  {
    assert "AB-1"[0] != "ab-1"[0];
    assert !OccursAt("AB-1", "ab-1", 0);
    ContainsIffOccurs("AB-1", "ab-1");
    assert Lower("AB-1") == "ab-1";
    assert Lower("ab-1") == "ab-1";
    ContainsTrivialCases("ab-1");
  }

  /**
   * The age limit is strict: a document exactly the maximum number of days
   * old passes, one microsecond more is an ERROR.
   */
  lemma VigencyBoundary(days: int, now: int)
    requires days > 0
    ensures VigencyFindings(Some(days), Some(now - Days(days)), now) == []
    ensures VigencyFindings(Some(days), Some(now - Days(days) - 1), now) == [Finding(Error, AgeExceededMsg(days))]
  {
  }

  /** The boundary at 90 days: 90 days old passes, 91 days old is an ERROR. */
  lemma VigencyBoundaryNinetyDays(now: int)
    ensures VigencyFindings(Some(90), Some(now - 90 * MicrosPerDay), now) == []
    ensures VigencyFindings(Some(90), Some(now - 91 * MicrosPerDay), now)[0].severity == Error
  {
  }

  /** A kind without a rule, or with a rule of 0, is never checked for age. */
  lemma NoRuleNoVigencyCheck(rule: Option<int>, issued: Option<int>, now: int)
    requires rule == None || rule == Some(0)
    ensures VigencyFindings(rule, issued, now) == []
  {
  }

  /** A kind with a rule but an unreadable issue date draws a WARNING, never an ERROR. */
  lemma UnreadableDateWarns(rule: Option<int>, now: int)
    requires rule.Some? && rule.value != 0
    ensures VigencyFindings(rule, None, now) == [Finding(Warning, DateUnreadableMsg)]
  {
  }

  /**
   * A missing or empty document kind is recorded as "Desconocido"; one made
   * only of whitespace is recorded as the empty string; otherwise the kind is
   * the reported one with surrounding whitespace removed.
   */
  lemma DocKindDefaults(info: ExtractedRecord)
    ensures info.tipoDocumento == None || info.tipoDocumento == Some("") ==> DocKind(info) == UnknownKind
    ensures info.tipoDocumento.Some? && info.tipoDocumento.value != "" && AllSpace(info.tipoDocumento.value)
        ==> DocKind(info) == ""
    ensures info.tipoDocumento.Some? && info.tipoDocumento.value != ""
        ==> DocKind(info) == Strip(info.tipoDocumento.value)
  {
    assert StripLeft(UnknownKind) == UnknownKind;
    assert StripRight(UnknownKind) == UnknownKind;
    if info.tipoDocumento.Some? {
      StripSpec(info.tipoDocumento.value);
    }
  }

  /**
   * A reply that could not be decoded yields a row of kind "Desconocido"
   * with every detected field shown as "—"; under any table policy it is
   * never an ERROR, and it is a WARNING exactly when a name or an
   * identification was expected.
   */
  lemma UndecodableReplyRow(ctx: Context, archivo: string, now: int)
    requires UnknownKind !in ctx.policy.maxAgeDays
    ensures ExpectedRow(ctx, archivo, UndecodableReply, now).tipoDocumento == UnknownKind
    ensures ExpectedRow(ctx, archivo, UndecodableReply, now).razonDetectada == "—"
    ensures ExpectedRow(ctx, archivo, UndecodableReply, now).idDetectada == "—"
    ensures ExpectedRow(ctx, archivo, UndecodableReply, now).fechaEmision == "—"
    ensures ExpectedRow(ctx, archivo, UndecodableReply, now).fechaVencimiento == "—"
    ensures ExpectedRow(ctx, archivo, UndecodableReply, now).estado
        == if ctx.expectedName != "" || ctx.expectedId != "" then Warning else Ok
  {
    DocKindDefaults(UndecodableReply);
    assert DetectedName(UndecodableReply) == "";
    assert DetectedId(UndecodableReply) == "";
    RowOkIffNoFindings(ctx, archivo, UndecodableReply, now);
    ErrorIffTooOld(ctx, archivo, UndecodableReply, now);
  }
}
