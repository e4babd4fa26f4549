/**
 * What the batch loop and the summary guarantee: rows follow the uploads,
 * failed uploads are skipped, the missing list is the required kinds not
 * detected in the policy's order, and the banners reflect the rows.
 */
module BatchProperties {
  import opened Wrappers
  import opened Text
  import opened Severity
  import opened Policy
  import opened Validation
  import opened ValidationProperties
  import opened Batch

  /** A kind is reported missing exactly when it is required and was not detected. */
  lemma {:induction false} MissingDocsMembership(required: seq<string>, detected: set<string>, kind: string)
    ensures kind in MissingDocs(required, detected) <==> kind in required && kind !in detected
    decreases |required|
  {
    if required != [] {
      MissingDocsMembership(required[1..], detected, kind);
      assert required == [required[0]] + required[1..];
    }
  }

  /** Nothing is missing exactly when every required kind was detected. */
  lemma MissingDocsEmptyIff(required: seq<string>, detected: set<string>)
    ensures MissingDocs(required, detected) == [] <==> forall kind :: kind in required ==> kind in detected
  {
    if MissingDocs(required, detected) != [] {
      var kind := MissingDocs(required, detected)[0];
      MissingDocsMembership(required, detected, kind);
    } else {
      forall kind | kind in required ensures kind in detected {
        MissingDocsMembership(required, detected, kind);
      }
    }
  }

  /** `a` is `b` with some elements removed, the rest in the same order. */
  predicate IsSubsequence(a: seq<string>, b: seq<string>)
    decreases |b|
  {
    if b == [] then a == []
    else (a != [] && a[0] == b[0] && IsSubsequence(a[1..], b[1..])) || IsSubsequence(a, b[1..])
  }

  /** The missing kinds are listed in the order the policy declares them. */
  lemma {:induction false} MissingDocsKeepsOrder(required: seq<string>, detected: set<string>)
    ensures IsSubsequence(MissingDocs(required, detected), required)
    decreases |required|
  {
    if required != [] {
      MissingDocsKeepsOrder(required[1..], detected);
      var rest := MissingDocs(required[1..], detected);
      if required[0] !in detected {
        assert MissingDocs(required, detected) == [required[0]] + rest;
        assert ([required[0]] + rest)[1..] == rest;
      } else {
        assert MissingDocs(required, detected) == [] + rest == rest;
      }
    }
  }

  /** With nothing detected, every required kind is missing, in the policy's order. */
  lemma {:induction false} MissingDocsNothingDetected(required: seq<string>)
    ensures MissingDocs(required, {}) == required
    decreases |required|
  {
    if required != [] {
      MissingDocsNothingDetected(required[1..]);
      assert required == [required[0]] + required[1..];
    }
  }

  /** Detecting a kind that is not required changes nothing in the missing list. */
  lemma {:induction false} ExtraKindIgnored(required: seq<string>, detected: set<string>, kind: string)
    requires kind !in required
    ensures MissingDocs(required, detected + {kind}) == MissingDocs(required, detected)
    decreases |required|
  {
    if required != [] {
      assert kind != required[0];
      assert kind !in required[1..];
      ExtraKindIgnored(required[1..], detected, kind);
    }
  }

  /** `AnyStatus` holds exactly when some row has that status. */
  lemma {:induction false} AnyStatusIff(rows: seq<Row>, s: Status)
    ensures AnyStatus(rows, s) <==> exists i :: 0 <= i < |rows| && rows[i].estado == s
    decreases |rows|
  {
    if rows != [] {
      AnyStatusIff(rows[1..], s);
      LabelInjective(rows[0].estado, s);
      if exists i :: 0 <= i < |rows| && rows[i].estado == s {
        var i :| 0 <= i < |rows| && rows[i].estado == s;
        if i > 0 {
          assert rows[1..][i - 1].estado == s;
        }
      }
      if exists i :: 0 <= i < |rows[1..]| && rows[1..][i].estado == s {
        var i :| 0 <= i < |rows[1..]| && rows[1..][i].estado == s;
        assert rows[i + 1].estado == s;
      }
    }
  }

  /** The rows of two runs of uploads in turn are the rows of their concatenation. */
  lemma {:induction false} BatchRowsConcat(check: Checker, a: seq<Upload>, b: seq<Upload>)
    ensures BatchRows(check, a + b) == BatchRows(check, a) + BatchRows(check, b)
    decreases |b|
  {
    if b == [] {
      assert a + b == a;
    } else {
      var b' := b[..|b| - 1];
      var last := RowsOf(check, b[|b| - 1]);
      BatchRowsConcat(check, a, b');
      DropLastConcat(a, b);
      assert BatchRows(check, a + b) == BatchRows(check, a + b') + last;
      assert BatchRows(check, a) + BatchRows(check, b) == (BatchRows(check, a) + BatchRows(check, b')) + last;
    }
  }

  /** The kinds detected in two runs of uploads in turn are those detected in their concatenation. */
  lemma {:induction false} DetectedKindsConcat(a: seq<Upload>, b: seq<Upload>)
    ensures DetectedKinds(a + b) == DetectedKinds(a) + DetectedKinds(b)
    decreases |b|
  {
    if b == [] {
      assert a + b == a;
    } else {
      var b' := b[..|b| - 1];
      DetectedKindsConcat(a, b');
      DropLastConcat(a, b);
      assert DetectedKinds(a + b) == DetectedKinds(a + b') + KindsOf(b[|b| - 1]);
    }
  }

  /** A file whose extraction failed contributes no row. */
  lemma FailedUploadAddsNoRow(check: Checker, before: seq<Upload>, failed: Upload, after: seq<Upload>)
    requires failed.reply == ServiceError
    ensures BatchRows(check, before + [failed] + after) == BatchRows(check, before + after)
  {
    BatchRowsConcat(check, before + [failed], after);
    BatchRowsConcat(check, before, [failed]);
    BatchRowsConcat(check, before, after);
    BatchRowsSingle(check, failed);
    assert BatchRows(check, before + [failed]) == BatchRows(check, before);
  }

  lemma BatchRowsSingle(check: Checker, f: Upload)
    ensures BatchRows(check, [f]) == RowsOf(check, f)
  {
    assert [f][..0] == [];
  }

  lemma DetectedKindsSingle(f: Upload)
    ensures DetectedKinds([f]) == KindsOf(f)
  {
    assert [f][..0] == [];
  }

  /** A file whose extraction failed contributes no detected kind. */
  lemma FailedUploadAddsNoKind(before: seq<Upload>, failed: Upload, after: seq<Upload>)
    requires failed.reply == ServiceError
    ensures DetectedKinds(before + [failed] + after) == DetectedKinds(before + after)
  {
    DetectedKindsConcat(before + [failed], after);
    DetectedKindsConcat(before, [failed]);
    DetectedKindsConcat(before, after);
    assert [failed][..0] == [];
    assert DetectedKinds([failed]) == {};
  }

  /** Each answered upload contributes its own row, in upload order. */
  lemma AnsweredUploadRow(check: Checker, before: seq<Upload>, f: Upload, after: seq<Upload>)
    requires f.reply.Extracted?
    ensures BatchRows(check, before + [f] + after)
        == BatchRows(check, before) + [check(f.name, f.reply.info, f.now)] + BatchRows(check, after)
  {
    BatchRowsConcat(check, before + [f], after);
    BatchRowsConcat(check, before, [f]);
    assert [f][..0] == [];
  }

  /** The loop produces no row exactly when every upload failed. */
  lemma {:induction false} NoRowsIffAllFailed(check: Checker, files: seq<Upload>)
    ensures BatchRows(check, files) == [] <==> forall i :: 0 <= i < |files| ==> files[i].reply == ServiceError
    decreases |files|
  {
    if files != [] {
      var init := files[..|files| - 1];
      NoRowsIffAllFailed(check, init);
      if forall i :: 0 <= i < |files| ==> files[i].reply == ServiceError {
        assert forall i :: 0 <= i < |init| ==> init[i].reply == ServiceError by {
          forall i | 0 <= i < |init| ensures init[i].reply == ServiceError {
            assert init[i] == files[i];
          }
        }
      } else if BatchRows(check, files) == [] {
        forall i | 0 <= i < |files| ensures files[i].reply == ServiceError {
          if i < |init| {
            assert init[i] == files[i];
          }
        }
      }
    }
  }

  /** The checker records each document under its detected kind. */
  ghost predicate KeepsKind(check: Checker) {
    forall name, info, now :: check(name, info, now).tipoDocumento == DocKind(info)
  }

  /** The per-document check of any run keeps the detected kind in the row. */
  lemma CheckerKeepsKind(ctx: Context)
    ensures KeepsKind(CheckerFor(ctx))
  {
  }

  /** The detected kinds are exactly the `Tipo documento` values of the rows. */
  lemma {:induction false} DetectedKindsAreRowKinds(check: Checker, files: seq<Upload>)
    requires KeepsKind(check)
    ensures DetectedKinds(files) == set r | r in BatchRows(check, files) :: r.tipoDocumento
    decreases |files|
  {
    if files != [] {
      var init := files[..|files| - 1];
      DetectedKindsAreRowKinds(check, init);
      var rows := BatchRows(check, files);
      assert rows == BatchRows(check, init) + RowsOf(check, files[|files| - 1]);
      assert forall r :: r in rows <==> r in BatchRows(check, init) || r in RowsOf(check, files[|files| - 1]);
    }
  }

  /** The guards are checked in order: API key, then uploads, then the service client. */
  lemma GuardsInOrder(req: Request)
    ensures req.apiKey == "" ==> ExpectedOutcome(req) == MissingApiKey
    ensures req.apiKey != "" && req.files == [] ==> ExpectedOutcome(req) == NoFilesUploaded
    ensures ExpectedOutcome(req).Report? ==> req.apiKey != "" && req.files != [] && req.clientReady
  {
  }

  /** A report is produced exactly when the guards pass and at least one upload was answered. */
  lemma ReportIffSomeAnswered(req: Request)
    ensures ExpectedOutcome(req).Report?
        <==> req.apiKey != "" && req.clientReady
             && exists i :: 0 <= i < |req.files| && req.files[i].reply.Extracted?
  {
    NoRowsIffAllFailed(CheckerFor(RequestContext(req)), req.files);
  }

  /**
   * In a report, the ERROR and WARNING flags say whether some row has that
   * status, the critical banner appears exactly when some row is an ERROR,
   * and "all clear" appears exactly when nothing is missing and every row is OK.
   */
  lemma SummaryReflectsRows(policy: DocumentPolicy, rows: seq<Row>, detected: set<string>)
    ensures var o := Summary(policy, rows, detected);
      && (o.hasError <==> exists i :: 0 <= i < |rows| && rows[i].estado == Error)
      && (o.hasWarning <==> exists i :: 0 <= i < |rows| && rows[i].estado == Warning)
      && (CriticalIssues in o.banners <==> exists i :: 0 <= i < |rows| && rows[i].estado == Error)
      && (AllClear in o.banners <==> o.missing == [] && forall i :: 0 <= i < |rows| ==> rows[i].estado == Ok)
  {
    AnyStatusIff(rows, Error);
    AnyStatusIff(rows, Warning);
    if !AnyStatus(rows, Error) && !AnyStatus(rows, Warning) {
      forall i | 0 <= i < |rows| ensures rows[i].estado == Ok {
        assert rows[i].estado != Error && rows[i].estado != Warning;
      }
    }
  }

  /**
   * A document whose kind was not reported is recorded as "Desconocido",
   * which no table policy requires, so it never removes a kind from the
   * missing list.
   */
  lemma UnknownKindSatisfiesNothing(country: Country, personType: PersonType, detected: set<string>)
    ensures var required := Lookup(country, personType).requiredDocs;
      MissingDocs(required, detected + {UnknownKind}) == MissingDocs(required, detected)
  {
    ExtraKindIgnored(Lookup(country, personType).requiredDocs, detected, UnknownKind);
  }

  /** The RUT of the Colombian scenario: its kind is "RUT", limited to 365 days. */
  lemma ColombiaRutRow(fromIso: string -> Option<int>, now: int)
    requires fromIso("2023-01-01") == Some(now - 400 * MicrosPerDay)
    ensures var info := ExtractedRecord(Some("RUT"), None, None, Some("2023-01-01"), None);
      var ctx := Context(Lookup(Colombia, Natural), "", "", fromIso);
      DocKind(info) == "RUT" && ExpectedRow(ctx, "rut.pdf", info, now).estado == Error
  {
    var info := ExtractedRecord(Some("RUT"), None, None, Some("2023-01-01"), None);
    var ctx := Context(Lookup(Colombia, Natural), "", "", fromIso);
    assert StripLeft("RUT") == "RUT" && StripRight("RUT") == "RUT";
    assert DocKind(info) == "RUT";
    assert AgeRule(ctx.policy, "RUT") == Some(365);
    ErrorIffTooOld(ctx, "rut.pdf", info, now);
  }

  /** With only a RUT detected, a Colombian natural person lacks the identity document and the bank certificate. */
  lemma ColombiaRutMissing()
    ensures MissingDocs(Lookup(Colombia, Natural).requiredDocs, {"RUT"}) == ["Documento de identidad", "Certificado Bancario"]
  {
    var required := Lookup(Colombia, Natural).requiredDocs;
    assert required == ["RUT", "Documento de identidad", "Certificado Bancario"];
    assert required[1..] == ["Documento de identidad", "Certificado Bancario"];
    assert required[1..][1..] == ["Certificado Bancario"];
    assert required[1..][1..][1..] == [];
  }

  /**
   * Colombia, natural person, a single RUT issued 400 days before the check:
   * the row is an ERROR (the RUT limit is 365 days), the identity document
   * and the bank certificate are missing, and both the missing-documents and
   * the critical banners are shown.
   */
  lemma ColombiaRutScenario(fromIso: string -> Option<int>, now: int)
    requires fromIso("2023-01-01") == Some(now - 400 * MicrosPerDay)
    ensures var req := Request(Colombia, Natural, "", "", "key", true, fromIso,
      [Upload("rut.pdf", Extracted(ExtractedRecord(Some("RUT"), None, None, Some("2023-01-01"), None)), now)]);
      var o := ExpectedOutcome(req);
      && o.Report?
      && |o.rows| == 1 && o.rows[0].estado == Error
      && o.missing == ["Documento de identidad", "Certificado Bancario"]
      && o.banners == [MissingDocuments(["Documento de identidad", "Certificado Bancario"]), CriticalIssues]
  {
    var info := ExtractedRecord(Some("RUT"), None, None, Some("2023-01-01"), None);
    var f := Upload("rut.pdf", Extracted(info), now);
    var req := Request(Colombia, Natural, "", "", "key", true, fromIso, [f]);
    var ctx := RequestContext(req);
    ColombiaRutRow(fromIso, now);
    ColombiaRutMissing();
    var row := CheckerFor(ctx)(f.name, info, now);
    assert row == ExpectedRow(ctx, f.name, info, now);
    BatchRowsSingle(CheckerFor(ctx), f);
    DetectedKindsSingle(f);
    assert BatchRows(CheckerFor(ctx), [f]) == [row];
    assert DetectedKinds([f]) == {"RUT"};
    assert AnyStatus([row], Error);
    assert ExpectedOutcome(req) == Summary(ctx.policy, [row], {"RUT"});
  }
}
