/** Bounds over whole runs: scan attempts, re-arming, and parse attempts with their tokens. */
module PipelineCounters {
  import opened Basics
  import opened IngestionState
  import Scan = MalwareScan
  import opened CleanPromotion
  import Parse = DocumentParsing
  import opened Pipeline
  import opened PipelineHistory

  /** How often a failed scan was armed again: the SCAN_FAILED -> SCANNING rows of the audit trail. */
  function Rearms(audit: seq<AuditEvent>): nat {
    if audit == [] then 0
    else
      var last := audit[|audit| - 1];
      Rearms(audit[..|audit| - 1]) + if last.before == ScanFailed && last.after == Scanning then 1 else 0
  }

  lemma MovedCounts(d: Doc, e: Doc, src: set<Status>, dst: set<Status>)
    requires Moved(d, e, src, dst)
    ensures Rearms(e.audit)
            == Rearms(d.audit) + if e.audit != d.audit && d.status == ScanFailed && e.status == Scanning then 1 else 0
    ensures Entries(e.audit, Parsing)
            == Entries(d.audit, Parsing) + if e.audit != d.audit && e.status == Parsing then 1 else 0
  {
    if e.audit != d.audit {
      assert e.audit[..|e.audit| - 1] == d.audit;
    }
  }

  ghost predicate ScanInv(c: Settings, w: World) {
    var cap := c.scan.maxAttempts;
    && (w.scanner.active ==> w.doc.status == Scanning)
    && (w.doc.status in {Quarantined, Validating, RejectedType} ==> w.doc.scan.count == 0)
    && w.doc.scan.count + (if w.doc.status == Scanning && !w.scanner.active then 1 else 0) <= cap + w.scanner.crashes
    && Rearms(w.doc.audit) + 1 <= cap
    && Rearms(w.doc.audit) + (if w.doc.status == ScanFailed || w.scanner.active then 1 else 0) <= w.doc.scan.count
  }

  lemma ScanKeepsScanInv(c: Settings, w: World, s: ScanStep)
    requires ScanInv(c, w) && ScanNext(c, w, s).Some?
    ensures ScanInv(c, ScanNext(c, w, s).value)
  {
    var v := ScanNext(c, w, s).value;
    ScanEffect(c, w, s);
    MovedCounts(w.doc, v.doc, {Scanning, ScanFailed}, {Scanning, ScanFailed, RejectedMalware, RejectedContentPolicy,
                                                       CleanPendingPromotion});
    match s
    case Arm =>
    case StartScan =>
    case EndScan(seen) => FinishScanMoves(w.doc, Scan.Judge(c.scan, w.doc, seen));
    case CrashScan =>
    case LoseScanJob =>
  }

  lemma OtherKeepsScanInv(c: Settings, w: World, v: World, src: set<Status>, dst: set<Status>)
    requires ScanInv(c, w) && SameScanPart(w, v) && Moved(w.doc, v.doc, src, dst)
    requires {Scanning, ScanFailed} !! src
    requires Scanning in dst ==> src == {Quarantined, Validating} && c.scan.maxAttempts >= 1
    requires src != {Quarantined, Validating} ==> dst !! {Scanning, ScanFailed, Quarantined, Validating, RejectedType}
    requires ScanFailed !in dst
    ensures ScanInv(c, v)
  {
    MovedCounts(w.doc, v.doc, src, dst);
  }

  lemma IntakeKeepsScanInv(c: Settings, w: World, i: IntakeStep)
    requires ScanInv(c, w) && IntakeNext(w, i).Some? && c.scan.maxAttempts >= 1
    ensures ScanInv(c, IntakeNext(w, i).value)
  {
    IntakeEffect(w, i);
    OtherKeepsScanInv(c, w, IntakeNext(w, i).value, {Quarantined, Validating}, {Validating, RejectedType, Scanning});
  }

  lemma PromoteKeepsScanInv(c: Settings, w: World, r: RunId, i: PromoteStep)
    requires ScanInv(c, w) && PromoteNext(c, w, r, i).Some?
    ensures ScanInv(c, PromoteNext(c, w, r, i).value)
  {
    PromoteEffect(c, w, r, i);
    OtherKeepsScanInv(c, w, PromoteNext(c, w, r, i).value, {CleanPendingPromotion, Promoting, PromotionFailed},
                      {Promoting, PromotionFailed, Clean});
  }

  lemma RecoverKeepsScanInv(c: Settings, w: World, i: RecoverStep)
    requires ScanInv(c, w) && RecoverNext(w, i).Some?
    ensures ScanInv(c, RecoverNext(w, i).value)
  {
    RecoverEffect(w, i);
    OtherKeepsScanInv(c, w, RecoverNext(w, i).value, {CleanPendingPromotion, Promoting}, {Promoting, PromotionFailed});
  }

  lemma ParseKeepsScanInv(c: Settings, w: World, r: RunId, i: ParseStep)
    requires ScanInv(c, w) && ParseNext(c, w, r, i).Some?
    ensures ScanInv(c, ParseNext(c, w, r, i).value)
  {
    ParseEffect(c, w, r, i);
    OtherKeepsScanInv(c, w, ParseNext(c, w, r, i).value, {Clean, ParseFailed, Parsing},
                      {Parsing, ParseFailed, Completed});
  }

  lemma TamperKeepsScanInv(c: Settings, w: World, i: TamperStep)
    requires ScanInv(c, w)
    ensures ScanInv(c, TamperNext(w, i))
  {
  }

  lemma NextKeepsScanInv(c: Settings, w: World, s: Step)
    requires ScanInv(c, w) && Next(c, w, s).Some? && c.scan.maxAttempts >= 1
    ensures ScanInv(c, Next(c, w, s).value)
  {
    match s
    case Intake(i) => IntakeKeepsScanInv(c, w, i);
    case Scanner(i) => ScanKeepsScanInv(c, w, i);
    case Promoter(r, i) => PromoteKeepsScanInv(c, w, r, i);
    case Recover(i) => RecoverKeepsScanInv(c, w, i);
    case Parser(r, i) => ParseKeepsScanInv(c, w, r, i);
    case Tamper(i) => TamperKeepsScanInv(c, w, i);
  }

  lemma {:induction false} ScanInvAlways(c: Settings, upload: Bytes, steps: seq<Step>)
    requires c.scan.maxAttempts >= 1
    requires Exec(c, Init(c, upload), steps).Some?
    ensures ScanInv(c, Exec(c, Init(c, upload), steps).value)
    decreases |steps|
  {
    if steps != [] {
      ScanInvAlways(c, upload, steps[..|steps| - 1]);
      NextKeepsScanInv(c, Exec(c, Init(c, upload), steps[..|steps| - 1]).value, steps[|steps| - 1]);
    }
  }

  /**
   * In every run with crashes and redelivery a failed scan is armed again at most cap - 1 times, and
   * the counter exceeds the cap by no more than the number of attempts that crashed.
   */
  lemma ScanAttemptsAreBounded(c: Settings, upload: Bytes, steps: seq<Step>)
    requires c.scan.maxAttempts >= 1
    requires Exec(c, Init(c, upload), steps).Some?
    ensures var w := Exec(c, Init(c, upload), steps).value;
            Rearms(w.doc.audit) <= c.scan.maxAttempts - 1 && w.doc.scan.count <= c.scan.maxAttempts + w.scanner.crashes
  {
    ScanInvAlways(c, upload, steps);
  }

  ghost predicate TokensDistinct(parses: map<RunId, ParseRun>) {
    forall r, q :: r in parses && q in parses && r != q ==> parses[r].snapshot.token != parses[q].snapshot.token
  }

  ghost predicate PagesMatch(d: Doc, units: seq<Parse.Unit>) {
    d.pages == Parse.PagesOf(units) && Parse.Numbered(units) && Parse.DistinctLocators(units)
  }

  ghost predicate AnswerKept(w: World, run: ParseRun)
    requires run.Answered?
  {
    && run.snapshot.token in w.log.answers && w.log.answers[run.snapshot.token] == run.response.units
    && Parse.Acceptable(run.response)
  }

  /** No live attempt has the token the row stores. */
  ghost predicate Unowned(w: World) {
    forall r :: r in w.parses ==> Some(w.parses[r].snapshot.token) != w.doc.parse.token
  }

  ghost predicate BuiltFromTheAnswer(w: World) {
    w.doc.parse.token.Some? && w.doc.parse.token.value in w.log.answers
    && PagesMatch(w.doc, w.log.answers[w.doc.parse.token.value])
  }

  ghost predicate ParseInv(c: Settings, w: World) {
    && w.doc.parse.count == Entries(w.doc.audit, Parsing) <= c.parseCap
    && (w.doc.status in {Parsing, ParseFailed, Completed} ==> w.doc.parse.token.Some?)
    && (w.doc.parse.token.Some? ==> w.doc.parse.token.value in w.used)
    && (forall r :: r in w.parses ==> w.parses[r].snapshot.token in w.used)
    && TokensDistinct(w.parses)
    && (forall r :: r in w.parses && w.parses[r].Answered? ==> AnswerKept(w, w.parses[r]))
    && (w.doc.status == Completed ==> Unowned(w) && BuiltFromTheAnswer(w))
  }

  /** `w.parses` with one run moved on under its own token, or gone. */
  lemma RunMovedKeepsTokens(w: World, r: RunId, run: ParseRun)
    requires TokensDistinct(w.parses) && (forall q :: q in w.parses ==> w.parses[q].snapshot.token in w.used)
    ensures r in w.parses && run.snapshot.token == w.parses[r].snapshot.token ==> TokensDistinct(w.parses[r := run])
    ensures run.snapshot.token !in w.used ==> TokensDistinct(w.parses[r := run])
    ensures TokensDistinct(w.parses - {r})
  {
  }

  lemma ClosingStepsKeepParseInv(c: Settings, w: World, v: World, r: RunId)
    requires ParseInv(c, w) && r in w.parses && v.parses == w.parses - {r} && v.used == w.used
    requires Moved(w.doc, v.doc, {Parsing}, {ParseFailed, Completed})
    requires v.doc.parse.count == w.doc.parse.count && v.doc.parse.token == w.doc.parse.token
    requires v.log.answers == w.log.answers
    requires w.doc.status == Completed ==> v.doc == w.doc
    requires v.doc.status == Completed && w.doc.status != Completed ==>
               v.doc.parse.token == Some(w.parses[r].snapshot.token) && BuiltFromTheAnswer(v)
    ensures ParseInv(c, v)
  {
    MovedCounts(w.doc, v.doc, {Parsing}, {ParseFailed, Completed});
    RunMovedKeepsTokens(w, r, w.parses[r]);
  }

  lemma PersistKeepsParseInv(c: Settings, w: World, r: RunId)
    requires ParseInv(c, w) && r in w.parses && w.parses[r].Answered?
    ensures ParseInv(c, PersistStep(w, r, w.parses[r].snapshot, w.parses[r].content, w.parses[r].response))
  {
    var run := w.parses[r];
    var v := PersistStep(w, r, run.snapshot, run.content, run.response);
    PersistMoves(w.doc, run.snapshot, run.response);
    ClosingStepsKeepParseInv(c, w, v, r);
  }

  lemma BeginKeepsParseInv(c: Settings, w: World, r: RunId, token: Uuid)
    requires ParseInv(c, w) && ParseNext(c, w, r, Begin(token)).Some?
    ensures ParseInv(c, ParseNext(c, w, r, Begin(token)).value)
  {
    var v := ParseNext(c, w, r, Begin(token)).value;
    MovedCounts(w.doc, v.doc, {Clean, ParseFailed}, {Parsing});
    RunMovedKeepsTokens(w, r, v.parses[r]);
  }

  lemma OpenStepKeepsParseInv(c: Settings, w: World, r: RunId, s: ParseStep)
    requires ParseInv(c, w) && ParseNext(c, w, r, s).Some?
    requires s.ReadClean? || s.NoAnswer? || s.PersistFault? || s.WriteFails? || s.CrashParse?
    ensures ParseInv(c, ParseNext(c, w, r, s).value)
  {
    var v := ParseNext(c, w, r, s).value;
    RunMovedKeepsTokens(w, r, if r in v.parses then v.parses[r] else w.parses[r]);
  }

  lemma RespondKeepsParseInv(c: Settings, w: World, r: RunId, response: Parse.Response)
    requires ParseInv(c, w) && ParseNext(c, w, r, Respond(response)).Some?
    ensures ParseInv(c, ParseNext(c, w, r, Respond(response)).value)
  {
    var v := ParseNext(c, w, r, Respond(response)).value;
    RunMovedKeepsTokens(w, r, v.parses[r]);
    forall q | q in v.parses && v.parses[q].Answered? ensures AnswerKept(v, v.parses[q]) {
      if q != r { assert AnswerKept(w, w.parses[q]); }
    }
  }

  lemma ParseKeepsParseInv(c: Settings, w: World, r: RunId, s: ParseStep)
    requires ParseInv(c, w) && ParseNext(c, w, r, s).Some?
    ensures ParseInv(c, ParseNext(c, w, r, s).value)
  {
    if s.Begin? {
      BeginKeepsParseInv(c, w, r, s.token);
    } else if s.Persist? {
      PersistKeepsParseInv(c, w, r);
    } else if s.RecordFail? {
      ClosingStepsKeepParseInv(c, w, RecordFailStep(w, r, w.parses[r].snapshot, w.parses[r].code), r);
    } else if s.Respond? {
      RespondKeepsParseInv(c, w, r, s.response);
    } else {
      OpenStepKeepsParseInv(c, w, r, s);
    }
  }

  lemma OtherKeepsParseInv(c: Settings, w: World, v: World, src: set<Status>, dst: set<Status>)
    requires ParseInv(c, w) && SameParsePart(w, v) && Moved(w.doc, v.doc, src, dst) && w.used <= v.used
    requires dst !! {Parsing, ParseFailed, Completed}
    ensures ParseInv(c, v)
  {
    MovedCounts(w.doc, v.doc, src, dst);
  }

  lemma IntakeKeepsParseInv(c: Settings, w: World, i: IntakeStep)
    requires ParseInv(c, w) && IntakeNext(w, i).Some?
    ensures ParseInv(c, IntakeNext(w, i).value)
  {
    IntakeEffect(w, i);
    OtherKeepsParseInv(c, w, IntakeNext(w, i).value, {Quarantined, Validating}, {Validating, RejectedType, Scanning});
  }

  lemma ScanKeepsParseInv(c: Settings, w: World, i: ScanStep)
    requires ParseInv(c, w) && ScanNext(c, w, i).Some?
    ensures ParseInv(c, ScanNext(c, w, i).value)
  {
    ScanEffect(c, w, i);
    OtherKeepsParseInv(c, w, ScanNext(c, w, i).value, {Scanning, ScanFailed}, {Scanning, ScanFailed, RejectedMalware,
                                                                               RejectedContentPolicy,
                                                                               CleanPendingPromotion});
  }

  lemma PromoteKeepsParseInv(c: Settings, w: World, r: RunId, i: PromoteStep)
    requires ParseInv(c, w) && PromoteNext(c, w, r, i).Some?
    ensures ParseInv(c, PromoteNext(c, w, r, i).value)
  {
    PromoteEffect(c, w, r, i);
    OtherKeepsParseInv(c, w, PromoteNext(c, w, r, i).value, {CleanPendingPromotion, Promoting, PromotionFailed},
                       {Promoting, PromotionFailed, Clean});
  }

  lemma RecoverKeepsParseInv(c: Settings, w: World, i: RecoverStep)
    requires ParseInv(c, w) && RecoverNext(w, i).Some?
    ensures ParseInv(c, RecoverNext(w, i).value)
  {
    RecoverEffect(w, i);
    OtherKeepsParseInv(c, w, RecoverNext(w, i).value, {CleanPendingPromotion, Promoting}, {Promoting, PromotionFailed});
  }

  lemma TamperKeepsParseInv(c: Settings, w: World, i: TamperStep)
    requires ParseInv(c, w)
    ensures ParseInv(c, TamperNext(w, i))
  {
  }

  lemma NextKeepsParseInv(c: Settings, w: World, s: Step)
    requires ParseInv(c, w) && Next(c, w, s).Some?
    ensures ParseInv(c, Next(c, w, s).value)
  {
    match s
    case Intake(i) => IntakeKeepsParseInv(c, w, i);
    case Scanner(i) => ScanKeepsParseInv(c, w, i);
    case Promoter(r, i) => PromoteKeepsParseInv(c, w, r, i);
    case Recover(i) => RecoverKeepsParseInv(c, w, i);
    case Parser(r, i) => ParseKeepsParseInv(c, w, r, i);
    case Tamper(i) => TamperKeepsParseInv(c, w, i);
  }

  lemma {:induction false} ParseInvAlways(c: Settings, upload: Bytes, steps: seq<Step>)
    requires Exec(c, Init(c, upload), steps).Some?
    ensures ParseInv(c, Exec(c, Init(c, upload), steps).value)
    decreases |steps|
  {
    if steps != [] {
      ParseInvAlways(c, upload, steps[..|steps| - 1]);
      NextKeepsParseInv(c, Exec(c, Init(c, upload), steps[..|steps| - 1]).value, steps[|steps| - 1]);
    }
  }

  /**
   * Whatever overlaps and crashes: the counter is the number of entries into PARSING and never
   * passes the cap, and the pages of a COMPLETED document are, unit for page, what the service
   * answered to the attempt whose token the row stores.
   */
  lemma ParseAttemptsAreBounded(c: Settings, upload: Bytes, steps: seq<Step>)
    requires Exec(c, Init(c, upload), steps).Some?
    ensures var w := Exec(c, Init(c, upload), steps).value;
            && w.doc.parse.count == Entries(w.doc.audit, Parsing) <= c.parseCap
            && (w.doc.status == Completed ==>
                  && w.doc.parse.token.Some? && w.doc.parse.token.value in w.log.answers
                  && var units := w.log.answers[w.doc.parse.token.value];
                  && |w.doc.pages| == |units|
                  && (forall i :: 0 <= i < |units| ==>
                                    w.doc.pages[i] == Parse.PageOf(units[i]) && w.doc.pages[i].number == i + 1)
                  && (forall i, j :: 0 <= i < j < |units| ==> w.doc.pages[i].locator != w.doc.pages[j].locator))
  {
    ParseInvAlways(c, upload, steps);
  }
}
