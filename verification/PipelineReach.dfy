/** Runs that do happen: from an upload to promotion, to COMPLETED, and into the two states nothing recovers from. */
module PipelineReach {
  import opened Basics
  import opened IngestionState
  import Scan = MalwareScan
  import opened CleanPromotion
  import Parse = DocumentParsing
  import opened Pipeline
  import opened PipelineHistory
  import opened PipelineCounters
  import opened PipelineRuns
  import opened PipelineChain
  import opened PromotionSafety
  import opened PromotionRefinement
  import opened PromotionAttempts
  import opened ParseOwnership
  import opened ParseRetries

  /** An upload that no promotion or parse attempt has touched. */
  ghost predicate Fresh(c: Settings, upload: Bytes, w: World) {
    && w.doc.source.path == InQuarantine && w.doc.source.digest == Some(c.scan.hash(upload))
    && w.doc.source.size == Some(|upload|)
    && w.doc.promotion == PromotionColumns(0, None, false) && w.doc.parse == ParseColumns(0, None, None)
    && w.quarantine == Inode(true, upload) && w.files == map[] && w.lock.None? && w.used == {}
    && w.promotions == map[] && w.parses == map[] && w.log.original == upload
  }

  ghost predicate StepsTo(c: Settings, upload: Bytes, w: World, s: Step, v: World) {
    Next(c, w, s) == Some(v) && Fresh(c, upload, v)
  }

  lemma Validated(c: Settings, upload: Bytes, w: World) returns (v: World)
    requires Fresh(c, upload, w) && w.doc.status == Quarantined && !w.scanner.active
    ensures StepsTo(c, upload, w, Intake(Validate), v) && v.doc.status == Validating && !v.scanner.active
  {
    v := Next(c, w, Intake(Validate)).value;
  }

  lemma Typed(c: Settings, upload: Bytes, w: World) returns (v: World)
    requires Fresh(c, upload, w) && w.doc.status == Validating && !w.scanner.active
    ensures StepsTo(c, upload, w, Intake(RecordType(Pdf)), v)
    ensures v.doc.status == Validating && v.doc.source.contentType == Pdf && !v.scanner.active
  {
    v := Next(c, w, Intake(RecordType(Pdf))).value;
  }

  lemma Admitted(c: Settings, upload: Bytes, w: World) returns (v: World)
    requires Fresh(c, upload, w) && w.doc.status == Validating && w.doc.source.contentType == Pdf && !w.scanner.active
    ensures StepsTo(c, upload, w, Intake(Admit), v)
    ensures v.doc.status == Scanning && v.doc.source.contentType == Pdf && !v.scanner.active
  {
    v := Next(c, w, Intake(Admit)).value;
  }

  lemma ScanStarted(c: Settings, upload: Bytes, w: World) returns (v: World)
    requires Fresh(c, upload, w) && w.doc.status == Scanning && w.doc.source.contentType == Pdf && !w.scanner.active
    ensures StepsTo(c, upload, w, Scanner(StartScan), v)
    ensures v.doc.status == Scanning && v.doc.source.contentType == Pdf && v.scanner.active
  {
    v := Next(c, w, Scanner(StartScan)).value;
  }

  /** Fresh signatures, nothing found, and the policy passed. */
  function AllClear(c: Settings, upload: Bytes): Scan.Observation {
    Scan.Observation(Some(upload), 0, Some(Scan.VersionInfo(Some(-c.scan.maxSignatureAge))), Scan.ClamClean,
                     Scan.PolicyPassed, Scan.Never, Scan.Queued)
  }

  lemma ScanPassed(c: Settings, upload: Bytes, w: World) returns (v: World)
    requires Fresh(c, upload, w) && w.doc.status == Scanning && w.doc.source.contentType == Pdf && w.scanner.active
    ensures StepsTo(c, upload, w, Scanner(EndScan(AllClear(c, upload))), v) && v.doc.status == CleanPendingPromotion
  {
    assert Scan.Judge(c.scan, w.doc, AllClear(c, upload)) == Scan.Passed;
    FinishScanMoves(w.doc, Scan.Passed);
    ScanEffect(c, w, EndScan(AllClear(c, upload)));
    v := Next(c, w, Scanner(EndScan(AllClear(c, upload)))).value;
  }

  lemma ReachesScanning(c: Settings, upload: Bytes) returns (steps: seq<Step>, w: World)
    ensures Runs(c, Init(c, upload), steps, w) && Untampered(steps) && Fresh(c, upload, w)
    ensures w.doc.status == Scanning && w.doc.source.contentType == Pdf && w.scanner.active
  {
    var a := Validated(c, upload, Init(c, upload));
    var b := Typed(c, upload, a);
    var d := Admitted(c, upload, b);
    w := ScanStarted(c, upload, d);
    steps := TwoSteps(c, Init(c, upload), Intake(Validate), a, Intake(RecordType(Pdf)), b);
    steps := Extended(c, Init(c, upload), steps, b, Intake(Admit), d);
    steps := Extended(c, Init(c, upload), steps, d, Scanner(StartScan), w);
  }

  /** Any upload, recognized as a PDF and found clean, waits for promotion. */
  lemma ReachesPromotion(c: Settings, upload: Bytes) returns (steps: seq<Step>, w: World)
    ensures Runs(c, Init(c, upload), steps, w) && Untampered(steps)
    ensures Fresh(c, upload, w) && w.doc.status == CleanPendingPromotion
  {
    var x;
    steps, x := ReachesScanning(c, upload);
    w := ScanPassed(c, upload, x);
    steps := Extended(c, Init(c, upload), steps, x, Scanner(EndScan(AllClear(c, upload))), w);
  }

  // Promotion, as far as the CLEAN commit.

  lemma ReachesVerified(c: Settings, upload: Bytes, w: World) returns (steps: seq<Step>)
    requires Fresh(c, upload, w) && w.doc.status == CleanPendingPromotion
    ensures Runs(c, w, steps, Mid(w, 0, 0, Verified(0, upload), w.files[Partial(0) := upload])) && OwnSteps(steps, 0)
  {
    var resolved, copied := Mid(w, 0, 0, Resolved(0), w.files), Staging(w, 0, 0, 0, upload);
    Entering(c, w, 0, 0, NoTrouble);
    BaseFacts(w, 0);
    OpeningFromResolved(c, w, 0, 0, 0, Copying(0, []), w.files[Partial(0) := []]);
    AllChunks(upload);
    var copying := CopyingUpTo(c, w, 0, 0, 0, |upload|);
    VerifyingTheCopy(c, w, 0, 0, 0, w.files[Partial(0) := upload]);
    steps := Extended(c, w, [Promoter(0, Enter)] + [Promoter(0, Resolve(0, NoTrouble))], resolved, Promoter(0, Open),
                      Staging(w, 0, 0, 0, []));
    Chain(c, w, steps, Staging(w, 0, 0, 0, []), copying, copied);
    steps := Extended(c, w, steps + copying, copied, Promoter(0, Verify),
                      Mid(w, 0, 0, Verified(0, upload), w.files[Partial(0) := upload]));
  }

  function ClearedWorld(w: World, upload: Bytes, run: PromotionRun): World
    requires Promotable(w.doc.status)
  {
    Owing(w, 0, 0, RecordClean(CleanPromotion.Begin(w.doc), 0), w.files[Final(0) := upload], upload, run)
  }

  lemma ReachesCleared(c: Settings, upload: Bytes, w: World) returns (steps: seq<Step>)
    requires Fresh(c, upload, w) && w.doc.status == CleanPendingPromotion
    ensures Runs(c, w, steps, ClearedWorld(w, upload, Cleared)) && OwnSteps(steps, 0)
  {
    var placed := Mid(w, 0, 0, InPlace(0, upload), w.files[Final(0) := upload]);
    steps := ReachesVerified(c, upload, w);
    RenamingTheCopy(c, w, 0, 0, 0, upload);
    CommittingClean(c, w, 0, 0, 0, upload, w.files[Final(0) := upload]);
    steps := Extended(c, w, steps, Mid(w, 0, 0, Verified(0, upload), w.files[Partial(0) := upload]),
                      Promoter(0, Rename), placed);
    steps := Extended(c, w, steps, placed, Promoter(0, Commit), ClearedWorld(w, upload, Cleared));
  }

  lemma ReachesADebt(c: Settings, upload: Bytes, w: World, unlinkFailed: bool) returns (steps: seq<Step>)
    requires Fresh(c, upload, w) && w.doc.status == CleanPendingPromotion
    ensures Runs(c, w, steps, ClearedWorld(w, upload, if unlinkFailed then Unflagged else Cleared))
    ensures OwnSteps(steps, 0)
  {
    steps := ReachesCleared(c, upload, w);
    if unlinkFailed {
      Unlinking(c, w, 0, 0, RecordClean(CleanPromotion.Begin(w.doc), 0), w.files[Final(0) := upload], upload, false);
      steps := Extended(c, w, steps, ClearedWorld(w, upload, Cleared), Promoter(0, Unlink(false)),
                        ClearedWorld(w, upload, Unflagged));
    }
  }

  lemma TheCrashAbandons(c: Settings, upload: Bytes, w: World, run: PromotionRun)
    requires Fresh(c, upload, w) && w.doc.status == CleanPendingPromotion && (run.Cleared? || run.Unflagged?)
    ensures var x := ClearedWorld(w, upload, run);
            Next(c, x, Promoter(0, Crash)) == Some(Release(x, 0)) && Leftover(Release(x, 0))
  {
  }

  /**
   * Any upload can be left over: the attempt that promotes it crashes before it unlinks the source, or
   * after that failed.
   */
  lemma AnyUploadCanBeLeftOver(c: Settings, upload: Bytes, unlinkFailed: bool) returns (steps: seq<Step>)
    ensures Untampered(steps) && Exec(c, Init(c, upload), steps).Some?
    ensures Leftover(Exec(c, Init(c, upload), steps).value)
  {
    var opening, w := ReachesPromotion(c, upload);
    var debt := ReachesADebt(c, upload, w, unlinkFailed);
    var x := ClearedWorld(w, upload, if unlinkFailed then Unflagged else Cleared);
    Chain(c, Init(c, upload), opening, w, debt, x);
    TheCrashAbandons(c, upload, w, if unlinkFailed then Unflagged else Cleared);
    steps := Extended(c, Init(c, upload), opening + debt, x, Promoter(0, Crash), Release(x, 0));
  }

  // Parsing.

  lemma PromotedOutcome(c: Settings, upload: Bytes, w: World)
    requires Fresh(c, upload, w) && w.doc.status == CleanPendingPromotion
    requires Lawful(Outcome(c, w, 0, NO_FAULTS).doc)
    ensures Waiting(c, upload, Outcome(c, w, 0, NO_FAULTS), 0)
  {
    WholeSucceeds(c, w, 0, NO_FAULTS, w.files[Final(0) := upload], upload);
    var v := Outcome(c, w, 0, NO_FAULTS);
    NoFailureBeforeParsing(v.doc.audit, v.doc.status);
  }

  lemma ReachesClean(c: Settings, upload: Bytes) returns (steps: seq<Step>, w: World)
    ensures Runs(c, Init(c, upload), steps, w) && Untampered(steps) && Waiting(c, upload, w, 0)
  {
    var opening, pending := ReachesPromotion(c, upload);
    var promotion := AnUninterruptedAttemptIsPromote(c, pending, 0, 0, NO_FAULTS);
    w := Outcome(c, pending, 0, NO_FAULTS);
    Chain(c, Init(c, upload), opening, pending, promotion, w);
    steps := opening + promotion;
    ChainAlways(c, upload, steps);
    PromotedOutcome(c, upload, pending);
  }

  lemma ReachesWaiting(c: Settings, upload: Bytes, n: nat) returns (steps: seq<Step>, w: World)
    requires |upload| > 0 && c.parseCap >= n
    ensures Runs(c, Init(c, upload), steps, w) && Untampered(steps) && Waiting(c, upload, w, n)
  {
    var before, x := ReachesClean(c, upload);
    var more;
    more, w := FailingOften(c, upload, x, n);
    steps := Onward(c, Init(c, upload), before, x, more, w);
  }

  lemma ReachesTheService(c: Settings, upload: Bytes, n: nat) returns (steps: seq<Step>, w: World)
    requires |upload| > 0 && c.parseCap > n
    ensures Runs(c, Init(c, upload), steps, w) && Untampered(steps)
    ensures UnderParse(c, upload, w, n + 1, Sent(AttemptNumber(c, upload, n + 1), upload))
  {
    var before, x := ReachesWaiting(c, upload, n);
    var more;
    more, w := ReachesSent(c, upload, x, n);
    steps := Onward(c, Init(c, upload), before, x, more, w);
  }

  lemma ReachesAnAnswer(c: Settings, upload: Bytes, n: nat, response: Parse.Response)
    returns (steps: seq<Step>, w: World)
    requires |upload| > 0 && 1 <= n <= c.parseCap && Parse.Acceptable(response)
    ensures Runs(c, Init(c, upload), steps, w) && Untampered(steps)
    ensures UnderParse(c, upload, w, n, Answered(AttemptNumber(c, upload, n), upload, response))
  {
    var sent;
    steps, sent := ReachesTheService(c, upload, n - 1);
    w := Replied(c, upload, sent, n, response);
    steps := Extended(c, Init(c, upload), steps, sent, Parser(0, Respond(response)), w);
  }

  /**
   * Every non-empty upload has, for each number of attempts up to the cap, an untampered run in which all
   * but the last fail, each failure recorded, and the last brings any acceptable answer to COMPLETED.
   */
  lemma EveryAnswerCanBecomeThePages(c: Settings, upload: Bytes, n: nat, response: Parse.Response)
    returns (steps: seq<Step>)
    requires |upload| > 0 && 1 <= n <= c.parseCap && Parse.Acceptable(response)
    ensures Untampered(steps) && Exec(c, Init(c, upload), steps).Some?
    ensures var d := Exec(c, Init(c, upload), steps).value.doc;
            && d.status == Completed && d.pages == Parse.PagesOf(response.units)
            && d.parse.count == n && Entries(d.audit, ParseFailed) == n - 1
  {
    var x;
    steps, x := ReachesAnAnswer(c, upload, n, response);
    var v := Persisted(c, upload, x, n, response);
    steps := Extended(c, Init(c, upload), steps, x, Parser(0, Persist), v);
  }

  lemma TheEndStrands(c: Settings, upload: Bytes, w: World, n: nat, run: ParseRun, i: ParseStep) returns (v: World)
    requires UnderParse(c, upload, w, n, run) && (i.CrashParse? || (i.WriteFails? && run.Answered?))
    ensures Next(c, w, Parser(0, i)) == Some(v) && Stranded(v)
  {
    v := Next(c, w, Parser(0, i)).value;
  }

  /** Any upload that is parsed can be stranded, at the latest when its pages are written. */
  lemma AnyUploadCanBeStranded(c: Settings, upload: Bytes, n: nat, response: Parse.Response, i: ParseStep)
    returns (steps: seq<Step>)
    requires |upload| > 0 && 1 <= n <= c.parseCap && Parse.Acceptable(response) && EndsUnrecorded(i)
    ensures Untampered(steps) && Exec(c, Init(c, upload), steps).Some?
    ensures Stranded(Exec(c, Init(c, upload), steps).value)
  {
    var x;
    steps, x := ReachesAnAnswer(c, upload, n, response);
    var v := TheEndStrands(c, upload, x, n, x.parses[0], i);
    steps := Extended(c, Init(c, upload), steps, x, Parser(0, i), v);
  }

  // Nothing else reaches them: an empty upload, or a cap of zero, is never parsed.

  predicate OnceParsed(s: Status) {
    s in {Parsing, ParseFailed, Completed}
  }

  ghost predicate ParsedWithReason(c: Settings, w: World) {
    OnceParsed(w.doc.status) ==> |w.log.original| > 0 && c.parseCap >= 1
  }

  lemma ParseKeepsReason(c: Settings, w: World, r: RunId, i: ParseStep)
    requires BaseInv(c, w) && ParsedWithReason(c, w) && ParseNext(c, w, r, i).Some?
    ensures ParsedWithReason(c, ParseNext(c, w, r, i).value)
  {
    ParseEffect(c, w, r, i);
    if i.Persist? {
      PersistEffect(w, r, w.parses[r].snapshot, w.parses[r].content, w.parses[r].response);
    }
  }

  /** Nothing but the parser brings a document into these states. */
  lemma ReasonElsewhere(c: Settings, w: World, v: World, src: set<Status>, dst: set<Status>)
    requires ParsedWithReason(c, w) && Moved(w.doc, v.doc, src, dst) && v.log.original == w.log.original
    requires forall s :: s in dst ==> !OnceParsed(s)
    ensures ParsedWithReason(c, v)
  {
  }

  lemma PromoteKeepsReason(c: Settings, w: World, r: RunId, i: PromoteStep)
    requires ParsedWithReason(c, w) && PromoteNext(c, w, r, i).Some?
    ensures ParsedWithReason(c, PromoteNext(c, w, r, i).value)
  {
    PromoteEffect(c, w, r, i);
    ReasonElsewhere(c, w, PromoteNext(c, w, r, i).value, {CleanPendingPromotion, Promoting, PromotionFailed},
                    {Promoting, PromotionFailed, Clean});
  }

  lemma ScanKeepsReason(c: Settings, w: World, i: ScanStep)
    requires ParsedWithReason(c, w) && ScanNext(c, w, i).Some?
    ensures ParsedWithReason(c, ScanNext(c, w, i).value)
  {
    ScanEffect(c, w, i);
    ReasonElsewhere(c, w, ScanNext(c, w, i).value, {Scanning, ScanFailed},
                    {Scanning, ScanFailed, RejectedMalware, RejectedContentPolicy, CleanPendingPromotion});
  }

  lemma ReasonOutsideTheParser(c: Settings, w: World, s: Step)
    requires ParsedWithReason(c, w) && (s.Intake? || s.Recover? || s.Tamper?) && Next(c, w, s).Some?
    ensures ParsedWithReason(c, Next(c, w, s).value)
  {
    if s.Intake? {
      IntakeEffect(w, s.intake);
      ReasonElsewhere(c, w, IntakeNext(w, s.intake).value, {Quarantined, Validating},
                      {Validating, RejectedType, Scanning});
    } else if s.Recover? {
      RecoverEffect(w, s.recover);
      ReasonElsewhere(c, w, RecoverNext(w, s.recover).value, {CleanPendingPromotion, Promoting},
                      {Promoting, PromotionFailed});
    }
  }

  lemma NextKeepsReason(c: Settings, w: World, s: Step)
    requires BaseInv(c, w) && ParsedWithReason(c, w) && Next(c, w, s).Some?
    ensures ParsedWithReason(c, Next(c, w, s).value)
  {
    match s
    case Scanner(i) => ScanKeepsReason(c, w, i);
    case Promoter(r, i) => PromoteKeepsReason(c, w, r, i);
    case Parser(r, i) => ParseKeepsReason(c, w, r, i);
    case _ => ReasonOutsideTheParser(c, w, s);
  }

  lemma {:induction false} ReasonAlways(c: Settings, upload: Bytes, steps: seq<Step>)
    requires Exec(c, Init(c, upload), steps).Some?
    ensures ParsedWithReason(c, Exec(c, Init(c, upload), steps).value)
    decreases |steps|
  {
    if steps != [] {
      var before := steps[..|steps| - 1];
      ReasonAlways(c, upload, before);
      ChainAlways(c, upload, before);
      NextKeepsReason(c, Exec(c, Init(c, upload), before).value, steps[|steps| - 1]);
    }
  }

  ghost predicate Reachable(c: Settings, upload: Bytes, p: World -> bool) {
    exists steps :: Exec(c, Init(c, upload), steps).Some? && p(Exec(c, Init(c, upload), steps).value)
  }

  predicate IsCompleted(w: World) {
    w.doc.status == Completed
  }

  lemma OnlyWithReason(c: Settings, upload: Bytes, p: World -> bool)
    requires forall w :: p(w) ==> OnceParsed(w.doc.status)
    requires Reachable(c, upload, p)
    ensures |upload| > 0 && c.parseCap >= 1
  {
    var steps :| Exec(c, Init(c, upload), steps).Some? && p(Exec(c, Init(c, upload), steps).value);
    ReasonAlways(c, upload, steps);
    ChainAlways(c, upload, steps);
  }

  /** COMPLETED, and being stranded in PARSING, can be reached exactly by the uploads that may be parsed at all. */
  lemma CompletedOrStrandedExactlyWhenParsable(c: Settings, upload: Bytes)
    ensures Reachable(c, upload, IsCompleted) <==> |upload| > 0 && c.parseCap >= 1
    ensures Reachable(c, upload, Stranded) <==> |upload| > 0 && c.parseCap >= 1
  {
    if Reachable(c, upload, IsCompleted) {
      OnlyWithReason(c, upload, IsCompleted);
    }
    if Reachable(c, upload, Stranded) {
      OnlyWithReason(c, upload, Stranded);
    }
    if |upload| > 0 && c.parseCap >= 1 {
      var answer := Parse.Response(Parse.PROTOCOL_VERSION, Parse.PARSER_NAME, [], 0, 0);
      var steps := EveryAnswerCanBecomeThePages(c, upload, 1, answer);
      var stranded := AnyUploadCanBeStranded(c, upload, 1, answer, CrashParse);
      assert IsCompleted(Exec(c, Init(c, upload), steps).value) && Stranded(Exec(c, Init(c, upload), stranded).value);
    }
  }
}
