/**
 * What every run of the pipeline keeps, tampering with stored files included: the audit trail, the
 * counters, the digest chain.
 */
module PipelineHistory {
  import opened Basics
  import opened IngestionState
  import Scan = MalwareScan
  import opened CleanPromotion
  import Parse = DocumentParsing
  import opened Pipeline

  /** The audit trail is a lawful walk, and digest and size are those of the upload for ever. */
  ghost predicate BaseInv(c: Settings, w: World) {
    && Lawful(w.doc)
    && w.doc.source.digest == Some(c.scan.hash(w.log.original))
    && w.doc.source.size == Some(|w.log.original|)
  }

  lemma IntakeKeepsBase(c: Settings, w: World, s: IntakeStep)
    requires BaseInv(c, w) && IntakeNext(w, s).Some?
    ensures BaseInv(c, IntakeNext(w, s).value)
  {
    match s
    case Validate => MoveKeepsTrail(w.doc, Validating, None, None);
    case RecordType(_) =>
    case RejectType(code) => MoveKeepsTrail(w.doc, RejectedType, Some(code),
                                            Some("The document could not be accepted."));
    case Admit => MoveKeepsTrail(w.doc, Scanning, None, None);
  }

  lemma FinishScanKeepsTrail(d: Doc, v: Scan.Verdict)
    requires Lawful(d) && d.status == Scanning
    ensures Lawful(Scan.FinishScan(d, v))
    ensures Scan.FinishScan(d, v).audit == d.audit + [AuditEvent(Scanning, Scan.StatusFor(v), Scan.ReasonFor(v))]
  {
    MoveKeepsTrail(d.(scan := Scan.ColumnsFor(d.scan, v)), Scan.StatusFor(v), Scan.ReasonFor(v), Scan.SummaryFor(v));
  }

  lemma EndScanKeepsBase(c: Settings, w: World, seen: Scan.Observation)
    requires BaseInv(c, w) && ScanNext(c, w, EndScan(seen)).Some?
    ensures BaseInv(c, ScanNext(c, w, EndScan(seen)).value)
  {
    FinishScanKeepsTrail(w.doc, Scan.Judge(c.scan, w.doc, seen));
    FinishScanMoves(w.doc, Scan.Judge(c.scan, w.doc, seen));
  }

  lemma LoseScanJobKeepsBase(c: Settings, w: World)
    requires BaseInv(c, w) && ScanNext(c, w, LoseScanJob).Some?
    ensures BaseInv(c, ScanNext(c, w, LoseScanJob).value)
  {
    MoveKeepsTrail(w.doc.(scan := w.doc.scan.(count := w.doc.scan.count + 1, status := Some("SCAN_ENQUEUE_FAILED"))),
                   ScanFailed, Some("SCAN_ENQUEUE_FAILED"), Some(Scan.FAILURE_SUMMARY));
  }

  lemma ScanKeepsBase(c: Settings, w: World, s: ScanStep)
    requires BaseInv(c, w) && ScanNext(c, w, s).Some?
    ensures BaseInv(c, ScanNext(c, w, s).value)
  {
    match s
    case Arm => MoveKeepsTrail(w.doc, Scanning, None, None);
    case StartScan =>
    case EndScan(seen) => EndScanKeepsBase(c, w, seen);
    case CrashScan =>
    case LoseScanJob => LoseScanJobKeepsBase(c, w);
  }

  lemma BeginKeepsTrail(d: Doc)
    requires Lawful(d) && Promotable(d.status)
    ensures Lawful(CleanPromotion.Begin(d))
  {
    MoveKeepsTrail(CountAttempt(d), Promoting, None, None);
  }

  lemma RecordAbortKeepsBase(c: Settings, w: World, r: RunId, code: string)
    requires BaseInv(c, w)
    ensures BaseInv(c, RecordAbortStep(w, r, code))
  {
    MoveKeepsTrail(Pending(w, r), PromotionFailed, Some(code), Some(code));
  }

  lemma CommitKeepsBase(c: Settings, w: World, r: RunId, id: Uuid, content: Bytes)
    requires BaseInv(c, w)
    ensures BaseInv(c, CommitStep(w, r, id, content))
  {
    MoveKeepsTrail(Relocate(Pending(w, r), id), Clean, None, None);
  }

  predicate TouchesFiles(s: PromoteStep) {
    s.Open? || s.CopyChunk? || s.Verify? || s.Rename? || s.Cleanup?
  }

  ghost predicate OnlyPromotionMoved(w: World, v: World) {
    && v.doc.status == w.doc.status && v.doc.audit == w.doc.audit && v.doc.source == w.doc.source
    && v.doc.scan == w.doc.scan
    && v.doc.parse == w.doc.parse && v.doc.pages == w.doc.pages && v.doc.promotion.cleanId == w.doc.promotion.cleanId
    && v.scanner == w.scanner && v.log.scanned == w.log.scanned
    && v.parses == w.parses && v.log.parsed == w.log.parsed && v.log.answers == w.log.answers
    && v.quarantine.content == w.quarantine.content && w.used <= v.used
    && v.log.original == w.log.original && v.log.promoted == w.log.promoted
  }

  lemma FileStepsAreQuiet(c: Settings, w: World, r: RunId, run: PromotionRun, s: PromoteStep)
    requires TouchesFiles(s) && RunNext(c, w, r, run, s).Some?
    ensures OnlyPromotionMoved(w, RunNext(c, w, r, run, s).value) && RunNext(c, w, r, run, s).value.doc == w.doc
  {
  }

  /** Every promotion step but the two that move the status leaves the audited part of the row alone. */
  lemma QuietRunSteps(c: Settings, w: World, r: RunId, run: PromotionRun, s: PromoteStep)
    requires !s.RecordAbort? && !s.Commit? && RunNext(c, w, r, run, s).Some?
    ensures OnlyPromotionMoved(w, RunNext(c, w, r, run, s).value)
  {
    if TouchesFiles(s) {
      FileStepsAreQuiet(c, w, r, run, s);
    }
  }

  lemma PromoteKeepsBase(c: Settings, w: World, r: RunId, s: PromoteStep)
    requires BaseInv(c, w) && PromoteNext(c, w, r, s).Some?
    ensures BaseInv(c, PromoteNext(c, w, r, s).value)
  {
    if s.Enter? {
      if w.doc.status != Promoting { BeginKeepsTrail(w.doc); }
    } else if s.RecordAbort? {
      RecordAbortKeepsBase(c, w, r, w.promotions[r].code);
    } else if s.Commit? {
      CommitKeepsBase(c, w, r, w.promotions[r].id, w.promotions[r].content);
    } else {
      QuietRunSteps(c, w, r, w.promotions[r], s);
    }
  }

  lemma RecoverKeepsBase(c: Settings, w: World, s: RecoverStep)
    requires BaseInv(c, w) && RecoverNext(w, s).Some?
    ensures BaseInv(c, RecoverNext(w, s).value)
  {
    match s
    case MarkPromoting => MoveKeepsTrail(w.doc, Promoting, Some("PROMOTION_QUEUE_FAILED"), None);
    case MarkFailed => MoveKeepsTrail(w.doc, PromotionFailed, Some("PROMOTION_QUEUE_FAILED"),
                                      Some("Clean storage promotion failed to queue."));
  }

  lemma PersistKeepsBase(c: Settings, w: World, r: RunId, s: Parse.Snapshot, content: Bytes, response: Parse.Response)
    requires BaseInv(c, w)
    ensures BaseInv(c, PersistStep(w, r, s, content, response))
  {
    var drift := "Clean document metadata changed during parsing";
    MoveKeepsTrail(w.doc.(parse := w.doc.parse.(error := Some("PARSER_INPUT_CHANGED")), summary := Some(drift)),
                   ParseFailed, Some("PARSER_INPUT_CHANGED"), None);
    MoveKeepsTrail(w.doc.(parse := w.doc.parse.(error := None), pages := Parse.PagesOf(response.units)), Completed,
                   None, None);
  }

  lemma ParseKeepsBase(c: Settings, w: World, r: RunId, s: ParseStep)
    requires BaseInv(c, w) && ParseNext(c, w, r, s).Some?
    ensures BaseInv(c, ParseNext(c, w, r, s).value)
  {
    if s.Begin? {
      MoveKeepsTrail(w.doc.(parse := w.doc.parse.(count := w.doc.parse.count + 1, token := Some(s.token))), Parsing,
                     None, None);
    } else if s.Persist? {
      PersistKeepsBase(c, w, r, w.parses[r].snapshot, w.parses[r].content, w.parses[r].response);
    } else if s.RecordFail? {
      var code := w.parses[r].code;
      MoveKeepsTrail(w.doc.(parse := w.doc.parse.(error := Some(code)), summary := Some(code)), ParseFailed, Some(code),
                     None);
    }
  }

  /** The row moved inside one part of the lifecycle, or did not move. */
  ghost predicate Moved(d: Doc, e: Doc, src: set<Status>, dst: set<Status>) {
    || (e.status == d.status && e.audit == d.audit)
    || (d.status in src && e.status in dst && |e.audit| == |d.audit| + 1 && e.audit[..|d.audit|] == d.audit
        && e.audit[|d.audit|].before == d.status && e.audit[|d.audit|].after == e.status)
  }

  ghost predicate SameScanPart(w: World, v: World) {
    && v.doc.scan == w.doc.scan
    && v.scanner == w.scanner && v.log.scanned == w.log.scanned
  }

  ghost predicate SamePromotionPart(w: World, v: World) {
    && v.doc.source.path == w.doc.source.path && v.doc.promotion == w.doc.promotion
    && v.promotions == w.promotions && v.log.promoted == w.log.promoted && v.lock == w.lock
  }

  ghost predicate SameParsePart(w: World, v: World) {
    && v.doc.parse == w.doc.parse && v.doc.pages == w.doc.pages
    && v.parses == w.parses && v.log.parsed == w.log.parsed && v.log.answers == w.log.answers
  }

  ghost predicate SameFiles(w: World, v: World) {
    v.files == w.files && v.quarantine == w.quarantine
  }

  lemma IntakeEffect(w: World, s: IntakeStep)
    requires IntakeNext(w, s).Some?
    ensures var v := IntakeNext(w, s).value;
            && Moved(w.doc, v.doc, {Quarantined, Validating}, {Validating, RejectedType, Scanning})
            && SameScanPart(w, v) && SamePromotionPart(w, v) && SameParsePart(w, v) && SameFiles(w, v)
            && v.used == w.used && v.log.original == w.log.original
  {
  }

  lemma ScanEffect(c: Settings, w: World, s: ScanStep)
    requires ScanNext(c, w, s).Some?
    ensures var v := ScanNext(c, w, s).value;
            && Moved(w.doc, v.doc, {Scanning, ScanFailed}, {Scanning, ScanFailed, RejectedMalware,
                                                            RejectedContentPolicy, CleanPendingPromotion})
            && SamePromotionPart(w, v) && SameParsePart(w, v) && SameFiles(w, v)
            && v.used == w.used && v.log.original == w.log.original
  {
    match s
    case Arm =>
    case StartScan =>
    case EndScan(seen) => FinishScanMoves(w.doc, Scan.Judge(c.scan, w.doc, seen));
    case CrashScan =>
    case LoseScanJob =>
  }

  lemma FinishScanMoves(d: Doc, v: Scan.Verdict)
    requires d.status == Scanning
    ensures var e := Scan.FinishScan(d, v);
            && Moved(d, e, {Scanning}, {ScanFailed, RejectedMalware, RejectedContentPolicy, CleanPendingPromotion})
            && e.scan.count == d.scan.count && e.source == d.source && e.promotion.cleanId == d.promotion.cleanId
            && e.parse.count == d.parse.count && e.parse.token == d.parse.token && e.pages == d.pages
            && (e.status == CleanPendingPromotion <==> v.Passed?)
            && (v.Passed? ==> e.scan.status == Some("CLEAN") && e.scan.policy == Some("PASSED"))
  {
    match v
    case Infected =>
    case PolicyRefused(_) =>
    case Passed =>
    case Failed(_, _) =>
  }

  lemma PromoteEffect(c: Settings, w: World, r: RunId, s: PromoteStep)
    requires PromoteNext(c, w, r, s).Some?
    ensures var v := PromoteNext(c, w, r, s).value;
            && Moved(w.doc, v.doc, {CleanPendingPromotion, Promoting, PromotionFailed},
                     {Promoting, PromotionFailed, Clean})
            && SameScanPart(w, v) && SameParsePart(w, v) && v.quarantine.content == w.quarantine.content
            && w.used <= v.used && v.log.original == w.log.original
  {
    if s.Enter? {
    } else if s.RecordAbort? {
      RecordAbortEffect(w, r, w.promotions[r].code);
    } else if s.Commit? {
      CommitEffect(w, r, w.promotions[r].id, w.promotions[r].content);
    } else {
      QuietRunSteps(c, w, r, w.promotions[r], s);
    }
  }

  lemma RecordAbortEffect(w: World, r: RunId, code: string)
    ensures var v := RecordAbortStep(w, r, code);
            && Moved(w.doc, v.doc, {Promoting}, {PromotionFailed})
            && SameScanPart(w, v) && SameParsePart(w, v) && SameFiles(w, v) && v.used == w.used
            && v.log.original == w.log.original
            && v.doc.source.path == w.doc.source.path && v.doc.promotion.cleanId == w.doc.promotion.cleanId
  {
  }

  lemma CommitEffect(w: World, r: RunId, id: Uuid, content: Bytes)
    ensures var v := CommitStep(w, r, id, content);
            && Moved(w.doc, v.doc, {Promoting}, {Clean})
            && SameScanPart(w, v) && SameParsePart(w, v) && SameFiles(w, v) && v.used == w.used
            && v.log.original == w.log.original
            && (w.doc.status == Promoting ==>
                  && v.doc.status == Clean && v.doc.source.path == InCleanStorage(id)
                  && v.doc.promotion.cleanId == Some(id) && v.log.promoted == Some(content))
            && (w.doc.status != Promoting ==> v.doc == w.doc && v.log.promoted == w.log.promoted)
  {
  }

  lemma RecoverEffect(w: World, s: RecoverStep)
    requires RecoverNext(w, s).Some?
    ensures var v := RecoverNext(w, s).value;
            && Moved(w.doc, v.doc, {CleanPendingPromotion, Promoting}, {Promoting, PromotionFailed})
            && SameScanPart(w, v) && SamePromotionPart(w, v) && SameParsePart(w, v) && SameFiles(w, v)
            && v.used == w.used && v.log.original == w.log.original
  {
  }

  lemma ParseEffect(c: Settings, w: World, r: RunId, s: ParseStep)
    requires ParseNext(c, w, r, s).Some?
    ensures var v := ParseNext(c, w, r, s).value;
            && Moved(w.doc, v.doc, {Clean, ParseFailed, Parsing}, {Parsing, ParseFailed, Completed})
            && SameScanPart(w, v) && SamePromotionPart(w, v) && SameFiles(w, v)
            && w.used <= v.used && v.log.original == w.log.original
  {
    if s.Begin? {
    } else if s.Persist? {
      PersistEffect(w, r, w.parses[r].snapshot, w.parses[r].content, w.parses[r].response);
    }
  }

  lemma PersistMoves(d: Doc, s: Parse.Snapshot, response: Parse.Response)
    ensures var e := Parse.Persist(d, s, response);
            && Moved(d, e, {Parsing}, {ParseFailed, Completed})
            && e.parse.count == d.parse.count && e.parse.token == d.parse.token
            && e.scan == d.scan && e.source == d.source && e.promotion == d.promotion
            && (!Parse.OwnsAttempt(d, s) ==> e == d)
            && (e.status == Completed && d.status != Completed ==>
                  Parse.OwnsAttempt(d, s) && e.pages == Parse.PagesOf(response.units))
            && (!(e.status == Completed && d.status != Completed) ==> e.pages == d.pages)
  {
    if Parse.OwnsAttempt(d, s) {
      if Parse.CleanSource(d) != s.source || d.source.digest != Some(s.digest) {
        assert Parse.Persist(d, s, response).status == ParseFailed;
      } else {
        assert Parse.Persist(d, s, response).status == Completed;
      }
    }
  }

  lemma PersistEffect(w: World, r: RunId, s: Parse.Snapshot, content: Bytes, response: Parse.Response)
    ensures var v := PersistStep(w, r, s, content, response);
            && v.doc == Parse.Persist(w.doc, s, response)
            && Moved(w.doc, v.doc, {Parsing}, {ParseFailed, Completed})
            && SameScanPart(w, v) && SamePromotionPart(w, v) && SameFiles(w, v) && v.used == w.used
            && v.log.original == w.log.original
            && v.parses == w.parses - {r}
            && v.log.parsed == (if v.doc.status == Completed && w.doc.status != Completed then Some(content)
                                else w.log.parsed)
            && v.log.answers == w.log.answers
  {
    PersistMoves(w.doc, s, response);
  }
}
