/**
 * One malware and content-policy scan attempt, with what a pass hands on to, and the re-arming step
 * that bounds retries.
 */
module MalwareScan {
  import opened Basics
  import opened IngestionState
  import CleanPromotion

  datatype ScanOutcome =
    | ClamClean | ClamFound | ClamError | ClamUnavailable | ClamTimeout | ClamProtocolError | ClamSizeLimit

  datatype PolicyResult = PolicyPassed | PdfInspectionFailed | PolicyViolation(code: string)

  /** `VERSION` reply; the timestamp is missing when it could not be parsed. */
  datatype VersionInfo = VersionInfo(signatureTime: Option<int>)

  /** An unexpected exception, before or after the commit that ends the attempt. */
  datatype Raise = Never | BeforeDecision | AfterDecision

  /**
   * What `enqueue_promotion_job` does with a passed document: a worker will promote it, the job cannot
   * be queued, or, without a queue, it is promoted on the spot.
   */
  datatype Handoff = Queued | QueueFailed | Inline(newId: Uuid, faults: CleanPromotion.Faults)

  /** Everything one attempt learns from outside: the file, the daemon, the inspector, an exception, the queue. */
  datatype Observation = Observation(
    file: Option<Bytes>,
    now: int,
    version: Option<VersionInfo>,
    outcome: ScanOutcome,
    policy: PolicyResult,
    raises: Raise,
    handoff: Handoff)

  datatype ScanSettings = ScanSettings(hash: Bytes -> Digest, maxAttempts: nat, maxSignatureAge: int)
  const FAILURE_SUMMARY :=
    "The document could not be scanned. It will be automatically retried or an operator will review it."
  const MALWARE_SUMMARY := "The document was rejected because it failed a malware scan."
  const POLICY_SUMMARY := "The document was rejected because it did not pass content-safety checks."

  function OutcomeReason(o: ScanOutcome): string
    requires !o.ClamClean? && !o.ClamFound?
  {
    match o
    case ClamUnavailable => "SCANNER_UNAVAILABLE"
    case ClamTimeout => "SCANNER_TIMEOUT"
    case ClamSizeLimit => "SCAN_SIZE_LIMIT_EXCEEDED"
    case _ => "SCANNER_PROTOCOL_ERROR"
  }

  predicate SignatureStale(now: int, v: VersionInfo, maxAge: int) {
    v.signatureTime.None? || now - v.signatureTime.value > maxAge
  }

  datatype Verdict =
    | Infected
    | PolicyRefused(code: string)
    | Passed
    | Failed(code: string, policyFailed: bool)

  predicate FileIntact(cfg: ScanSettings, d: Doc, file: Option<Bytes>) {
    file.Some? && d.source.digest.Some? && cfg.hash(file.value) == d.source.digest.value
  }

  function PolicyVerdict(t: ContentType, policy: PolicyResult): Verdict {
    if t.Undetected? then Failed("UNSUPPORTED_CONTENT_TYPE", false)
    else if policy.PolicyPassed? then Passed
    else if policy.PdfInspectionFailed? then
      if t.Pdf? then Failed("PDF_INSPECTION_FAILED", true) else PolicyRefused("PDF_INSPECTION_FAILED")
    else PolicyRefused(policy.code)
  }

  /** The branches of `run_scan`, `_run_scan_body` and `_run_content_policy`, in their order. */
  function Judge(cfg: ScanSettings, d: Doc, o: Observation): Verdict {
    if !FileIntact(cfg, d, o.file) then Failed("QUARANTINE_INTEGRITY_MISMATCH", false)
    else if o.raises.BeforeDecision? then Failed("SCAN_SYSTEM_ERROR", false)
    else if o.version.None? then Failed("SCANNER_UNAVAILABLE", false)
    else if SignatureStale(o.now, o.version.value, cfg.maxSignatureAge) then Failed("SIGNATURE_DATABASE_STALE", false)
    else if o.outcome.ClamFound? then Infected
    else if !o.outcome.ClamClean? then Failed(OutcomeReason(o.outcome), false)
    else PolicyVerdict(d.source.contentType, o.policy)
  }

  /**
   * An exception leaves `run_scan`: before the decision only from the part after the integrity check,
   * and then the document is failed first; after it the decision stands.
   */
  predicate Escapes(cfg: ScanSettings, d: Doc, o: Observation) {
    o.raises.AfterDecision? || (o.raises.BeforeDecision? && FileIntact(cfg, d, o.file))
  }

  /** The first commit of an attempt. */
  function BeginScan(d: Doc): Doc {
    d.(scan := d.scan.(snapshot := d.source.digest, count := d.scan.count + 1))
  }

  function StatusFor(v: Verdict): Status {
    match v
    case Infected => RejectedMalware
    case PolicyRefused(_) => RejectedContentPolicy
    case Passed => CleanPendingPromotion
    case Failed(_, _) => ScanFailed
  }

  function ReasonFor(v: Verdict): Option<string> {
    match v
    case Infected => Some("MALWARE_DETECTED")
    case PolicyRefused(code) => Some(code)
    case Passed => None
    case Failed(code, _) => Some(code)
  }

  function SummaryFor(v: Verdict): Option<string> {
    match v
    case Infected => Some(MALWARE_SUMMARY)
    case PolicyRefused(_) => Some(POLICY_SUMMARY)
    case Passed => None
    case Failed(_, _) => Some(FAILURE_SUMMARY)
  }

  function ColumnsFor(s: ScanColumns, v: Verdict): ScanColumns {
    match v
    case Infected => s.(status := Some("FOUND"))
    case PolicyRefused(_) => s.(status := Some("CLEAN"), policy := Some("REJECTED"))
    case Passed => s.(status := Some("CLEAN"), policy := Some("PASSED"))
    case Failed(code, policyFailed) => s.(status := Some(code),
                                          policy := if policyFailed then Some("FAILED") else s.policy)
  }

  /** The last commit of an attempt, out of SCANNING. */
  function FinishScan(d: Doc, v: Verdict): Doc
    requires d.status == Scanning
  {
    Move(d.(scan := ColumnsFor(d.scan, v)), StatusFor(v), ReasonFor(v), SummaryFor(v)).value
  }

  /** One attempt, up to its own last commit. */
  function Attempt(cfg: ScanSettings, d: Doc, o: Observation): Doc {
    if d.status != Scanning then d
    else FinishScan(BeginScan(d), Judge(cfg, BeginScan(d), o))
  }

  /** `prepare_scan_attempt`: `None` when the caller must not scan. */
  function Rearm(cfg: ScanSettings, d: Doc): Option<Doc> {
    if d.status != ScanFailed then Some(d)
    else if d.scan.count >= cfg.maxAttempts then None
    else Move(d, Scanning, None, None)
  }

  /** `_handle_scan_enqueue_failure`, which charges an attempt too. */
  function EnqueueFailed(d: Doc): Doc {
    if d.status != Scanning then d
    else Move(d.(scan := d.scan.(count := d.scan.count + 1, status := Some("SCAN_ENQUEUE_FAILED"))),
              ScanFailed, Some("SCAN_ENQUEUE_FAILED"), Some(FAILURE_SUMMARY)).value
  }

  /** Clearing a document for promotion takes every check at once; dropping any one of them blocks it. */
  lemma PassesExactlyWhenEveryCheckPasses(cfg: ScanSettings, d: Doc, o: Observation)
    requires d.status == Scanning
    ensures Attempt(cfg, d, o).status == CleanPendingPromotion <==>
            && o.file.Some? && d.source.digest == Some(cfg.hash(o.file.value))
            && !o.raises.BeforeDecision?
            && o.version.Some? && o.version.value.signatureTime.Some?
            && o.now <= o.version.value.signatureTime.value + cfg.maxSignatureAge
            && o.outcome == ClamClean
            && d.source.contentType != Undetected
            && o.policy == PolicyPassed
  {
    var v := Judge(cfg, BeginScan(d), o);
    assert Attempt(cfg, d, o).status == CleanPendingPromotion <==> v == Passed;
  }

  // What each observation comes to.

  /** What a document must get past to be judged at all, in the order it is met. */
  function Hurdles(cfg: ScanSettings, d: Doc, o: Observation): seq<Hurdle<string>> {
    [ Hurdle(o.file.Some? && d.source.digest == Some(cfg.hash(o.file.value)), "QUARANTINE_INTEGRITY_MISMATCH"),
      Hurdle(o.raises != BeforeDecision, "SCAN_SYSTEM_ERROR"),
      Hurdle(o.version.Some?, "SCANNER_UNAVAILABLE"),
      Hurdle(o.version.Some? && o.version.value.signatureTime.Some?
             && o.now <= o.version.value.signatureTime.value + cfg.maxSignatureAge, "SIGNATURE_DATABASE_STALE"),
      Hurdle(o.outcome != ClamUnavailable, "SCANNER_UNAVAILABLE"),
      Hurdle(o.outcome != ClamTimeout, "SCANNER_TIMEOUT"),
      Hurdle(o.outcome != ClamSizeLimit, "SCAN_SIZE_LIMIT_EXCEEDED"),
      Hurdle(o.outcome != ClamError && o.outcome != ClamProtocolError, "SCANNER_PROTOCOL_ERROR"),
      Hurdle(o.outcome == ClamFound || d.source.contentType != Undetected, "UNSUPPORTED_CONTENT_TYPE"),
      Hurdle(o.outcome == ClamFound || d.source.contentType != Pdf || o.policy != PdfInspectionFailed,
             "PDF_INSPECTION_FAILED")]
  }

  /** The file is the uploaded one, the signatures are fresh, and the daemon names a finding. */
  predicate FindsMalware(cfg: ScanSettings, d: Doc, o: Observation) {
    && o.file.Some? && d.source.digest == Some(cfg.hash(o.file.value)) && o.raises != BeforeDecision
    && o.version.Some? && o.version.value.signatureTime.Some?
    && o.now <= o.version.value.signatureTime.value + cfg.maxSignatureAge
    && o.outcome == ClamFound
  }

  /** The same with a clean answer, of a file whose inspection found against it; on a DOCX a failed one does. */
  predicate FindsViolation(cfg: ScanSettings, d: Doc, o: Observation) {
    && FindsMalware(cfg, d, o.(outcome := ClamFound)) && o.outcome == ClamClean
    && ((o.policy.PolicyViolation? && d.source.contentType != Undetected)
        || (o.policy == PdfInspectionFailed && d.source.contentType == Docx))
  }

  /** The attempt as it stands on the row, charged and with its one audit row. */
  ghost predicate EndsAs(d: Doc, e: Doc, status: Status, code: string, summary: string) {
    && e.status == status && e.reason == Some(code) && e.summary == Some(summary)
    && e.audit == d.audit + [AuditEvent(Scanning, status, Some(code))]
    && e.scan.count == d.scan.count + 1 && e.scan.snapshot == d.source.digest
    && e.source == d.source && e.promotion == d.promotion && e.parse == d.parse && e.pages == d.pages
  }

  lemma MalwareOnTheRow(cfg: ScanSettings, d: Doc, o: Observation)
    requires d.status == Scanning && FindsMalware(cfg, d, o)
    ensures EndsAs(d, Attempt(cfg, d, o), RejectedMalware, "MALWARE_DETECTED", MALWARE_SUMMARY)
    ensures Attempt(cfg, d, o).scan.status == Some("FOUND") && Attempt(cfg, d, o).scan.policy == d.scan.policy
  {
    assert Judge(cfg, BeginScan(d), o) == Infected;
  }

  lemma ViolationOnTheRow(cfg: ScanSettings, d: Doc, o: Observation)
    requires d.status == Scanning && FindsViolation(cfg, d, o)
    ensures var code := if o.policy.PolicyViolation? then o.policy.code else "PDF_INSPECTION_FAILED";
            EndsAs(d, Attempt(cfg, d, o), RejectedContentPolicy, code, POLICY_SUMMARY)
    ensures Attempt(cfg, d, o).scan.status == Some("CLEAN") && Attempt(cfg, d, o).scan.policy == Some("REJECTED")
  {
    assert Judge(cfg, BeginScan(d), o).PolicyRefused?;
  }

  lemma FailureOnTheRow(cfg: ScanSettings, d: Doc, o: Observation, k: nat)
    requires d.status == Scanning && FirstMissed(Hurdles(cfg, d, o), k)
    ensures var code := Hurdles(cfg, d, o)[k].code;
            && EndsAs(d, Attempt(cfg, d, o), ScanFailed, code, FAILURE_SUMMARY)
            && Attempt(cfg, d, o).scan.status == Some(code)
            && Attempt(cfg, d, o).scan.policy == (if k == 9 then Some("FAILED") else d.scan.policy)
  {
    var hurdles := Hurdles(cfg, d, o);
    assert (k > 0 ==> hurdles[0].cleared) && (k > 1 ==> hurdles[1].cleared) && (k > 2 ==> hurdles[2].cleared);
    assert (k > 3 ==> hurdles[3].cleared) && (k > 4 ==> hurdles[4].cleared) && (k > 5 ==> hurdles[5].cleared);
    assert (k > 6 ==> hurdles[6].cleared) && (k > 7 ==> hurdles[7].cleared) && (k > 8 ==> hurdles[8].cleared);
    var v := Judge(cfg, BeginScan(d), o);
    assert v == Failed(hurdles[k].code, k == 9);
  }

  /** Getting past everything, a document is passed or rejected. */
  lemma ClearedIsDecided(cfg: ScanSettings, d: Doc, o: Observation)
    requires d.status == Scanning && AllCleared(Hurdles(cfg, d, o))
    ensures FindsMalware(cfg, d, o) || FindsViolation(cfg, d, o) || Attempt(cfg, d, o).status == CleanPendingPromotion
  {
    var h := Hurdles(cfg, d, o);
    assert h[0].cleared && h[1].cleared && h[2].cleared && h[3].cleared && h[4].cleared;
    assert h[5].cleared && h[6].cleared && h[7].cleared && h[8].cleared && h[9].cleared;
    if o.policy == PolicyPassed && o.outcome == ClamClean {
      PassesExactlyWhenEveryCheckPasses(cfg, d, o);
    }
  }

  lemma FindingsClear(cfg: ScanSettings, d: Doc, o: Observation)
    ensures FindsMalware(cfg, d, o) || FindsViolation(cfg, d, o) ==> AllCleared(Hurdles(cfg, d, o))
  {
  }

  /**
   * What one attempt does with a document, from the observation alone: rejected for malware exactly on a
   * finding, for its content exactly on a violation, and otherwise failed exactly if it missed a hurdle,
   * under the code of the first.
   */
  lemma DecidesExactly(cfg: ScanSettings, d: Doc, o: Observation)
    requires d.status == Scanning
    ensures var e := Attempt(cfg, d, o);
            && (e.status == RejectedMalware <==> FindsMalware(cfg, d, o))
            && (e.status == RejectedContentPolicy <==> FindsViolation(cfg, d, o))
            && (e.status == ScanFailed <==> !AllCleared(Hurdles(cfg, d, o)))
  {
    if !AllCleared(Hurdles(cfg, d, o)) {
      var k := SomeIsFirstMissed(Hurdles(cfg, d, o));
      FindingsClear(cfg, d, o);
      FailureOnTheRow(cfg, d, o, k);
    } else if FindsMalware(cfg, d, o) {
      MalwareOnTheRow(cfg, d, o);
    } else if FindsViolation(cfg, d, o) {
      ViolationOnTheRow(cfg, d, o);
    } else {
      ClearedIsDecided(cfg, d, o);
    }
  }

  // What follows the decision.

  /** The row and both stores after an attempt, and whether it raised. */
  datatype Scanned = Scanned(doc: Doc, files: CleanPromotion.Files, source: Option<Bytes>, raised: bool)

  /** `_handle_promotion_enqueue_failure`, for a document nobody has touched since. */
  function PromotionEnqueueFailed(d: Doc): Doc
    requires d.status == CleanPendingPromotion
  {
    CleanPromotion.RecordFailure(Move(d, Promoting, Some("PROMOTION_QUEUE_FAILED"), None).value,
                                 "PROMOTION_QUEUE_FAILED", "Clean storage promotion failed to queue.")
  }

  /** Promotion errors are swallowed; any other exception goes on to the caller. */
  function HandOff(cfg: ScanSettings, d: Doc, files: CleanPromotion.Files, source: Option<Bytes>, h: Handoff): Scanned
    requires d.status == CleanPendingPromotion
  {
    match h
    case Queued => Scanned(d, files, source, false)
    case QueueFailed => Scanned(PromotionEnqueueFailed(d), files, source, false)
    case Inline(newId, faults) =>
      var p := CleanPromotion.Promote(cfg.hash, d, files, source, true, newId, faults);
      Scanned(p.doc, p.files, p.source, p.result == Err(CleanPromotion.OS_ERROR))
  }

  /** The last commit of the attempt and what comes after it. */
  function Conclude(cfg: ScanSettings, d: Doc, v: Verdict, files: CleanPromotion.Files, source: Option<Bytes>,
                    o: Observation): Scanned
    requires d.status == Scanning
  {
    var after := FinishScan(d, v);
    if o.raises.AfterDecision? then Scanned(after, files, source, true)
    else if v.Passed? then HandOff(cfg, after, files, source, o.handoff)
    else Scanned(after, files, source, false)
  }

  /** `run_scan` from start to end. */
  function ScanAndHandOff(cfg: ScanSettings, d: Doc, files: CleanPromotion.Files, source: Option<Bytes>,
                          o: Observation): Scanned {
    if d.status != Scanning then Scanned(d, files, source, false)
    else
      var begun := BeginScan(d);
      var v := Judge(cfg, begun, o);
      if o.raises.BeforeDecision? && FileIntact(cfg, d, o.file) then Scanned(FinishScan(begun, v), files, source, true)
      else Conclude(cfg, begun, v, files, source, o)
  }

  method RunScan(cfg: ScanSettings, row: DocumentRow, store: CleanPromotion.CleanStore,
                 quarantine: CleanPromotion.Quarantine, o: Observation) returns (raised: bool)
    modifies row, store, quarantine
    ensures Scanned(row.Row(), store.files, quarantine.file, raised)
            == ScanAndHandOff(cfg, old(row.Row()), old(store.files), old(quarantine.file), o)
  {
    if row.status != Scanning {
      return false;
    }
    row.scan := row.scan.(snapshot := row.source.digest);
    row.scan := row.scan.(count := row.scan.count + 1);
    ghost var begun := row.Row();
    assert begun == BeginScan(old(row.Row()));
    if o.file.None? || row.source.digest.None? || cfg.hash(o.file.value) != row.source.digest.value {
      FailScan(row, "QUARANTINE_INTEGRITY_MISMATCH");
      return o.raises.AfterDecision?;
    }
    if o.raises.BeforeDecision? {
      FailScan(row, "SCAN_SYSTEM_ERROR");
      return true;
    }
    raised := RunScanBody(cfg, row, store, quarantine, o);
  }

  method FailScan(row: DocumentRow, code: string)
    requires row.status == Scanning
    modifies row
    ensures row.Row() == FinishScan(old(row.Row()), Failed(code, false))
  {
    row.scan := row.scan.(status := Some(code));
    var _ := row.Transition(ScanFailed, Some(code), Some(FAILURE_SUMMARY));
  }

  method RunScanBody(cfg: ScanSettings, row: DocumentRow, store: CleanPromotion.CleanStore,
                     quarantine: CleanPromotion.Quarantine, o: Observation) returns (raised: bool)
    requires row.status == Scanning
    requires FileIntact(cfg, row.Row(), o.file) && !o.raises.BeforeDecision?
    modifies row, store, quarantine
    ensures Scanned(row.Row(), store.files, quarantine.file, raised)
            == Conclude(cfg, old(row.Row()), Judge(cfg, old(row.Row()), o), old(store.files), old(quarantine.file), o)
  {
    if o.version.None? {
      FailScan(row, "SCANNER_UNAVAILABLE");
      return o.raises.AfterDecision?;
    }
    if SignatureStale(o.now, o.version.value, cfg.maxSignatureAge) {
      FailScan(row, "SIGNATURE_DATABASE_STALE");
      return o.raises.AfterDecision?;
    }
    if o.outcome.ClamFound? {
      RejectMalware(row);
      return o.raises.AfterDecision?;
    }
    if !o.outcome.ClamClean? {
      FailScan(row, OutcomeReason(o.outcome));
      return o.raises.AfterDecision?;
    }
    raised := RunContentPolicy(cfg, row, store, quarantine, o);
  }

  method RejectMalware(row: DocumentRow)
    requires row.status == Scanning
    modifies row
    ensures row.Row() == FinishScan(old(row.Row()), Infected)
  {
    row.scan := row.scan.(status := Some("FOUND"));
    var _ := row.Transition(RejectedMalware, Some("MALWARE_DETECTED"), Some(MALWARE_SUMMARY));
  }

  method RunContentPolicy(cfg: ScanSettings, row: DocumentRow, store: CleanPromotion.CleanStore,
                          quarantine: CleanPromotion.Quarantine, o: Observation) returns (raised: bool)
    requires row.status == Scanning
    modifies row, store, quarantine
    ensures Scanned(row.Row(), store.files, quarantine.file, raised)
            == Conclude(cfg, old(row.Row()), PolicyVerdict(old(row.source.contentType), o.policy),
                        old(store.files), old(quarantine.file), o)
  {
    ApplyPolicy(row, o.policy);
    if o.raises.AfterDecision? {
      return true;
    }
    if row.status == CleanPendingPromotion {
      raised := EnqueuePromotionJob(cfg, row, store, quarantine, o.handoff);
    } else {
      raised := false;
    }
  }

  /** The commit of the policy decision, with the clean scan result that led to it. */
  method ApplyPolicy(row: DocumentRow, policy: PolicyResult)
    requires row.status == Scanning
    modifies row
    ensures row.Row() == FinishScan(old(row.Row()), PolicyVerdict(old(row.source.contentType), policy))
    ensures row.status == CleanPendingPromotion <==> PolicyVerdict(old(row.source.contentType), policy).Passed?
  {
    if row.source.contentType.Undetected? {
      FailScan(row, "UNSUPPORTED_CONTENT_TYPE");
      return;
    }
    row.scan := row.scan.(status := Some("CLEAN"));
    if policy.PolicyPassed? {
      row.scan := row.scan.(policy := Some("PASSED"));
      var _ := row.Transition(CleanPendingPromotion, None, None);
      return;
    }
    if policy.PdfInspectionFailed? && row.source.contentType.Pdf? {
      row.scan := row.scan.(policy := Some("FAILED"));
      FailScan(row, "PDF_INSPECTION_FAILED");
      return;
    }
    row.scan := row.scan.(policy := Some("REJECTED"));
    var code := if policy.PdfInspectionFailed? then "PDF_INSPECTION_FAILED" else policy.code;
    var _ := row.Transition(RejectedContentPolicy, Some(code), Some(POLICY_SUMMARY));
  }

  method EnqueuePromotionJob(cfg: ScanSettings, row: DocumentRow, store: CleanPromotion.CleanStore,
                             quarantine: CleanPromotion.Quarantine, h: Handoff) returns (raised: bool)
    requires row.status == CleanPendingPromotion
    modifies row, store, quarantine
    ensures Scanned(row.Row(), store.files, quarantine.file, raised)
            == HandOff(cfg, old(row.Row()), old(store.files), old(quarantine.file), h)
  {
    match h
    case Queued => return false;
    case QueueFailed =>
      HandlePromotionEnqueueFailure(row);
      return false;
    case Inline(newId, faults) =>
      var result := CleanPromotion.PromoteDocument(cfg.hash, row, store, quarantine, true, newId, faults);
      return result == Err(CleanPromotion.OS_ERROR);
  }

  method HandlePromotionEnqueueFailure(row: DocumentRow)
    requires row.status == CleanPendingPromotion
    modifies row
    ensures row.Row() == PromotionEnqueueFailed(old(row.Row()))
  {
    var _ := row.Transition(Promoting, Some("PROMOTION_QUEUE_FAILED"), None);
    var _ := row.Transition(PromotionFailed, Some("PROMOTION_QUEUE_FAILED"),
                            Some("Clean storage promotion failed to queue."));
  }

  method PrepareScanAttempt(cfg: ScanSettings, row: DocumentRow) returns (proceed: bool)
    modifies row
    ensures proceed == Rearm(cfg, old(row.Row())).Some?
    ensures row.Row() == if proceed then Rearm(cfg, old(row.Row())).value else old(row.Row())
  {
    if row.status == ScanFailed {
      if row.scan.count >= cfg.maxAttempts {
        return false;
      }
      var _ := row.Transition(Scanning, None, None);
    }
    return true;
  }

  lemma AttemptSettles(cfg: ScanSettings, d: Doc, o: Observation)
    requires d.status == Scanning
    ensures Attempt(cfg, d, o).status in {ScanFailed, RejectedMalware, RejectedContentPolicy, CleanPendingPromotion}
    ensures Attempt(cfg, d, o).scan.count == d.scan.count + 1
    ensures Attempt(cfg, d, o).status == ScanFailed <==> Judge(cfg, d, o).Failed?
    ensures Attempt(cfg, d, o).source == d.source
  {
    SameVerdict(cfg, d, BeginScan(d), o);
    var v := Judge(cfg, d, o);
    assert v.Infected? || v.PolicyRefused? || v.Passed? || v.Failed?;
  }

  /** An exception before the decision fails the attempt; `run_scan` is its own commit and then the hand-off. */
  lemma AttemptThenHandOff(cfg: ScanSettings, d: Doc, files: CleanPromotion.Files, source: Option<Bytes>,
                           o: Observation)
    requires d.status == Scanning
    ensures var after := Attempt(cfg, d, o);
            && (Escapes(cfg, d, o) && o.raises.BeforeDecision? ==> after.status == ScanFailed)
            && ScanAndHandOff(cfg, d, files, source, o) ==
               if Escapes(cfg, d, o) then Scanned(after, files, source, true)
               else if after.status == CleanPendingPromotion then HandOff(cfg, after, files, source, o.handoff)
               else Scanned(after, files, source, false)
  {
    AttemptSettles(cfg, d, o);
    SameVerdict(cfg, d, BeginScan(d), o);
  }

  /** A pass on the row: the digest that was scanned, the two results, one audit row, and nothing else. */
  lemma PassOnTheRow(cfg: ScanSettings, d: Doc, o: Observation)
    requires d.status == Scanning && Attempt(cfg, d, o).status == CleanPendingPromotion
    ensures Attempt(cfg, d, o) == d.(status := CleanPendingPromotion,
                                     scan := ScanColumns(d.scan.count + 1, d.source.digest, Some("CLEAN"),
                                                         Some("PASSED")),
                                     audit := d.audit + [AuditEvent(Scanning, CleanPendingPromotion, None)])
  {
    AttemptSettles(cfg, d, o);
    assert Judge(cfg, BeginScan(d), o) == Passed;
  }

  /** Apart from a pass, an attempt is over with its own last commit. */
  lemma OnlyAPassIsHandedOn(cfg: ScanSettings, d: Doc, files: CleanPromotion.Files, source: Option<Bytes>,
                            o: Observation)
    requires d.status == Scanning
    ensures var r, e := ScanAndHandOff(cfg, d, files, source, o), Attempt(cfg, d, o);
            && (e.status != CleanPendingPromotion ==>
                  r == Scanned(e, files, source, o.raises.AfterDecision?
                                                 || (o.raises.BeforeDecision? && Hurdles(cfg, d, o)[0].cleared)))
            && (e.status == CleanPendingPromotion ==>
                  r.doc.status in {CleanPendingPromotion, Promoting, PromotionFailed, Clean})
  {
    AttemptThenHandOff(cfg, d, files, source, o);
    if Attempt(cfg, d, o).status == CleanPendingPromotion {
      HandOffSettles(cfg, Attempt(cfg, d, o), files, source, o.handoff);
    }
  }

  lemma TheRowAfterADecision(cfg: ScanSettings, d: Doc, o: Observation)
    requires d.status == Scanning
    ensures var e := Attempt(cfg, d, o);
            && (FindsMalware(cfg, d, o) ==> EndsAs(d, e, RejectedMalware, "MALWARE_DETECTED", MALWARE_SUMMARY))
            && (FindsViolation(cfg, d, o) ==>
                  EndsAs(d, e, RejectedContentPolicy,
                         if o.policy.PolicyViolation? then o.policy.code else "PDF_INSPECTION_FAILED", POLICY_SUMMARY))
            && (forall k: nat :: FirstMissed(Hurdles(cfg, d, o), k) ==>
                  EndsAs(d, e, ScanFailed, Hurdles(cfg, d, o)[k].code, FAILURE_SUMMARY))
  {
    if FindsMalware(cfg, d, o) {
      MalwareOnTheRow(cfg, d, o);
    }
    if FindsViolation(cfg, d, o) {
      ViolationOnTheRow(cfg, d, o);
    }
    forall k: nat | FirstMissed(Hurdles(cfg, d, o), k)
      ensures EndsAs(d, Attempt(cfg, d, o), ScanFailed, Hurdles(cfg, d, o)[k].code, FAILURE_SUMMARY)
    {
      FailureOnTheRow(cfg, d, o, k);
    }
  }

  /**
   * `run_scan` from the observation alone: a document in SCANNING is rejected as malware exactly on a
   * finding and for its content exactly on a violation, and fails exactly if it missed a hurdle; each
   * time with the row, the stores and the exception that go with it. Any other document is left alone.
   */
  lemma AScanEndsAsObserved(cfg: ScanSettings, d: Doc, files: CleanPromotion.Files, source: Option<Bytes>,
                            o: Observation)
    ensures var r := ScanAndHandOff(cfg, d, files, source, o);
            if d.status != Scanning then r == Scanned(d, files, source, false)
            else
              && (r.doc.status == RejectedMalware <==> FindsMalware(cfg, d, o))
              && (FindsMalware(cfg, d, o) ==>
                    EndsAs(d, r.doc, RejectedMalware, "MALWARE_DETECTED", MALWARE_SUMMARY))
              && (r.doc.status == RejectedContentPolicy <==> FindsViolation(cfg, d, o))
              && (FindsViolation(cfg, d, o) ==>
                    EndsAs(d, r.doc, RejectedContentPolicy,
                           if o.policy.PolicyViolation? then o.policy.code else "PDF_INSPECTION_FAILED",
                           POLICY_SUMMARY))
              && (r.doc.status == ScanFailed <==> !AllCleared(Hurdles(cfg, d, o)))
              && (forall k: nat :: FirstMissed(Hurdles(cfg, d, o), k) ==>
                    EndsAs(d, r.doc, ScanFailed, Hurdles(cfg, d, o)[k].code, FAILURE_SUMMARY))
              && (r.doc.status in {RejectedMalware, RejectedContentPolicy, ScanFailed} ==>
                    && r.files == files && r.source == source
                    && (r.raised <==> o.raises.AfterDecision?
                                      || (o.raises.BeforeDecision? && Hurdles(cfg, d, o)[0].cleared)))
  {
    if d.status == Scanning {
      DecidesExactly(cfg, d, o);
      TheRowAfterADecision(cfg, d, o);
      OnlyAPassIsHandedOn(cfg, d, files, source, o);
      AttemptSettles(cfg, d, o);
    }
  }

  lemma PromotionKeepsScan(hash: Bytes -> Digest, d: Doc, files: CleanPromotion.Files, source: Option<Bytes>,
                           newId: Uuid, faults: CleanPromotion.Faults)
    ensures CleanPromotion.Promote(hash, d, files, source, true, newId, faults).doc.scan == d.scan
  {
  }

  lemma InlineSettles(cfg: ScanSettings, d: Doc, files: CleanPromotion.Files, source: Option<Bytes>, newId: Uuid,
                      faults: CleanPromotion.Faults)
    requires d.status == CleanPendingPromotion
    ensures var p := CleanPromotion.Promote(cfg.hash, d, files, source, true, newId, faults);
            && (p.doc.status == CleanPendingPromotion <==> d.source.digest.None? || d.source.size.None?)
            && p.doc.status in {CleanPendingPromotion, Promoting, PromotionFailed, Clean}
            && (p.result == Err(CleanPromotion.OS_ERROR) <==> p.doc.status == Promoting)
            && (p.doc.status == Promoting <==>
                  && d.source.digest.Some? && d.source.size.Some? && p.result.Err? && (faults.root || faults.look))
  {
    if CleanPromotion.Admissible(d, true) {
      CleanPromotion.PromotionIsAllOrNothing(cfg.hash, d, files, source, true, newId, faults);
    }
  }

  /** Whatever the hand-off does, the scan is over: nothing leads back to SCAN_FAILED. */
  lemma HandOffSettles(cfg: ScanSettings, d: Doc, files: CleanPromotion.Files, source: Option<Bytes>, h: Handoff)
    requires d.status == CleanPendingPromotion
    ensures var r := HandOff(cfg, d, files, source, h);
            && r.doc.status in {CleanPendingPromotion, Promoting, PromotionFailed, Clean} && r.doc.scan == d.scan
            && (r.doc.status == CleanPendingPromotion <==>
                  h.Queued? || (h.Inline? && (d.source.digest.None? || d.source.size.None?)))
            && (h.Queued? ==> r == Scanned(d, files, source, false))
            && (h.QueueFailed? ==>
                  && r.doc.status == PromotionFailed && r.doc.reason == Some("PROMOTION_QUEUE_FAILED")
                  && r.doc.promotion == d.promotion && r.files == files && r.source == source)
            && (r.raised <==> h.Inline? && r.doc.status == Promoting)
            && (r.doc.status == Promoting ==> h.Inline? && (h.faults.root || h.faults.look))
  {
    match h
    case Queued =>
    case QueueFailed => assert PromotionEnqueueFailed(d).status == PromotionFailed;
    case Inline(newId, faults) =>
      InlineSettles(cfg, d, files, source, newId, faults);
      PromotionKeepsScan(cfg.hash, d, files, source, newId, faults);
  }

  /** Within the attempt, after its first commit, the decision is the same. */
  lemma DecidesExactlyWithin(cfg: ScanSettings, d: Doc, o: Observation)
    requires d.status == Scanning
    ensures var e := FinishScan(d, Judge(cfg, d, o));
            && (e.status == RejectedMalware <==> FindsMalware(cfg, d, o))
            && (e.status == RejectedContentPolicy <==> FindsViolation(cfg, d, o))
            && (e.status == ScanFailed <==> !AllCleared(Hurdles(cfg, d, o)))
  {
    DecidesExactly(cfg, d, o);
    SameVerdict(cfg, d, BeginScan(d), o);
  }

  /** A verdict depends only on the recorded digest and the detected type. */
  lemma SameVerdict(cfg: ScanSettings, d: Doc, e: Doc, o: Observation)
    requires d.source.digest == e.source.digest && d.source.contentType == e.source.contentType
    ensures Judge(cfg, d, o) == Judge(cfg, e, o) && Escapes(cfg, d, o) == Escapes(cfg, e, o)
  {
  }
}
