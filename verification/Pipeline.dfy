/**
 * One document under at-least-once delivery: workers scan, promote and parse it, any of them may
 * crash between two commits, and promotion and parse attempts may overlap. A step is one commit or
 * one file-system effect; every choice the program does not make is an argument of the step.
 */
module Pipeline {
  import opened Basics
  import opened IngestionState
  import Scan = MalwareScan
  import opened CleanPromotion
  import Parse = DocumentParsing

  type RunId = nat

  datatype Settings = Settings(scan: Scan.ScanSettings, parseCap: nat)

  /** Where a `promote_document` call stands. */
  datatype PromotionRun =
    | Entered
    | Resolved(id: Uuid)
    | Copying(id: Uuid, copied: Bytes)
    | Verified(id: Uuid, copied: Bytes)
    | InPlace(id: Uuid, content: Bytes)
    | Cleared
    | Unflagged
    | Aborting(id: Uuid, code: string)
    | Aborted(code: string)

  /** Where a parse attempt stands after phase A. */
  datatype ParseRun =
    | Reading(snapshot: Parse.Snapshot)
    | Sent(snapshot: Parse.Snapshot, content: Bytes)
    | Answered(snapshot: Parse.Snapshot, content: Bytes, response: Parse.Response)
    | Failing(snapshot: Parse.Snapshot, code: string)

  datatype Inode = Inode(linked: bool, content: Bytes)

  datatype ScanWorker = ScanWorker(active: bool, crashes: nat)

  /**
   * For the theorems only: what was uploaded, what each stage read, and what the service answered to
   * each parse attempt.
   */
  datatype Log = Log(
    original: Bytes,
    scanned: Option<Bytes>,
    promoted: Option<Bytes>,
    parsed: Option<Bytes>,
    answers: map<Uuid, seq<Parse.Unit>>)

  /**
   * The row, the two stores and the workers, with the log. The quarantine file keeps its bytes after
   * it is unlinked, for a copy that still has it open.
   */
  datatype World = World(
    doc: Doc,
    quarantine: Inode,
    files: Files,
    lock: Option<RunId>,
    used: set<Uuid>,
    scanner: ScanWorker,
    promotions: map<RunId, PromotionRun>,
    parses: map<RunId, ParseRun>,
    log: Log)

  datatype IntakeStep = Validate | RecordType(found: ContentType) | RejectType(code: string) | Admit

  datatype ScanStep = Arm | StartScan | EndScan(seen: Scan.Observation) | CrashScan | LoseScanJob

  /** What may go wrong before the copy: resolving the path of the source, looking for it. */
  datatype Trouble = NoTrouble | PathFails | SearchFails

  datatype CopyFault = ProbeFails | OpenFails | NotRegular | CreateFails | ReadOrWriteFails | FlushFails | RenameFails

  datatype PromoteStep =
    | Enter | Resolve(newId: Uuid, trouble: Trouble) | Open | CopyChunk | Verify | Rename | Fault(fault: CopyFault)
    | Cleanup(ok: bool) | RecordAbort | Commit | Unlink(ok: bool) | Flag | Raise | Crash

  datatype RecoverStep = MarkPromoting | MarkFailed

  datatype ParseStep =
    | Begin(token: Uuid) | ReadClean | Respond(response: Parse.Response) | NoAnswer(code: string)
    | Persist | PersistFault | RecordFail | WriteFails | CrashParse

  datatype TamperStep = SetUpload(linked: bool, content: Bytes) | SetFile(name: Name, planted: Option<Bytes>)

  datatype Step =
    | Intake(intake: IntakeStep)
    | Scanner(scan: ScanStep)
    | Promoter(run: RunId, promote: PromoteStep)
    | Recover(recover: RecoverStep)
    | Parser(parser: RunId, parse: ParseStep)
    | Tamper(tamper: TamperStep)

  /** `ingest_uploaded_document` up to the first commit of the row. */
  function Init(c: Settings, upload: Bytes): World {
    World(Doc(Quarantined, None, None,
              SourceColumns(InQuarantine, Some(c.scan.hash(upload)), Some(|upload|), Undetected),
              ScanColumns(0, None, None, None), PromotionColumns(0, None, false), ParseColumns(0, None, None), [], []),
          Inode(true, upload), map[], None, {}, ScanWorker(false, 0), map[], map[],
          Log(upload, None, None, None, map[]))
  }

  predicate Free(w: World, r: RunId) {
    w.lock.None? || w.lock == Some(r)
  }

  function Release(w: World, r: RunId): World {
    w.(promotions := w.promotions - {r}, lock := if w.lock == Some(r) then None else w.lock)
  }

  /** The row as a run sees it: the count an attempt entered from PROMOTING has not committed yet. */
  function Pending(w: World, r: RunId): Doc {
    if w.lock == Some(r) then CountAttempt(w.doc) else w.doc
  }

  predicate Intact(c: Settings, d: Doc, content: Bytes) {
    d.source.digest.Some? && d.source.size.Some?
    && Matches(c.scan.hash, content, d.source.digest.value, d.source.size.value)
  }

  function IntakeNext(w: World, s: IntakeStep): Option<World> {
    match s
    case Validate =>
      if w.doc.status != Quarantined then None
      else Some(w.(doc := Move(w.doc, Validating, None, None).value))
    case RecordType(found) =>
      if w.doc.status != Validating || found.Undetected? then None
      else Some(w.(doc := w.doc.(source := w.doc.source.(contentType := found))))
    case RejectType(code) =>
      if w.doc.status != Validating then None
      else Some(w.(doc := Move(w.doc, RejectedType, Some(code), Some("The document could not be accepted.")).value))
    case Admit =>
      if w.doc.status != Validating || w.doc.source.contentType.Undetected? then None
      else Some(w.(doc := Move(w.doc, Scanning, None, None).value))
  }

  function ScanNext(c: Settings, w: World, s: ScanStep): Option<World> {
    match s
    case Arm =>
      if w.doc.status != ScanFailed || Scan.Rearm(c.scan, w.doc).None? then None
      else Some(w.(doc := Scan.Rearm(c.scan, w.doc).value))
    case StartScan =>
      if w.scanner.active || w.doc.status != Scanning then None
      else Some(w.(doc := Scan.BeginScan(w.doc), scanner := w.scanner.(active := true)))
    case EndScan(seen) =>
      // What a pass hands on to is a promotion attempt of its own, or the recovery from a failed enqueue.
      if !w.scanner.active || w.doc.status != Scanning
         || seen.file != (if w.quarantine.linked then Some(w.quarantine.content) else None) then None
      else
        var verdict := Scan.Judge(c.scan, w.doc, seen);
        Some(w.(doc := Scan.FinishScan(w.doc, verdict), scanner := w.scanner.(active := false),
                log := if verdict.Passed? then w.log.(scanned := seen.file) else w.log))
    case CrashScan =>
      if !w.scanner.active then None else Some(w.(scanner := ScanWorker(false, w.scanner.crashes + 1)))
    case LoseScanJob =>
      if w.scanner.active || w.doc.status != Scanning then None
      else Some(w.(doc := Scan.EnqueueFailed(w.doc)))
  }

  function PromoteNext(c: Settings, w: World, r: RunId, s: PromoteStep): Option<World> {
    if s.Enter? then
      if r in w.promotions || w.lock.Some? || !Promotable(w.doc.status)
         || w.doc.source.digest.None? || w.doc.source.size.None? then None
      else if w.doc.status == Promoting then Some(w.(lock := Some(r), promotions := w.promotions[r := Entered]))
      else Some(w.(doc := CleanPromotion.Begin(w.doc), promotions := w.promotions[r := Entered]))
    else if r !in w.promotions then None
    else RunNext(c, w, r, w.promotions[r], s)
  }

  function At(w: World, r: RunId, run: PromotionRun): World {
    w.(promotions := w.promotions[r := run])
  }

  function Searched(w: World, id: Uuid, trouble: Trouble): PromotionRun {
    if w.doc.source.path.InCleanStorage? || trouble.PathFails? then Aborting(id, SOURCE_INVALID)
    else if trouble.SearchFails? then Aborting(id, COPY_FAILED)
    else if !w.quarantine.linked then Aborting(id, SOURCE_MISSING)
    else Resolved(id)
  }

  function ResolveStep(w: World, r: RunId, newId: Uuid, trouble: Trouble): World {
    At(w, r, Searched(w, NewIdentifier(w.doc, newId), trouble)).(used := w.used + {newId})
  }

  function OpenStep(c: Settings, w: World, r: RunId, id: Uuid): World {
    if Final(id) in w.files then
      At(w, r, if Intact(c, w.doc, w.files[Final(id)]) then InPlace(id, w.files[Final(id)])
               else Aborting(id, DESTINATION_CONFLICT))
    else if !w.quarantine.linked then At(w, r, Aborting(id, SOURCE_MISSING))
    else if w.doc.source.size != Some(|w.quarantine.content|) then At(w, r, Aborting(id, DIGEST_MISMATCH))
    else if Partial(id) in w.files then At(w, r, Aborting(id, COPY_FAILED))
    else At(w, r, Copying(id, [])).(files := w.files[Partial(id) := []])
  }

  function CopyStep(w: World, r: RunId, id: Uuid, copied: Bytes): World
    requires |copied| < |w.quarantine.content| && Partial(id) in w.files
  {
    var chunk := w.quarantine.content[|copied|..Min(|copied| + CHUNK_SIZE, |w.quarantine.content|)];
    At(w, r, Copying(id, copied + chunk)).(files := w.files[Partial(id) := w.files[Partial(id)] + chunk])
  }

  function VerifyStep(c: Settings, w: World, r: RunId, id: Uuid, copied: Bytes): World {
    At(w, r, if Intact(c, w.doc, copied) then Verified(id, copied) else Aborting(id, DIGEST_MISMATCH))
  }

  function RenameStep(w: World, r: RunId, id: Uuid, copied: Bytes): World
    requires Partial(id) in w.files
  {
    At(w, r, InPlace(id, copied)).(files := (w.files - {Partial(id)})[Final(id) := w.files[Partial(id)]])
  }

  function FaultCode(f: CopyFault): string {
    match f
    case OpenFails => SOURCE_MISSING
    case NotRegular => SOURCE_INVALID
    case FlushFails => FSYNC_FAILED
    case _ => COPY_FAILED
  }

  /** Where in the copy each call is made. */
  predicate MayFail(w: World, run: PromotionRun, f: CopyFault) {
    match f
    case ProbeFails => run.Resolved?
    case OpenFails => run.Resolved? && Final(run.id) !in w.files
    case NotRegular => run.Resolved? && Final(run.id) !in w.files && w.quarantine.linked
    case CreateFails =>
      && run.Resolved? && Final(run.id) !in w.files && w.quarantine.linked
      && w.doc.source.size == Some(|w.quarantine.content|)
    case ReadOrWriteFails => run.Copying?
    case FlushFails => run.Verified?
    case RenameFails => run.Verified?
  }

  function CleanupStep(w: World, r: RunId, id: Uuid, code: string, ok: bool): World {
    At(w, r, Aborted(code)).(files := if ok then w.files - {Partial(id)} else w.files)
  }

  function RecordAbortStep(w: World, r: RunId, code: string): World {
    Release(w.(doc := if w.doc.status == Promoting then RecordFailure(Pending(w, r), code, code) else w.doc), r)
  }

  function CommitStep(w: World, r: RunId, id: Uuid, content: Bytes): World {
    if w.doc.status != Promoting then Release(w, r)
    else At(Release(w, r), r, Cleared).(doc := RecordClean(Pending(w, r), id), log := w.log.(promoted := Some(content)))
  }

  function UnlinkStep(w: World, r: RunId, ok: bool): World {
    if ok && w.quarantine.linked then Release(w, r).(quarantine := w.quarantine.(linked := false))
    else At(w, r, Unflagged)
  }

  function FlagStep(w: World, r: RunId): World {
    Release(w, r).(doc := FlagCleanup(w.doc))
  }

  function RunNext(c: Settings, w: World, r: RunId, run: PromotionRun, s: PromoteStep): Option<World> {
    match s
    case Enter => None
    case Resolve(newId, trouble) =>
      if !run.Entered? || newId in w.used then None else Some(ResolveStep(w, r, newId, trouble))
    case Open =>
      if !run.Resolved? then None else Some(OpenStep(c, w, r, run.id))
    case CopyChunk =>
      if !run.Copying? || |run.copied| >= |w.quarantine.content| || Partial(run.id) !in w.files then None
      else Some(CopyStep(w, r, run.id, run.copied))
    case Verify =>
      if !run.Copying? || |run.copied| < |w.quarantine.content| then None
      else Some(VerifyStep(c, w, r, run.id, run.copied))
    case Rename =>
      if !run.Verified? || Partial(run.id) !in w.files then None else Some(RenameStep(w, r, run.id, run.copied))
    case Fault(fault) =>
      if !MayFail(w, run, fault) then None else Some(At(w, r, Aborting(run.id, FaultCode(fault))))
    case Cleanup(ok) =>
      if !run.Aborting? then None else Some(CleanupStep(w, r, run.id, run.code, ok))
    case RecordAbort =>
      if !run.Aborted? || !Free(w, r) then None else Some(RecordAbortStep(w, r, run.code))
    case Commit =>
      if !run.InPlace? || !Free(w, r) then None else Some(CommitStep(w, r, run.id, run.content))
    case Unlink(ok) =>
      if !run.Cleared? then None else Some(UnlinkStep(w, r, ok))
    case Flag =>
      if !run.Unflagged? || !Free(w, r) then None else Some(FlagStep(w, r))
    case Raise =>
      // The storage root cannot be resolved, or the look for the partial file of a failed copy fails.
      if !run.Entered? && !run.Aborting? then None else Some(Release(w, r))
    case Crash => Some(Release(w, r))
  }

  /** `_handle_promotion_enqueue_failure`, commit by commit. */
  function RecoverNext(w: World, s: RecoverStep): Option<World> {
    if w.lock.Some? then None
    else
      match s
      case MarkPromoting =>
        if w.doc.status != CleanPendingPromotion then None
        else Some(w.(doc := Move(w.doc, Promoting, Some("PROMOTION_QUEUE_FAILED"), None).value))
      case MarkFailed =>
        if w.doc.status != Promoting then None
        else Some(w.(doc := RecordFailure(w.doc, "PROMOTION_QUEUE_FAILED", "Clean storage promotion failed to queue.")))
  }

  /** `_resolve_and_verify_clean_file`. */
  predicate CleanFileVerified(c: Settings, files: Files, s: Parse.Snapshot) {
    s.source.InCleanStorage? && Final(s.source.id) in files
    && Matches(c.scan.hash, files[Final(s.source.id)], s.digest, s.size)
  }

  ghost function ParseNext(c: Settings, w: World, r: RunId, s: ParseStep): Option<World> {
    if s.Begin? then
      if r in w.parses || s.token in w.used || w.lock.Some? || !Parse.Parsable(w.doc, c.parseCap) then None
      else
        var (doc, snapshot) := Parse.Prepare(w.doc, c.parseCap, s.token);
        Some(w.(doc := doc, used := w.used + {s.token}, parses := w.parses[r := Reading(snapshot.value)]))
    else if r !in w.parses then None
    else ParseRunNext(c, w, r, w.parses[r], s)
  }

  function AtParse(w: World, r: RunId, run: ParseRun): World {
    w.(parses := w.parses[r := run])
  }

  function ReadCleanStep(c: Settings, w: World, r: RunId, s: Parse.Snapshot): World {
    AtParse(w, r, if CleanFileVerified(c, w.files, s) then Sent(s, w.files[Final(s.source.id)])
                  else Failing(s, "PARSER_INPUT_CHANGED"))
  }

  ghost function RespondStep(w: World, r: RunId, s: Parse.Snapshot, content: Bytes, response: Parse.Response): World {
    AtParse(w, r, if Parse.Acceptable(response) then Answered(s, content, response)
                  else Failing(s, "PARSER_RESPONSE_INVALID"))
    .(log := w.log.(answers := w.log.answers[s.token := response.units]))
  }

  function PersistStep(w: World, r: RunId, s: Parse.Snapshot, content: Bytes, response: Parse.Response): World {
    var doc := Parse.Persist(w.doc, s, response);
    var completes := w.doc.status != Completed && doc.status == Completed;
    w.(doc := doc, parses := w.parses - {r},
       log := if completes then w.log.(parsed := Some(content)) else w.log)
  }

  function RecordFailStep(w: World, r: RunId, s: Parse.Snapshot, code: string): World {
    w.(doc := Parse.Fail(w.doc, s, code, code), parses := w.parses - {r})
  }

  ghost function ParseRunNext(c: Settings, w: World, r: RunId, run: ParseRun, s: ParseStep): Option<World> {
    match s
    case Begin(_) => None
    case ReadClean => if !run.Reading? then None else Some(ReadCleanStep(c, w, r, run.snapshot))
    case Respond(response) => if !run.Sent? then None else Some(RespondStep(w, r, run.snapshot, run.content, response))
    case NoAnswer(code) => if !run.Sent? then None else Some(AtParse(w, r, Failing(run.snapshot, code)))
    case PersistFault =>
      // An exception before anything is written; the session it was raised in still records it.
      if !run.Answered? then None else Some(AtParse(w, r, Failing(run.snapshot, "PARSER_PERSISTENCE_FAILED")))
    case Persist =>
      if !run.Answered? || w.lock.Some? then None
      else Some(PersistStep(w, r, run.snapshot, run.content, run.response))
    case RecordFail =>
      if !run.Failing? || w.lock.Some? then None else Some(RecordFailStep(w, r, run.snapshot, run.code))
    case WriteFails =>
      // A write of the results fails, after which the same session records nothing, or the record itself does.
      if !run.Answered? && !run.Failing? then None else Some(w.(parses := w.parses - {r}))
    case CrashParse => Some(w.(parses := w.parses - {r}))
  }

  /** Somebody else rewrites, removes or plants a stored file between two steps. */
  function TamperNext(w: World, s: TamperStep): World {
    match s
    case SetUpload(linked, content) => w.(quarantine := Inode(linked, content))
    case SetFile(name, Some(content)) => w.(files := w.files[name := content])
    case SetFile(name, None) => w.(files := w.files - {name})
  }

  ghost function Next(c: Settings, w: World, s: Step): Option<World> {
    match s
    case Intake(i) => IntakeNext(w, i)
    case Scanner(i) => ScanNext(c, w, i)
    case Promoter(r, i) => PromoteNext(c, w, r, i)
    case Recover(i) => RecoverNext(w, i)
    case Parser(r, i) => ParseNext(c, w, r, i)
    case Tamper(i) => Some(TamperNext(w, i))
  }

  /** A finite run; `None` as soon as a step is not possible. */
  ghost function Exec(c: Settings, w: World, steps: seq<Step>): Option<World>
    decreases |steps|
  {
    if steps == [] then Some(w)
    else
      var before := Exec(c, w, steps[..|steps| - 1]);
      if before.None? then None else Next(c, before.value, steps[|steps| - 1])
  }

  ghost predicate Untampered(steps: seq<Step>) {
    forall i :: 0 <= i < |steps| ==> !steps[i].Tamper?
  }
}
