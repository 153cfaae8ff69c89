/**
 * The rows behind candidate extraction and human review, and what each transaction does to them:
 * starting an extraction run, persisting its candidates, and deciding one candidate.
 */
module ReviewDatabase {
  import opened Basics
  import opened PythonText
  import opened SnapshotEncoding
  import opened CandidateFilter

  const MAX_EDITED_TEXT := 2000
  const MAX_COMMENT := 1000

  datatype User = User(org: Uuid, active: bool, canReview: bool)

  datatype Document = Document(project: Uuid, completed: bool, pages: seq<PageRow>)

  datatype RunStatus = Running | RunCompleted | RunFailed(code: string)

  /** `basis` and `written` hold the pages read in the first and the last phase; they serve the theorems only. */
  datatype Run = Run(org: Uuid, project: Uuid, document: Uuid, status: RunStatus, attempt: Uuid, snapshot: Digest,
                     received: nat, accepted: nat, issues: map<Issue, nat>, basis: seq<PageRow>, written: seq<PageRow>)

  datatype CandidateStatus = Proposed | Approved | Edited | Rejected | Superseded

  datatype Review = Review(editedText: Option<string>, reviewer: Option<Uuid>, comment: Option<string>)

  datatype Candidate = Candidate(org: Uuid, project: Uuid, run: Uuid, document: Uuid, proposal: Proposal,
                                 status: CandidateStatus, review: Review)

  datatype TaskStatus = Open | TaskCompleted | TaskSuperseded

  datatype Task = Task(org: Uuid, locator: string, status: TaskStatus, assignee: Option<Uuid>)

  datatype Requirement = Requirement(id: Uuid, project: Uuid, document: Uuid, candidate: Uuid, text: string,
                                     section: string, requirementType: Option<string>)

  datatype AuditAction =
    | DecisionRecorded(decision: Decision) | ConflictRecorded | UnauthorizedRecorded | SupersedeRecorded(count: nat)

  datatype AuditRow = AuditRow(action: AuditAction, subject: Uuid)

  /** Tasks are keyed by their candidate, which the table declares unique. */
  datatype Db = Db(
    users: map<Uuid, User>,
    projects: map<Uuid, Uuid>,
    documents: map<Uuid, Document>,
    runs: map<Uuid, Run>,
    candidates: map<Uuid, Candidate>,
    tasks: map<Uuid, Task>,
    requirements: seq<Requirement>,
    audit: seq<AuditRow>)

  datatype Env = Env(rendering: Rendering, nfc: string -> string, maxUnits: nat, maxChars: nat, uniqueIndex: bool)

  // Starting a run.

  /** The arguments a `create_requirement_candidates` call carries from its first phase to its last. */
  datatype Call = Call(run: Uuid, attempt: Uuid, org: Uuid, project: Uuid, document: Uuid, snapshot: Digest)

  predicate HashHolds(env: Env, p: PageRow) {
    p.digest.Some? && p.digest.value != "" && p.digest.value == env.rendering.hash(p.content)
  }

  predicate HashesHold(env: Env, pages: seq<PageRow>) {
    forall i :: 0 <= i < |pages| ==> HashHolds(env, pages[i])
  }

  function TotalChars(pages: seq<PageRow>): nat {
    if pages == [] then 0 else |pages[0].content| + TotalChars(pages[1..])
  }

  predicate OwnedBy(db: Db, project: Uuid, org: Uuid) {
    project in db.projects && db.projects[project] == org
  }

  predicate CompletedFor(run: Run, document: Uuid, snapshot: Digest) {
    run.status.RunCompleted? && run.document == document && run.snapshot == snapshot
  }

  predicate AlreadyCompleted(db: Db, document: Uuid, snapshot: Digest) {
    exists r :: r in db.runs && CompletedFor(db.runs[r], document, snapshot)
  }

  /** The pages of a document in the order the query returns them. */
  function Loaded(db: Db, document: Uuid): seq<PageRow>
    requires document in db.documents
  {
    SortByNumber(db.documents[document].pages)
  }

  function Start(env: Env, db: Db, document: Uuid, org: Uuid, newRun: Uuid, newAttempt: Uuid): (Db, Result<Call,
                 string>) {
    if document !in db.documents then (db, Err("DOCUMENT_NOT_COMPLETED"))
    else
      var doc := db.documents[document];
      if !OwnedBy(db, doc.project, org) then (db, Err("TENANT_MISMATCH"))
      else if !doc.completed then (db, Err("DOCUMENT_NOT_COMPLETED"))
      else
        var pages := Loaded(db, document);
        if !HashesHold(env, pages) then (db, Err("PAGE_CONTENT_HASH_MISMATCH"))
        else if |pages| > env.maxUnits || TotalChars(pages) > env.maxChars then (db, Err("EXTRACTION_INPUT_LIMIT"))
        else
          var snapshot := Snapshot(env.rendering, pages);
          if AlreadyCompleted(db, document, snapshot) then (db, Err("DUPLICATE_COMPLETED_RUN"))
          else (db.(runs := db.runs[newRun := Run(org, doc.project, document, Running, newAttempt, snapshot, 0, 0,
                                                  map[], pages, [])]),
                Ok(Call(newRun, newAttempt, org, doc.project, document, snapshot)))
  }

  // Persisting the candidates of a run.

  function MarkFailed(db: Db, run: Uuid, code: string): Db {
    if run in db.runs then db.(runs := db.runs[run := db.runs[run].(status := RunFailed(code))]) else db
  }

  predicate Stale(c: Candidate, call: Call) {
    c.org == call.org && c.document == call.document && c.run != call.run && c.status.Proposed?
  }

  function StaleIds(db: Db, call: Call): set<Uuid> {
    set c | c in db.candidates && Stale(db.candidates[c], call)
  }

  /** `_supersede_stale_candidates`. */
  function SupersedeAll(candidates: map<Uuid, Candidate>, stale: set<Uuid>): map<Uuid, Candidate> {
    map c | c in candidates :: if c in stale then candidates[c].(status := Superseded) else candidates[c]
  }

  function CloseAll(tasks: map<Uuid, Task>, stale: set<Uuid>, org: Uuid): map<Uuid, Task> {
    map t | t in tasks ::
      if t in stale && tasks[t].org == org && tasks[t].status.Open? then tasks[t].(status := TaskSuperseded)
      else tasks[t]
  }

  function Supersede(db: Db, call: Call): Db {
    var stale := StaleIds(db, call);
    if stale == {} then db
    else db.(candidates := SupersedeAll(db.candidates, stale), tasks := CloseAll(db.tasks, stale, call.org),
             audit := db.audit + [AuditRow(SupersedeRecorded(|stale|), call.run)])
  }

  function CandidateOf(call: Call, p: Proposal): Candidate {
    Candidate(call.org, call.project, call.run, call.document, p, Proposed, Review(None, None, None))
  }

  function AddCandidates(candidates: map<Uuid, Candidate>, call: Call, rows: seq<NewCandidate>): map<Uuid, Candidate>
    decreases |rows|
  {
    if rows == [] then candidates
    else
      var last := rows[|rows| - 1];
      AddCandidates(candidates, call, rows[..|rows| - 1])[last.id := CandidateOf(call, last.proposal)]
  }

  function AddTasks(tasks: map<Uuid, Task>, call: Call, rows: seq<NewCandidate>): map<Uuid, Task>
    decreases |rows|
  {
    if rows == [] then tasks
    else
      var last := rows[|rows| - 1];
      AddTasks(tasks, call, rows[..|rows| - 1])[last.id := Task(call.org, last.proposal.locator, Open, None)]
  }

  /** What the filter extracts from the pages; the loop that computes it is `CandidateFilter.Filter`. */
  datatype Extracted = Extracted(rows: seq<NewCandidate>, counts: map<Issue, nat>)

  ghost predicate IsExtracted(env: Env, pages: seq<PageRow>, units: seq<CandidateUnit>, newId: nat -> Uuid,
                              x: Extracted) {
    && RowsAre(env.rendering.hash, pages, units, |units|, newId, x.rows)
    && CountsAre(pages, units, |units|, x.counts)
  }

  /** Which guard of the last phase fails; `None` when the candidates may be written. */
  function PersistRefusal(env: Env, db: Db, call: Call): Option<string> {
    if call.run !in db.runs || !db.runs[call.run].status.Running? then Some("PERSISTENCE_FAILED")
    else if db.runs[call.run].attempt != call.attempt then Some("STALE_EXTRACTION_ATTEMPT")
    else if call.document !in db.documents || !db.documents[call.document].completed then Some("DOCUMENT_NOT_COMPLETED")
    else if Snapshot(env.rendering, Loaded(db, call.document)) != call.snapshot then Some("SNAPSHOT_HASH_MISMATCH")
    else if !HashesHold(env, Loaded(db, call.document)) then Some("PAGE_CONTENT_HASH_MISMATCH")
    else None
  }

  /** The guards that find the run itself unusable do not mark it failed. */
  function Refused(db: Db, call: Call, code: string): Db {
    if code == "PERSISTENCE_FAILED" || code == "STALE_EXTRACTION_ATTEMPT" then db else MarkFailed(db, call.run, code)
  }

  function Written(db: Db, call: Call, received: nat, x: Extracted): Db
    requires call.run in db.runs && call.document in db.documents
  {
    var cleared := Supersede(db, call);
    cleared.(candidates := AddCandidates(cleared.candidates, call, x.rows),
             tasks := AddTasks(cleared.tasks, call, x.rows),
             runs := db.runs[call.run := db.runs[call.run].(status := RunCompleted, received := received,
                                                            accepted := |x.rows|,
                                                          issues := x.counts, written := Loaded(db, call.document))])
  }

  /** The PostgreSQL index on completed runs; SQLite has none. */
  predicate ViolatesIndex(env: Env, db: Db, call: Call) {
    env.uniqueIndex && AlreadyCompleted(db, call.document, call.snapshot)
  }

  /**
   * `_persist_candidates` with the handler around it. `marked` says whether the handler of a failed
   * write still reached the run row.
   */
  function Persist(env: Env, db: Db, call: Call, received: nat, x: Extracted, marked: bool): (Db, Option<string>) {
    var refusal := PersistRefusal(env, db, call);
    if refusal.Some? then (Refused(db, call, refusal.value), refusal)
    else if ViolatesIndex(env, db, call) then
      (if marked then MarkFailed(db, call.run, "PERSISTENCE_FAILED") else db, Some("PERSISTENCE_FAILED"))
    else (Written(db, call, received, x), None)
  }

  // Deciding a candidate.

  datatype Decision = Approve | Edit | Reject | Unsupported

  datatype Request = Request(candidate: Uuid, reviewer: Uuid, org: Uuid, decision: Decision, text: Option<string>,
                             comment: Option<string>)

  datatype ReviewError = Unauthorized(http: nat, code: string) | Failure(code: string)

  datatype Outcome = Outcome(candidate: Uuid, status: CandidateStatus, requirement: Option<Uuid>, replay: bool)

  /** `require_requirement_reviewer`; `None` lets the reviewer through. */
  function Barred(db: Db, reviewer: Uuid, org: Uuid): Option<ReviewError> {
    if reviewer !in db.users then Some(Unauthorized(401, "REVIEW_AUTH_NO_USER"))
    else
      var user := db.users[reviewer];
      if !user.active then Some(Unauthorized(401, "REVIEW_AUTH_INACTIVE"))
      else if user.org != org then Some(Unauthorized(404, "REVIEW_AUTH_TENANT_MISMATCH"))
      else if !user.canReview then Some(Unauthorized(403, "REVIEW_AUTH_NO_CAPABILITY"))
      else None
  }

  function PageWithId(pages: seq<PageRow>, id: Uuid): Option<PageRow> {
    if pages == [] then None else if pages[0].id == id then Some(pages[0]) else PageWithId(pages[1..], id)
  }

  function SourcePage(db: Db, c: Candidate): Option<PageRow> {
    if c.document in db.documents then PageWithId(db.documents[c.document].pages, c.proposal.page) else None
  }

  /** `_revalidate_source`; `None` when the whole chain still holds. */
  function Drift(env: Env, db: Db, c: Candidate): Option<string> {
    var page := SourcePage(db, c);
    var p := c.proposal;
    if page.None? || !OwnedBy(db, c.project, c.org) then Some("REVIEW_SOURCE_DRIFT")
    else if !HashHolds(env, page.value) || page.value.digest != Some(p.pageDigest) then Some("REVIEW_SOURCE_DRIFT")
    else if !(0 <= p.start < p.end <= |page.value.content|) then Some("REVIEW_SOURCE_DRIFT")
    else if page.value.content[p.start..p.end] != p.evidence then Some("REVIEW_SOURCE_DRIFT")
    else if env.rendering.hash(p.evidence) != p.evidenceDigest then Some("REVIEW_SOURCE_DRIFT")
    else if c.run !in db.runs || db.runs[c.run].document != c.document || db.runs[c.run].org != c.org then
      Some("REVIEW_RUN_NOT_APPLICABLE")
    else None
  }

  function NormalizeText(env: Env, raw: string): Result<string, string> {
    var text := Strip(env.nfc(raw));
    if text == "" then Err("REVIEW_EDIT_TEXT_REQUIRED")
    else if |text| > MAX_EDITED_TEXT || HasControl(text) then Err("REVIEW_EDIT_TEXT_INVALID")
    else Ok(text)
  }

  function NormalizeComment(env: Env, raw: Option<string>): Result<Option<string>, string> {
    if raw.None? then Ok(None)
    else
      var text := Strip(env.nfc(raw.value));
      if text == "" then Ok(None)
      else if |text| > MAX_COMMENT || HasControl(text) then Err("REVIEW_COMMENT_INVALID")
      else Ok(Some(text))
  }

  function ReviewedText(env: Env, c: Candidate, request: Request): Result<string, string> {
    if request.decision.Edit? then
      if request.text.None? then Err("REVIEW_EDIT_TEXT_REQUIRED") else NormalizeText(env, request.text.value)
    else if request.decision.Approve? then Ok(c.proposal.text)
    else Ok("")
  }

  function StatusOf(d: Decision): CandidateStatus {
    match d
    case Approve => Approved
    case Edit => Edited
    case Reject => Rejected
    case Unsupported => Proposed
  }

  /** The requirement promoted from a candidate, if any. */
  function Promoted(requirements: seq<Requirement>, candidate: Uuid): Option<Requirement> {
    if requirements == [] then None
    else if requirements[0].candidate == candidate then Some(requirements[0])
    else Promoted(requirements[1..], candidate)
  }

  function PromotedId(requirements: seq<Requirement>, candidate: Uuid): Option<Uuid> {
    var existing := Promoted(requirements, candidate);
    if existing.Some? then Some(existing.value.id) else None
  }

  predicate Promotes(d: Decision) {
    d.Approve? || d.Edit?
  }

  function RequirementOf(id: Uuid, key: Uuid, c: Candidate, text: string): Requirement {
    Requirement(id, c.project, c.document, key, text, c.proposal.locator, c.proposal.requirementType)
  }

  function Decided(c: Candidate, request: Request, text: string, comment: Option<string>): Candidate {
    c.(status := StatusOf(request.decision),
       review := Review(if request.decision.Edit? then Some(text) else c.review.editedText, Some(request.reviewer),
                        comment))
  }

  function Closed(t: Task, reviewer: Uuid): Task {
    if !t.status.Open? then t
    else t.(status := TaskCompleted, assignee := if t.assignee.Some? then t.assignee else Some(reviewer))
  }

  /** The commit of a decision. */
  function Apply(db: Db, request: Request, text: string, comment: Option<string>, newId: Uuid): Db
    requires request.candidate in db.candidates && request.candidate in db.tasks
  {
    var c := db.candidates[request.candidate];
    db.(candidates := db.candidates[request.candidate := Decided(c, request, text, comment)],
        tasks := db.tasks[request.candidate := Closed(db.tasks[request.candidate], request.reviewer)],
        requirements := if !Promotes(request.decision) then db.requirements
                        else db.requirements + [RequirementOf(newId, request.candidate, c, text)],
        audit := db.audit + [AuditRow(DecisionRecorded(request.decision), request.candidate)])
  }

  /** What refuses a decision on a PROPOSED candidate, in the order the code finds it. */
  function DecisionRefusal(env: Env, db: Db, request: Request, dbFails: bool): Option<string>
    requires request.candidate in db.candidates
  {
    var c := db.candidates[request.candidate];
    if request.candidate !in db.tasks || db.tasks[request.candidate].org != request.org then Some("REVIEW_TASK_MISSING")
    else if Drift(env, db, c).Some? then Drift(env, db, c)
    else if NormalizeComment(env, request.comment).Err? then Some(NormalizeComment(env, request.comment).error)
    else if ReviewedText(env, c, request).Err? then Some(ReviewedText(env, c, request).error)
    else if Promotes(request.decision) && Promoted(db.requirements, request.candidate).Some? then
      Some("REVIEW_CONFLICT")
    else if dbFails then Some("REVIEW_CONFLICT")
    else None
  }

  function Log(db: Db, action: AuditAction, subject: Uuid): Db {
    db.(audit := db.audit + [AuditRow(action, subject)])
  }

  /** `review_requirement_candidate`. */
  function Decide(env: Env, db: Db, request: Request, newId: Uuid, dbFails: bool): (Db, Result<Outcome, ReviewError>) {
    if request.decision.Unsupported? then (db, Err(Failure("REVIEW_INVALID_DECISION")))
    else if Barred(db, request.reviewer, request.org).Some? then
      (Log(db, UnauthorizedRecorded, request.candidate), Err(Barred(db, request.reviewer, request.org).value))
    else if request.candidate !in db.candidates || db.candidates[request.candidate].org != request.org then
      (db, Err(Failure("REVIEW_CANDIDATE_NOT_FOUND")))
    else
      var c := db.candidates[request.candidate];
      if !c.status.Proposed? then
        (Log(db, ConflictRecorded, request.candidate),
         if c.status == StatusOf(request.decision) then
           Ok(Outcome(request.candidate, c.status, PromotedId(db.requirements, request.candidate), true))
         else Err(Failure("REVIEW_CONFLICT")))
      else
        var refusal := DecisionRefusal(env, db, request, dbFails);
        if refusal.Some? then (db, Err(Failure(refusal.value)))
        else
          (Apply(db, request, ReviewedText(env, c, request).value, NormalizeComment(env, request.comment).value, newId),
           Ok(Outcome(request.candidate, StatusOf(request.decision),
                      if Promotes(request.decision) then Some(newId) else None, false)))
  }

  // What starting and finishing a run promise.

  function ContentsOf(pages: seq<PageRow>): seq<string> {
    seq(|pages|, i requires 0 <= i < |pages| => pages[i].content)
  }

  lemma {:induction false} TotalCharsIsTheText(pages: seq<PageRow>)
    ensures TotalChars(pages) == |Concat(ContentsOf(pages))|
  {
    if pages != [] {
      TotalCharsIsTheText(pages[1..]);
      assert ContentsOf(pages)[1..] == ContentsOf(pages[1..]);
    }
  }

  /** Every page carries a digest, and it is that of its text. */
  ghost predicate PagesStand(env: Env, pages: seq<PageRow>) {
    forall p :: p in pages ==> p.digest == Some(env.rendering.hash(p.content)) && p.digest != Some("")
  }

  /** A run over exactly these pages of the document has completed before. */
  ghost predicate DoneBefore(env: Env, db: Db, document: Uuid, pages: seq<PageRow>) {
    exists r :: r in db.runs && db.runs[r].status == RunCompleted && db.runs[r].document == document
                && db.runs[r].snapshot == Snapshot(env.rendering, pages)
  }

  /** What a start must get past, in its order. */
  ghost function StartHurdles(env: Env, db: Db, document: Uuid, org: Uuid): seq<Hurdle<string>> {
    var there := document in db.documents;
    var row := if there then db.documents[document] else Document(0, false, []);
    var pages := SortByNumber(row.pages);
    [ Hurdle(there, "DOCUMENT_NOT_COMPLETED"),
      Hurdle(there && row.project in db.projects && db.projects[row.project] == org, "TENANT_MISMATCH"),
      Hurdle(row.completed, "DOCUMENT_NOT_COMPLETED"),
      Hurdle(PagesStand(env, pages), "PAGE_CONTENT_HASH_MISMATCH"),
      Hurdle(|pages| <= env.maxUnits && |Concat(ContentsOf(pages))| <= env.maxChars, "EXTRACTION_INPUT_LIMIT"),
      Hurdle(!DoneBefore(env, db, document, pages), "DUPLICATE_COMPLETED_RUN")]
  }

  lemma PagesStandWhenHashesHold(env: Env, pages: seq<PageRow>)
    ensures PagesStand(env, pages) <==> HashesHold(env, pages)
  {
    if PagesStand(env, pages) {
      forall i | 0 <= i < |pages| ensures HashHolds(env, pages[i]) {
        assert pages[i] in pages;
      }
    }
  }

  lemma DoneBeforeIsCompleted(env: Env, db: Db, document: Uuid, pages: seq<PageRow>)
    ensures DoneBefore(env, db, document, pages) <==> AlreadyCompleted(db, document, Snapshot(env.rendering, pages))
  {
    if AlreadyCompleted(db, document, Snapshot(env.rendering, pages)) {
      var r :| r in db.runs && CompletedFor(db.runs[r], document, Snapshot(env.rendering, pages));
    }
    if DoneBefore(env, db, document, pages) {
      var r :| r in db.runs && db.runs[r].status == RunCompleted && db.runs[r].document == document
               && db.runs[r].snapshot == Snapshot(env.rendering, pages);
      assert CompletedFor(db.runs[r], document, Snapshot(env.rendering, pages));
    }
  }

  /**
   * A run starts exactly on a completed document of the caller's organization, with intact pages within
   * the limits, over which no run has completed; it adds its RUNNING row and nothing else, and a start
   * that misses a hurdle writes nothing.
   */
  lemma StartsExactlyWhen(env: Env, db: Db, document: Uuid, org: Uuid, newRun: Uuid, newAttempt: Uuid)
    ensures var (after, result) := Start(env, db, document, org, newRun, newAttempt);
            var h := StartHurdles(env, db, document, org);
            && (result.Ok? <==> AllCleared(h))
            && (forall k: nat :: FirstMissed(h, k) ==> after == db && result == Err(h[k].code))
            && (result.Ok? ==>
                  var pages := SortByNumber(db.documents[document].pages);
                  var project, snapshot := db.documents[document].project, Snapshot(env.rendering, pages);
                  && after == db.(runs := db.runs[newRun := Run(org, project, document, Running, newAttempt, snapshot,
                                                                0, 0, map[], pages, [])])
                  && result.value == Call(newRun, newAttempt, org, project, document, snapshot))
  {
    var h := StartHurdles(env, db, document, org);
    if document in db.documents {
      var pages := SortByNumber(db.documents[document].pages);
      PagesStandWhenHashesHold(env, pages);
      TotalCharsIsTheText(pages);
      DoneBeforeIsCompleted(env, db, document, pages);
    }
    if AllCleared(h) {
      assert h[0].cleared && h[1].cleared && h[2].cleared && h[3].cleared && h[4].cleared && h[5].cleared;
    } else {
      var k := SomeIsFirstMissed(h);
      assert (k > 0 ==> h[0].cleared) && (k > 1 ==> h[1].cleared) && (k > 2 ==> h[2].cleared);
      assert (k > 3 ==> h[3].cleared) && (k > 4 ==> h[4].cleared);
    }
  }

  /** What a call must get past to write its candidates. */
  ghost function FinishHurdles(env: Env, db: Db, call: Call): seq<Hurdle<string>> {
    var running := call.run in db.runs && db.runs[call.run].status == Running;
    var there := call.document in db.documents && db.documents[call.document].completed;
    var pages := if there then SortByNumber(db.documents[call.document].pages) else [];
    [ Hurdle(running, "PERSISTENCE_FAILED"),
      Hurdle(running && db.runs[call.run].attempt == call.attempt, "STALE_EXTRACTION_ATTEMPT"),
      Hurdle(there, "DOCUMENT_NOT_COMPLETED"),
      Hurdle(there && Snapshot(env.rendering, pages) == call.snapshot, "SNAPSHOT_HASH_MISMATCH"),
      Hurdle(PagesStand(env, pages), "PAGE_CONTENT_HASH_MISMATCH"),
      Hurdle(env.uniqueIndex ==> !DoneBefore(env, db, call.document, pages), "PERSISTENCE_FAILED")]
  }

  /**
   * Phase C writes exactly if it gets past every hurdle. Otherwise the run row, and nothing else, is
   * marked with the code of the first one missed: not if the run itself is unusable, and after a violated
   * index only if the handler gets that far.
   */
  lemma FinishesExactlyWhen(env: Env, db: Db, call: Call, received: nat, x: Extracted, marked: bool)
    ensures var (after, failure) := Persist(env, db, call, received, x, marked);
            var h := FinishHurdles(env, db, call);
            && (failure.None? <==> AllCleared(h))
            && (forall k: nat :: FirstMissed(h, k) ==>
                  && failure == Some(h[k].code)
                  && (k < 2 || (k == 5 && !marked) ==> after == db)
                  && (k >= 2 && (k != 5 || marked) ==>
                        && call.run in db.runs
                        && after
                           == db.(runs := db.runs[call.run := db.runs[call.run].(status := RunFailed(h[k].code))])))
            && (failure.None? ==>
                  && call.run in after.runs && call.document in db.documents
                  && after.runs == db.runs[call.run := db.runs[call.run].(status := RunCompleted, received := received,
                                                                          accepted := |x.rows|, issues := x.counts,
                                                                          written := SortByNumber(
                                                                            db.documents[call.document].pages))])
  {
    var h := FinishHurdles(env, db, call);
    if call.document in db.documents {
      var pages := SortByNumber(db.documents[call.document].pages);
      PagesStandWhenHashesHold(env, pages);
      DoneBeforeIsCompleted(env, db, call.document, pages);
    }
    if AllCleared(h) {
      assert h[0].cleared && h[1].cleared && h[2].cleared && h[3].cleared && h[4].cleared && h[5].cleared;
    } else {
      var k := SomeIsFirstMissed(h);
      assert (k > 0 ==> h[0].cleared) && (k > 1 ==> h[1].cleared) && (k > 2 ==> h[2].cleared);
      assert (k > 3 ==> h[3].cleared) && (k > 4 ==> h[4].cleared);
    }
  }

  // What deciding promises its callers.

  /** Failing or replayed, a review changes no candidate, no task and no requirement; it adds at most one audit row. */
  lemma OnlyAFreshDecisionWrites(env: Env, db: Db, request: Request, newId: Uuid, dbFails: bool)
    ensures var (after, result) := Decide(env, db, request, newId, dbFails);
            && (result.Err? || result.value.replay ==> after == db.(audit := after.audit))
            && db.audit <= after.audit && |after.audit| <= |db.audit| + 1
            && (result.Ok? && result.value.replay ==>
                  && request.candidate in db.candidates
                  && result.value.status == db.candidates[request.candidate].status == StatusOf(request.decision))
  {
  }

  predicate CommentFits(env: Env, comment: Option<string>) {
    comment.Some? ==> var text := Strip(env.nfc(comment.value)); |text| <= MAX_COMMENT && !HasControl(text)
  }

  predicate EditFits(env: Env, text: Option<string>) {
    text.Some? && var stripped := Strip(env.nfc(text.value)); 0 < |stripped| <= MAX_EDITED_TEXT && !HasControl(stripped)
  }

  lemma TextsAcceptedExactlyWhen(env: Env, c: Candidate, request: Request)
    ensures NormalizeComment(env, request.comment).Ok? <==> CommentFits(env, request.comment)
    ensures ReviewedText(env, c, request).Ok? <==> (request.decision.Edit? ==> EditFits(env, request.text))
  {
    assert !HasControl("");
  }

  /**
   * A candidate is decided exactly when the reviewer may, it is still proposed, its source still stands
   * and the texts are acceptable.
   */
  lemma DecidedExactlyWhen(env: Env, db: Db, request: Request, newId: Uuid, dbFails: bool)
    ensures var result := Decide(env, db, request, newId, dbFails).1;
            (result.Ok? && !result.value.replay) <==>
            && !request.decision.Unsupported?
            && request.reviewer in db.users && db.users[request.reviewer] == User(request.org, true, true)
            && request.candidate in db.candidates
            && var c := db.candidates[request.candidate];
               && c.org == request.org && c.status.Proposed?
               && request.candidate in db.tasks && db.tasks[request.candidate].org == request.org
               && Drift(env, db, c).None?
               && CommentFits(env, request.comment)
               && (request.decision.Edit? ==> EditFits(env, request.text))
               && (Promotes(request.decision) ==> Promoted(db.requirements, request.candidate).None?)
               && !dbFails
  {
    if request.candidate in db.candidates {
      TextsAcceptedExactlyWhen(env, db.candidates[request.candidate], request);
    }
  }

  /** Whoever is not a reviewer of the organization gets the same answer whatever the candidate tables hold. */
  lemma OutsidersLearnNothing(env: Env, db: Db, other: Db, request: Request, newId: Uuid, dbFails: bool)
    requires db.users == other.users && Barred(db, request.reviewer, request.org).Some?
    ensures Decide(env, db, request, newId, dbFails).1 == Decide(env, other, request, newId, dbFails).1
  {
  }

  /** To a reviewer, another tenant's candidate is indistinguishable from none. */
  lemma ForeignCandidatesLookAbsent(env: Env, db: Db, request: Request, newId: Uuid, dbFails: bool)
    requires request.candidate in db.candidates && db.candidates[request.candidate].org != request.org
    ensures var without := db.(candidates := db.candidates - {request.candidate});
            Decide(env, db, request, newId, dbFails).1 == Decide(env, without, request, newId, dbFails).1
  {
  }

  // Refusals, in their order, and what a decision writes.

  function ReviewerHurdles(db: Db, reviewer: Uuid, org: Uuid): seq<Hurdle<ReviewError>> {
    var known := reviewer in db.users;
    [ Hurdle(known, Unauthorized(401, "REVIEW_AUTH_NO_USER")),
      Hurdle(known && db.users[reviewer].active, Unauthorized(401, "REVIEW_AUTH_INACTIVE")),
      Hurdle(known && db.users[reviewer].org == org, Unauthorized(404, "REVIEW_AUTH_TENANT_MISMATCH")),
      Hurdle(known && db.users[reviewer].canReview, Unauthorized(403, "REVIEW_AUTH_NO_CAPABILITY"))]
  }

  /** A caller is let through exactly if known, active, of the organization and capable; else by the first miss. */
  lemma BarredExactlyWhen(db: Db, reviewer: Uuid, org: Uuid)
    ensures var h := ReviewerHurdles(db, reviewer, org);
            && (Barred(db, reviewer, org).None? <==> AllCleared(h))
            && (forall k: nat :: FirstMissed(h, k) ==> Barred(db, reviewer, org) == Some(h[k].code))
  {
    var h := ReviewerHurdles(db, reviewer, org);
    if AllCleared(h) {
      assert h[0].cleared && h[1].cleared && h[2].cleared && h[3].cleared;
    } else {
      var k := SomeIsFirstMissed(h);
      assert (k > 0 ==> h[0].cleared) && (k > 1 ==> h[1].cleared) && (k > 2 ==> h[2].cleared);
    }
  }

  /** The page at `i` is the one quoted, unchanged, and the evidence is its slice. */
  predicate StandsOn(env: Env, p: Proposal, page: PageRow) {
    && page.id == p.page && page.digest == Some(p.pageDigest) && p.pageDigest != ""
    && env.rendering.hash(page.content) == p.pageDigest
    && 0 <= p.start < p.end <= |page.content| && page.content[p.start..p.end] == p.evidence
    && env.rendering.hash(p.evidence) == p.evidenceDigest
  }

  /** The first page of the candidate's document with the quoted id is one its proposal stands on. */
  ghost predicate SourceStands(env: Env, db: Db, c: Candidate) {
    && c.project in db.projects && db.projects[c.project] == c.org && c.document in db.documents
    && var pages := db.documents[c.document].pages;
       exists i :: 0 <= i < |pages| && StandsOn(env, c.proposal, pages[i])
                   && forall j :: 0 <= j < i ==> pages[j].id != c.proposal.page
  }

  predicate RunApplies(db: Db, c: Candidate) {
    c.run in db.runs && db.runs[c.run].document == c.document && db.runs[c.run].org == c.org
  }

  lemma {:induction false} PageWithIdIsTheFirst(pages: seq<PageRow>, id: Uuid, i: nat)
    requires i < |pages| && pages[i].id == id && forall j :: 0 <= j < i ==> pages[j].id != id
    ensures PageWithId(pages, id) == Some(pages[i])
  {
    if i > 0 {
      assert pages[0].id != id;
      forall j | 0 <= j < i - 1 ensures pages[1..][j].id != id {
        assert pages[j + 1].id != id;
      }
      PageWithIdIsTheFirst(pages[1..], id, i - 1);
    }
  }

  lemma {:induction false} PageWithIdIsSomewhere(pages: seq<PageRow>, id: Uuid) returns (i: nat)
    requires PageWithId(pages, id).Some?
    ensures i < |pages| && PageWithId(pages, id) == Some(pages[i]) && pages[i].id == id
    ensures forall j :: 0 <= j < i ==> pages[j].id != id
  {
    if pages[0].id == id {
      i := 0;
    } else {
      var k := PageWithIdIsSomewhere(pages[1..], id);
      i := k + 1;
      forall j | 0 <= j < i ensures pages[j].id != id {
        if j > 0 { assert pages[1..][j - 1].id != id; }
      }
    }
  }

  lemma DriftsExactlyWhen(env: Env, db: Db, c: Candidate)
    ensures Drift(env, db, c) == if !SourceStands(env, db, c) then Some("REVIEW_SOURCE_DRIFT")
                                 else if !RunApplies(db, c) then Some("REVIEW_RUN_NOT_APPLICABLE") else None
  {
    if c.document in db.documents {
      var pages := db.documents[c.document].pages;
      if SourceStands(env, db, c) {
        var i :| 0 <= i < |pages| && StandsOn(env, c.proposal, pages[i])
                 && forall j :: 0 <= j < i ==> pages[j].id != c.proposal.page;
        PageWithIdIsTheFirst(pages, c.proposal.page, i);
      } else if PageWithId(pages, c.proposal.page).Some? {
        var i := PageWithIdIsSomewhere(pages, c.proposal.page);
        assert !StandsOn(env, c.proposal, pages[i]) || !OwnedBy(db, c.project, c.org);
      }
    }
  }

  /** What a decision on an open proposal must get past. */
  ghost function DecisionHurdles(env: Env, db: Db, request: Request, dbFails: bool): seq<Hurdle<string>>
    requires request.candidate in db.candidates
  {
    var c, edits := db.candidates[request.candidate], request.decision == Edit;
    var comment := if request.comment.Some? then Strip(env.nfc(request.comment.value)) else "";
    var text := if request.text.Some? then Strip(env.nfc(request.text.value)) else "";
    [ Hurdle(request.candidate in db.tasks && db.tasks[request.candidate].org == request.org, "REVIEW_TASK_MISSING"),
      Hurdle(SourceStands(env, db, c), "REVIEW_SOURCE_DRIFT"),
      Hurdle(RunApplies(db, c), "REVIEW_RUN_NOT_APPLICABLE"),
      Hurdle(|comment| <= 1000 && !HasControl(comment), "REVIEW_COMMENT_INVALID"),
      Hurdle(edits ==> text != "", "REVIEW_EDIT_TEXT_REQUIRED"),
      Hurdle(edits ==> |text| <= 2000 && !HasControl(text), "REVIEW_EDIT_TEXT_INVALID"),
      Hurdle(request.decision in {Approve, Edit} ==>
               forall r :: r in db.requirements ==> r.candidate != request.candidate, "REVIEW_CONFLICT"),
      Hurdle(!dbFails, "REVIEW_CONFLICT")]
  }

  lemma {:induction false} PromotedWhenThere(requirements: seq<Requirement>, candidate: Uuid)
    ensures Promoted(requirements, candidate).None? <==> forall r :: r in requirements ==> r.candidate != candidate
    ensures Promoted(requirements, candidate).Some? ==>
              Promoted(requirements, candidate).value in requirements
              && Promoted(requirements, candidate).value.candidate == candidate
  {
    if requirements != [] {
      PromotedWhenThere(requirements[1..], candidate);
      assert requirements == [requirements[0]] + requirements[1..];
    }
  }

  /** A proposal is decided exactly if its decision gets past every hurdle; else the first one missed is the refusal. */
  lemma RefusedExactlyWhen(env: Env, db: Db, request: Request, dbFails: bool)
    requires request.candidate in db.candidates
    ensures var h := DecisionHurdles(env, db, request, dbFails);
            && (DecisionRefusal(env, db, request, dbFails).None? <==> AllCleared(h))
            && (forall k: nat :: FirstMissed(h, k) ==> DecisionRefusal(env, db, request, dbFails) == Some(h[k].code))
  {
    var h := DecisionHurdles(env, db, request, dbFails);
    DriftsExactlyWhen(env, db, db.candidates[request.candidate]);
    PromotedWhenThere(db.requirements, request.candidate);
    assert !HasControl("");
    if AllCleared(h) {
      assert h[0].cleared && h[1].cleared && h[2].cleared && h[3].cleared && h[4].cleared && h[5].cleared;
      assert h[6].cleared && h[7].cleared;
    } else {
      var k := SomeIsFirstMissed(h);
      assert (k > 0 ==> h[0].cleared) && (k > 1 ==> h[1].cleared) && (k > 2 ==> h[2].cleared);
      assert (k > 3 ==> h[3].cleared) && (k > 4 ==> h[4].cleared) && (k > 5 ==> h[5].cleared);
      assert k > 6 ==> h[6].cleared;
    }
  }

  /** How a review ends, and the one audit row it leaves, in the order the code looks. */
  lemma ReviewsExactlyAs(env: Env, db: Db, request: Request, newId: Uuid, dbFails: bool)
    ensures var (after, result) := Decide(env, db, request, newId, dbFails);
            var barred, key := ReviewerHurdles(db, request.reviewer, request.org), request.candidate;
            if request.decision == Unsupported then after == db && result == Err(Failure("REVIEW_INVALID_DECISION"))
            else if !AllCleared(barred) then
              after == db.(audit := db.audit + [AuditRow(UnauthorizedRecorded, key)])
              && forall k: nat :: FirstMissed(barred, k) ==> result == Err(barred[k].code)
            else if key !in db.candidates || db.candidates[key].org != request.org then
              after == db && result == Err(Failure("REVIEW_CANDIDATE_NOT_FOUND"))
            else if db.candidates[key].status != Proposed then
              after == db.(audit := db.audit + [AuditRow(ConflictRecorded, key)])
              && var same := || (request.decision == Approve && db.candidates[key].status == Approved)
                             || (request.decision == Edit && db.candidates[key].status == Edited)
                             || (request.decision == Reject && db.candidates[key].status == Rejected);
                 if !same then result == Err(Failure("REVIEW_CONFLICT"))
                 else
                   && result.Ok? && result.value.replay && result.value.candidate == key
                   && result.value.status == db.candidates[key].status
                   && (result.value.requirement.None? <==> forall r :: r in db.requirements ==> r.candidate != key)
                   && (result.value.requirement.Some? ==>
                         exists r :: r in db.requirements && r.candidate == key
                                     && Some(r.id) == result.value.requirement)
            else
              var h := DecisionHurdles(env, db, request, dbFails);
              && (AllCleared(h) <==> result.Ok?)
              && (result.Ok? ==> !result.value.replay && result.value.candidate == key)
              && (forall k: nat :: FirstMissed(h, k) ==> after == db && result == Err(Failure(h[k].code)))
  {
    BarredExactlyWhen(db, request.reviewer, request.org);
    PromotedWhenThere(db.requirements, request.candidate);
    if request.candidate in db.candidates {
      RefusedExactlyWhen(env, db, request, dbFails);
    }
    if !AllCleared(ReviewerHurdles(db, request.reviewer, request.org)) {
      var k := SomeIsFirstMissed(ReviewerHurdles(db, request.reviewer, request.org));
    }
  }

  /** A blank comment is none; any other is stored without the white space around it. */
  predicate IsStoredComment(env: Env, given: Option<string>, stored: Option<string>) {
    if given.None? || Strip(env.nfc(given.value)) == "" then stored.None?
    else stored == Some(Strip(env.nfc(given.value)))
  }

  /** The text a promoting decision gives the requirement. */
  predicate IsReviewedText(env: Env, c: Candidate, request: Request, text: string) {
    match request.decision
    case Approve => text == c.proposal.text
    case Edit => request.text.Some? && text == Strip(env.nfc(request.text.value))
    case _ => false
  }

  /** The candidate row after a decision: decided by the requester, and in what the machine wrote unchanged. */
  ghost predicate IsDecided(env: Env, c: Candidate, e: Candidate, request: Request) {
    && (request.decision == Approve ==> e.status == Approved && e.review.editedText == c.review.editedText)
    && (request.decision == Edit ==>
          e.status == Edited && e.review.editedText.Some? && IsReviewedText(env, c, request, e.review.editedText.value))
    && (request.decision == Reject ==> e.status == Rejected && e.review.editedText == c.review.editedText)
    && e.review.reviewer == Some(request.reviewer) && IsStoredComment(env, request.comment, e.review.comment)
    && e.org == c.org && e.project == c.project && e.run == c.run && e.document == c.document
    && e.proposal == c.proposal
  }

  /** The requirement of a promoting decision, and none of any other. */
  ghost predicate IsPromotion(env: Env, c: Candidate, request: Request, newId: Uuid, added: seq<Requirement>) {
    if request.decision in {Approve, Edit} then
      && |added| == 1 && added[0].id == newId && added[0].candidate == request.candidate
      && added[0].project == c.project && added[0].document == c.document
      && added[0].section == c.proposal.locator && added[0].requirementType == c.proposal.requirementType
      && IsReviewedText(env, c, request, added[0].text)
    else added == []
  }

  /** An open task is completed and, if nobody had it, given to the reviewer. */
  predicate IsClosed(t: Task, e: Task, reviewer: Uuid) {
    && e.org == t.org && e.locator == t.locator
    && (t.status == Open ==> e.status == TaskCompleted
                             && e.assignee == (if t.assignee.Some? then t.assignee else Some(reviewer)))
    && (t.status != Open ==> e == t)
  }

  /** Everything a decision writes, and that it writes nothing else. */
  lemma WhatADecisionWrites(env: Env, db: Db, request: Request, newId: Uuid, dbFails: bool)
    requires Decide(env, db, request, newId, dbFails).1.Ok? && !Decide(env, db, request, newId, dbFails).1.value.replay
    ensures request.candidate in db.candidates && request.candidate in db.tasks
    ensures var (after, result) := Decide(env, db, request, newId, dbFails);
            var key := request.candidate;
            && after == db.(candidates := after.candidates, tasks := after.tasks, requirements := after.requirements,
                            audit := db.audit + [AuditRow(DecisionRecorded(request.decision), key)])
            && key in after.candidates && after.candidates == db.candidates[key := after.candidates[key]]
            && IsDecided(env, db.candidates[key], after.candidates[key], request)
            && key in after.tasks && after.tasks == db.tasks[key := after.tasks[key]]
            && IsClosed(db.tasks[key], after.tasks[key], request.reviewer)
            && |after.requirements| >= |db.requirements|
            && after.requirements[..|db.requirements|] == db.requirements
            && IsPromotion(env, db.candidates[key], request, newId, after.requirements[|db.requirements|..])
            && result.value.status == after.candidates[key].status
            && result.value.requirement == (if request.decision in {Approve, Edit} then Some(newId) else None)
  {
  }
}
