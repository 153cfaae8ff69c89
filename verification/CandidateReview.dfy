/** The extraction and review services as they change the tables, each transaction tied to its specification. */
module CandidateReview {
  import opened Basics
  import opened SnapshotEncoding
  import opened CandidateFilter
  import opened ReviewDatabase

  /** Every page carries a recorded hash that still matches its text. */
  method PagesIntact(env: Env, pages: seq<PageRow>) returns (ok: bool)
    ensures ok == HashesHold(env, pages)
  {
    for i := 0 to |pages|
      invariant forall k :: 0 <= k < i ==> HashHolds(env, pages[k])
    {
      var p := pages[i];
      if p.digest.None? || p.digest.value == "" || p.digest.value != env.rendering.hash(p.content) {
        assert !HashHolds(env, pages[i]);
        return false;
      }
    }
    return true;
  }

  class Tables {
    var users: map<Uuid, User>
    var projects: map<Uuid, Uuid>
    var documents: map<Uuid, Document>
    var runs: map<Uuid, Run>
    var candidates: map<Uuid, Candidate>
    var tasks: map<Uuid, Task>
    var requirements: seq<Requirement>
    var audit: seq<AuditRow>

    ghost function State(): Db
      reads this
    {
      Db(users, projects, documents, runs, candidates, tasks, requirements, audit)
    }

    /** Phase A of `create_requirement_candidates`. */
    method StartRun(env: Env, document: Uuid, org: Uuid, newRun: Uuid, newAttempt: Uuid)
      returns (result: Result<Call, string>)
      modifies this
      ensures (State(), result) == Start(env, old(State()), document, org, newRun, newAttempt)
    {
      if document !in documents {
        return Err("DOCUMENT_NOT_COMPLETED");
      }
      var doc := documents[document];
      if doc.project !in projects || projects[doc.project] != org {
        return Err("TENANT_MISMATCH");
      }
      if !doc.completed {
        return Err("DOCUMENT_NOT_COMPLETED");
      }
      var pages := SortByNumber(doc.pages);
      var intact := PagesIntact(env, pages);
      if !intact {
        return Err("PAGE_CONTENT_HASH_MISMATCH");
      }
      var total := 0;
      for i := 0 to |pages|
        invariant total + TotalChars(pages[i..]) == TotalChars(pages)
      {
        total := total + |pages[i].content|;
      }
      if |pages| > env.maxUnits || total > env.maxChars {
        return Err("EXTRACTION_INPUT_LIMIT");
      }
      var snapshot := ComputeSnapshot(env.rendering, pages);
      SortingTwice(doc.pages);
      if exists r :: r in runs && CompletedFor(runs[r], document, snapshot) {
        return Err("DUPLICATE_COMPLETED_RUN");
      }
      runs := runs[newRun := Run(org, doc.project, document, Running, newAttempt, snapshot, 0, 0, map[], pages, [])];
      return Ok(Call(newRun, newAttempt, org, doc.project, document, snapshot));
    }

    method MarkRunFailed(run: Uuid, code: string)
      modifies this`runs
      ensures State() == MarkFailed(old(State()), run, code)
    {
      if run in runs {
        runs := runs[run := runs[run].(status := RunFailed(code))];
      }
    }

    method SupersedeStaleCandidates(call: Call) returns (count: nat)
      modifies this`candidates, this`tasks, this`audit
      ensures State() == Supersede(old(State()), call)
      ensures count == |StaleIds(old(State()), call)|
    {
      var stale := set c | c in candidates && Stale(candidates[c], call);
      assert stale == StaleIds(State(), call);
      if stale == {} {
        return 0;
      }
      MarkSuperseded(stale);
      CloseTasks(stale, call.org);
      audit := audit + [AuditRow(SupersedeRecorded(|stale|), call.run)];
      return |stale|;
    }

    method MarkSuperseded(stale: set<Uuid>)
      requires stale <= candidates.Keys
      modifies this`candidates
      ensures candidates == SupersedeAll(old(candidates), stale)
    {
      var remaining := stale;
      while remaining != {}
        invariant remaining <= stale
        invariant candidates.Keys == old(candidates).Keys
        invariant forall c :: c in candidates ==>
                                candidates[c] == if c in stale - remaining
                                                 then old(candidates)[c].(status := Superseded) else old(candidates)[c]
        decreases |remaining|
      {
        var c :| c in remaining;
        candidates := candidates[c := candidates[c].(status := Superseded)];
        remaining := remaining - {c};
      }
      assert stale - remaining == stale;
      assert candidates == SupersedeAll(old(candidates), stale);
    }

    method CloseTasks(stale: set<Uuid>, org: Uuid)
      modifies this`tasks
      ensures tasks == CloseAll(old(tasks), stale, org)
    {
      var open := set t | t in tasks && t in stale && tasks[t].org == org && tasks[t].status.Open?;
      var remaining := open;
      while remaining != {}
        invariant remaining <= open
        invariant tasks.Keys == old(tasks).Keys
        invariant forall t :: t in tasks ==>
                    tasks[t] == if t in open - remaining then old(tasks)[t].(status := TaskSuperseded)
                                else old(tasks)[t]
        decreases |remaining|
      {
        var t :| t in remaining;
        tasks := tasks[t := tasks[t].(status := TaskSuperseded)];
        remaining := remaining - {t};
      }
      assert open - remaining == open;
      assert tasks == CloseAll(old(tasks), stale, org);
    }

    /** The guards of phase C, read under the row locks. */
    method RecheckRun(env: Env, call: Call) returns (refusal: Option<string>)
      ensures refusal == PersistRefusal(env, State(), call)
    {
      if call.run !in runs || !runs[call.run].status.Running? {
        return Some("PERSISTENCE_FAILED");
      }
      if runs[call.run].attempt != call.attempt {
        return Some("STALE_EXTRACTION_ATTEMPT");
      }
      if call.document !in documents || !documents[call.document].completed {
        return Some("DOCUMENT_NOT_COMPLETED");
      }
      var pages := SortByNumber(documents[call.document].pages);
      var snapshot := ComputeSnapshot(env.rendering, pages);
      SortingTwice(documents[call.document].pages);
      if snapshot != call.snapshot {
        return Some("SNAPSHOT_HASH_MISMATCH");
      }
      var intact := PagesIntact(env, pages);
      return if intact then None else Some("PAGE_CONTENT_HASH_MISMATCH");
    }

    /** Phase C, with the handler of a failed write. */
    method PersistCandidates(env: Env, call: Call, units: seq<CandidateUnit>, newId: nat -> Uuid, marked: bool)
      returns (failure: Option<string>, x: Extracted)
      modifies this
      ensures (State(), failure) == Persist(env, old(State()), call, |units|, x, marked)
      ensures failure.None? ==> IsExtracted(env, Loaded(old(State()), call.document), units, newId, x)
    {
      x := Extracted([], map[]);
      failure := RecheckRun(env, call);
      if failure.Some? {
        if failure.value != "PERSISTENCE_FAILED" && failure.value != "STALE_EXTRACTION_ATTEMPT" {
          MarkRunFailed(call.run, failure.value);
        }
        return;
      }
      var pages := SortByNumber(documents[call.document].pages);
      var rows, newTasks, counts := Filter(env.rendering.hash, pages, units, newId);
      x := Extracted(rows, counts);
      if env.uniqueIndex && exists r :: r in runs && CompletedFor(runs[r], call.document, call.snapshot) {
        if marked {
          MarkRunFailed(call.run, "PERSISTENCE_FAILED");
        }
        return Some("PERSISTENCE_FAILED"), x;
      }
      WriteCandidates(call, |units|, x, newTasks);
    }

    method WriteCandidates(call: Call, received: nat, x: Extracted, newTasks: seq<NewTask>)
      requires call.run in runs && call.document in documents && TasksAre(x.rows, newTasks)
      modifies this
      ensures State() == Written(old(State()), call, received, x)
    {
      var _ := SupersedeStaleCandidates(call);
      InsertRows(call, x.rows, newTasks);
      runs := runs[call.run := runs[call.run].(status := RunCompleted, received := received, accepted := |x.rows|,
                                               issues := x.counts,
                                               written := SortByNumber(documents[call.document].pages))];
    }

    method InsertRows(call: Call, rows: seq<NewCandidate>, newTasks: seq<NewTask>)
      requires TasksAre(rows, newTasks)
      modifies this`candidates, this`tasks
      ensures candidates == AddCandidates(old(candidates), call, rows)
      ensures tasks == AddTasks(old(tasks), call, rows)
    {
      for i := 0 to |rows|
        invariant candidates == AddCandidates(old(candidates), call, rows[..i])
        invariant tasks == old(tasks)
      {
        assert rows[..i + 1][..i] == rows[..i];
        candidates := candidates[rows[i].id := CandidateOf(call, rows[i].proposal)];
      }
      assert rows[..|rows|] == rows;
      for i := 0 to |newTasks|
        invariant candidates == AddCandidates(old(candidates), call, rows)
        invariant tasks == AddTasks(old(tasks), call, rows[..i])
      {
        assert rows[..i + 1][..i] == rows[..i];
        tasks := tasks[newTasks[i].candidate := Task(call.org, newTasks[i].locator, Open, None)];
      }
    }

    method AddAudit(action: AuditAction, subject: Uuid)
      modifies this`audit
      ensures State() == ReviewDatabase.Log(old(State()), action, subject)
    {
      audit := audit + [AuditRow(action, subject)];
    }

    /**
     * `review_requirement_candidate`: decides, replays or refuses, and rolls back what a late failure
     * leaves half done.
     */
    method ReviewRequirementCandidate(env: Env, request: Request, newId: Uuid, dbFails: bool)
      returns (result: Result<Outcome, ReviewError>)
      modifies this
      ensures (State(), result) == Decide(env, old(State()), request, newId, dbFails)
    {
      if request.decision.Unsupported? {
        return Err(Failure("REVIEW_INVALID_DECISION"));
      }
      var barred := RequireReviewer(request.reviewer, request.org);
      if barred.Some? {
        AddAudit(UnauthorizedRecorded, request.candidate);
        return Err(barred.value);
      }
      if request.candidate !in candidates || candidates[request.candidate].org != request.org {
        return Err(Failure("REVIEW_CANDIDATE_NOT_FOUND"));
      }
      var candidate := candidates[request.candidate];
      if !candidate.status.Proposed? {
        result := Settled(request, candidate);
        AddAudit(ConflictRecorded, request.candidate);
        return;
      }
      result := DecideProposed(env, request, newId, dbFails);
    }

    method RequireReviewer(reviewer: Uuid, org: Uuid) returns (barred: Option<ReviewError>)
      ensures barred == Barred(State(), reviewer, org)
    {
      if reviewer !in users {
        return Some(Unauthorized(401, "REVIEW_AUTH_NO_USER"));
      }
      var user := users[reviewer];
      if !user.active {
        return Some(Unauthorized(401, "REVIEW_AUTH_INACTIVE"));
      }
      if user.org != org {
        return Some(Unauthorized(404, "REVIEW_AUTH_TENANT_MISMATCH"));
      }
      if !user.canReview {
        return Some(Unauthorized(403, "REVIEW_AUTH_NO_CAPABILITY"));
      }
      return None;
    }

    method Settled(request: Request, candidate: Candidate) returns (result: Result<Outcome, ReviewError>)
      requires request.candidate in candidates && candidate == candidates[request.candidate]
      ensures result == if candidate.status == StatusOf(request.decision)
                        then Ok(Outcome(request.candidate, candidate.status,
                                        PromotedId(requirements, request.candidate), true))
                        else Err(Failure("REVIEW_CONFLICT"))
    {
      var existing := Promoted(requirements, request.candidate);
      if candidate.status == StatusOf(request.decision) {
        return Ok(Outcome(request.candidate, candidate.status, if existing.Some? then Some(existing.value.id) else None,
                          true));
      }
      return Err(Failure("REVIEW_CONFLICT"));
    }

    method DecideProposed(env: Env, request: Request, newId: Uuid, dbFails: bool)
      returns (result: Result<Outcome, ReviewError>)
      requires !request.decision.Unsupported? && request.candidate in candidates
      modifies this
      ensures var refusal := DecisionRefusal(env, old(State()), request, dbFails);
              if refusal.Some? then State() == old(State()) && result == Err(Failure(refusal.value))
              else
                && State() == Apply(old(State()), request,
                                    ReviewedText(env, old(candidates)[request.candidate], request).value,
                                    NormalizeComment(env, request.comment).value, newId)
                && result == Ok(Outcome(request.candidate, StatusOf(request.decision),
                                        if Promotes(request.decision) then Some(newId) else None, false))
    {
      var candidate := candidates[request.candidate];
      if request.candidate !in tasks || tasks[request.candidate].org != request.org {
        return Err(Failure("REVIEW_TASK_MISSING"));
      }
      var task := tasks[request.candidate];
      var drift := RevalidateSource(env, candidate);
      if drift.Some? {
        return Err(Failure(drift.value));
      }
      var comment := NormalizeComment(env, request.comment);
      if comment.Err? {
        return Err(Failure(comment.error));
      }
      var text := ReviewedText(env, candidate, request);
      if text.Err? {
        return Err(Failure(text.error));
      }
      if request.decision.Edit? {
        candidate := candidate.(review := candidate.review.(editedText := Some(text.value)));
      }
      candidate := candidate.(status := StatusOf(request.decision),
                              review := candidate.review.(reviewer := Some(request.reviewer),
                                                          comment := comment.value));
      var savedCandidates, savedRequirements := candidates, requirements;
      candidates := candidates[request.candidate := candidate];
      if Promotes(request.decision) {
        if Promoted(requirements, request.candidate).Some? {
          candidates := savedCandidates;
          return Err(Failure("REVIEW_CONFLICT"));
        }
        requirements := requirements + [RequirementOf(newId, request.candidate, candidate, text.value)];
      }
      if dbFails {
        candidates, requirements := savedCandidates, savedRequirements;
        return Err(Failure("REVIEW_CONFLICT"));
      }
      if task.status.Open? {
        tasks := tasks[request.candidate := task.(status := TaskCompleted,
                                                  assignee := if task.assignee.Some? then task.assignee
                                                              else Some(request.reviewer))];
      }
      assert tasks == old(tasks)[request.candidate := Closed(task, request.reviewer)];
      audit := audit + [AuditRow(DecisionRecorded(request.decision), request.candidate)];
      return Ok(Outcome(request.candidate, candidate.status, if Promotes(request.decision) then Some(newId) else None,
                        false));
    }

    method RevalidateSource(env: Env, c: Candidate) returns (drift: Option<string>)
      ensures drift == Drift(env, State(), c)
    {
      var page := if c.document in documents then PageWithId(documents[c.document].pages, c.proposal.page) else None;
      if page.None? {
        return Some("REVIEW_SOURCE_DRIFT");
      }
      if c.project !in projects || projects[c.project] != c.org {
        return Some("REVIEW_SOURCE_DRIFT");
      }
      var content := page.value.content;
      if !HashHolds(env, page.value) {
        return Some("REVIEW_SOURCE_DRIFT");
      }
      if page.value.digest.value != c.proposal.pageDigest {
        return Some("REVIEW_SOURCE_DRIFT");
      }
      if c.proposal.start < 0 || c.proposal.end > |content| || c.proposal.end <= c.proposal.start {
        return Some("REVIEW_SOURCE_DRIFT");
      }
      if content[c.proposal.start..c.proposal.end] != c.proposal.evidence {
        return Some("REVIEW_SOURCE_DRIFT");
      }
      if env.rendering.hash(c.proposal.evidence) != c.proposal.evidenceDigest {
        return Some("REVIEW_SOURCE_DRIFT");
      }
      if c.run !in runs || runs[c.run].document != c.document || runs[c.run].org != c.org {
        return Some("REVIEW_RUN_NOT_APPLICABLE");
      }
      return None;
    }
  }
}
