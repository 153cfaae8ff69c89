/**
 * Extraction and review over whole runs: calls and reviews interleave freely, transaction by
 * transaction, while users and documents change underneath them.
 */
module ReviewHistory {
  import opened Basics
  import opened SnapshotEncoding
  import opened CandidateFilter
  import opened ReviewDatabase

  /** The tables and the extraction calls between their first and their last phase, by run. */
  datatype System = System(db: Db, calls: map<Uuid, Call>)

  datatype Step =
    | PutUser(user: Uuid, account: Option<User>)
    | PutDocument(document: Uuid, row: Document)
    | Begin(source: Uuid, org: Uuid, newRun: Uuid, newAttempt: Uuid)
    | Finish(run: Uuid, units: seq<CandidateUnit>, newId: nat -> Uuid, x: Extracted, marked: bool)
    | Abandon(abandoned: Uuid, recorded: bool, code: string)
    | Rule(request: Request, newRequirement: Uuid, dbFails: bool)

  /** Before any extraction: users, projects and documents only. */
  ghost predicate Initial(s: System) {
    s.calls == map[] && s.db.runs == map[] && s.db.candidates == map[] && s.db.tasks == map[] && s.db.requirements == []
  }

  ghost predicate NewRows(db: Db, rows: seq<NewCandidate>) {
    && (forall k :: 0 <= k < |rows| ==> rows[k].id !in db.candidates && rows[k].id !in db.tasks)
    && (forall j, k :: 0 <= j < k < |rows| ==> rows[j].id != rows[k].id)
  }

  function PutUserIn(db: Db, user: Uuid, account: Option<User>): Db {
    db.(users := if account.Some? then db.users[user := account.value] else db.users - {user})
  }

  function Begun(env: Env, s: System, i: Step): System
    requires i.Begin?
  {
    var (db, result) := Start(env, s.db, i.source, i.org, i.newRun, i.newAttempt);
    System(db, if result.Ok? then s.calls[i.newRun := result.value] else s.calls)
  }

  function Finished(env: Env, s: System, i: Step): System
    requires i.Finish? && i.run in s.calls
  {
    System(Persist(env, s.db, s.calls[i.run], |i.units|, i.x, i.marked).0, s.calls - {i.run})
  }

  ghost predicate Enabled(env: Env, s: System, i: Step) {
    match i
    case PutUser(_, _) => true
    case PutDocument(document, row) => document in s.db.documents ==> s.db.documents[document].project == row.project
    case Begin(_, _, run, _) => run !in s.db.runs
    case Finish(run, units, newId, x, _) =>
      && run in s.calls && s.calls[run].document in s.db.documents
      && IsExtracted(env, Loaded(s.db, s.calls[run].document), units, newId, x) && NewRows(s.db, x.rows)
    case Abandon(run, _, _) => run in s.calls
    case Rule(_, id, _) => forall r :: r in s.db.requirements ==> r.id != id
  }

  function Effect(env: Env, s: System, i: Step): System
    requires i.Finish? ==> i.run in s.calls
  {
    match i
    case PutUser(user, account) => s.(db := PutUserIn(s.db, user, account))
    case PutDocument(document, row) => s.(db := s.db.(documents := s.db.documents[document := row]))
    case Begin(_, _, _, _) => Begun(env, s, i)
    case Finish(_, _, _, _, _) => Finished(env, s, i)
    case Abandon(run, recorded, code) => System(if recorded then MarkFailed(s.db, run, code) else s.db, s.calls - {run})
    case Rule(request, id, dbFails) => s.(db := Decide(env, s.db, request, id, dbFails).0)
  }

  /** A finite run; `None` as soon as a step is not possible. */
  ghost function Exec(env: Env, s: System, steps: seq<Step>): Option<System>
    decreases |steps|
  {
    if steps == [] then Some(s)
    else
      var before := Exec(env, s, steps[..|steps| - 1]);
      if before.None? || !Enabled(env, before.value, steps[|steps| - 1]) then None
      else Some(Effect(env, before.value, steps[|steps| - 1]))
  }

  // The invariant.

  predicate Fits(c: CandidateStatus, t: TaskStatus) {
    match c
    case Proposed => t.Open?
    case Superseded => t.TaskSuperseded?
    case _ => t.TaskCompleted?
  }

  /** Every candidate has its task, and the two statuses agree. */
  ghost predicate TasksFit(db: Db) {
    && db.tasks.Keys == db.candidates.Keys
    && forall c :: c in db.candidates ==>
          db.tasks[c].org == db.candidates[c].org && Fits(db.candidates[c].status, db.tasks[c].status)
  }

  predicate IsPromoted(c: Candidate) {
    c.status.Approved? || c.status.Edited?
  }

  /** The text a promotion carries: the machine's for an approval, the reviewer's for an edit. */
  predicate TextFits(c: Candidate, text: string) {
    if c.status.Approved? then text == c.proposal.text else c.review.editedText == Some(text)
  }

  ghost predicate SourceFits(db: Db, r: Requirement) {
    && r.candidate in db.candidates && IsPromoted(db.candidates[r.candidate])
    && TextFits(db.candidates[r.candidate], r.text)
    && r.document == db.candidates[r.candidate].document && r.section == db.candidates[r.candidate].proposal.locator
    && db.candidates[r.candidate].review.reviewer.Some?
  }

  /** One requirement for every promoted candidate, none for any other. */
  ghost predicate RequirementsFit(db: Db) {
    && (forall i :: 0 <= i < |db.requirements| ==> SourceFits(db, db.requirements[i]))
    && (forall i, j :: 0 <= i < j < |db.requirements| ==> db.requirements[i].candidate != db.requirements[j].candidate)
    && (forall c :: c in db.candidates && IsPromoted(db.candidates[c]) ==> Promoted(db.requirements, c).Some?)
  }

  predicate OnPage(env: Env, page: PageRow, p: Proposal) {
    && page.id == p.page && HashHolds(env, page) && page.digest == Some(p.pageDigest)
    && 0 <= p.start < p.end <= |page.content| && page.content[p.start..p.end] == p.evidence
    && env.rendering.hash(p.evidence) == p.evidenceDigest
  }

  ghost predicate Quotes(env: Env, pages: seq<PageRow>, p: Proposal) {
    exists i :: 0 <= i < |pages| && OnPage(env, pages[i], p)
  }

  predicate Placed(db: Db, document: Uuid, project: Uuid, org: Uuid) {
    document in db.documents && db.documents[document].project == project && OwnedBy(db, project, org)
  }

  ghost predicate CandidateFits(env: Env, db: Db, c: Candidate) {
    && c.run in db.runs && db.runs[c.run].status.RunCompleted? && db.runs[c.run].document == c.document
    && db.runs[c.run].org == c.org
    && Placed(db, c.document, c.project, c.org) && Quotes(env, db.runs[c.run].written, c.proposal)
  }

  ghost predicate CandidatesFit(env: Env, db: Db) {
    forall c :: c in db.candidates ==> CandidateFits(env, db, db.candidates[c])
  }

  ghost predicate RunFits(env: Env, db: Db, r: Run) {
    && Placed(db, r.document, r.project, r.org)
    && r.snapshot == Snapshot(env.rendering, r.basis) && HashesHold(env, r.basis) && Ordered(r.basis)
    && (r.status.RunCompleted? ==>
          HashesHold(env, r.written) && Ordered(r.written) && Snapshot(env.rendering, r.written) == r.snapshot)
  }

  ghost predicate RunsFit(env: Env, db: Db) {
    forall r :: r in db.runs ==> RunFits(env, db, db.runs[r])
  }

  ghost predicate CallFits(db: Db, r: Uuid, call: Call) {
    && call.run == r && r in db.runs && db.runs[r].status.Running? && db.runs[r].attempt == call.attempt
    && db.runs[r].document == call.document && db.runs[r].org == call.org && db.runs[r].project == call.project
    && db.runs[r].snapshot == call.snapshot
  }

  ghost predicate CallsFit(s: System) {
    forall r :: r in s.calls ==> CallFits(s.db, r, s.calls[r])
  }

  predicate SameProposedDocument(c: Candidate, d: Candidate) {
    c.status.Proposed? && d.status.Proposed? && c.document == d.document
  }

  /** All open proposals of a document come from one run. */
  ghost predicate OneLiveRun(db: Db) {
    forall c, d :: c in db.candidates && d in db.candidates && SameProposedDocument(db.candidates[c], db.candidates[d])
                   ==> db.candidates[c].run == db.candidates[d].run
  }

  ghost predicate OneCompletedRun(db: Db) {
    forall r, q :: r in db.runs && q in db.runs && r != q && db.runs[r].status.RunCompleted?
                   ==> !CompletedFor(db.runs[q], db.runs[r].document, db.runs[r].snapshot)
  }

  ghost predicate ReviewInv(env: Env, s: System) {
    && TasksFit(s.db) && RequirementsFit(s.db) && CandidatesFit(env, s.db) && RunsFit(env, s.db) && CallsFit(s)
    && OneLiveRun(s.db)
    && (env.uniqueIndex ==> OneCompletedRun(s.db))
  }

  // Deciding keeps it.

  lemma {:induction false} PromotedAppends(requirements: seq<Requirement>, r: Requirement, c: Uuid)
    ensures Promoted(requirements + [r], c) ==
            if Promoted(requirements, c).Some? then Promoted(requirements, c)
            else if r.candidate == c then Some(r) else None
  {
    if requirements != [] {
      PromotedAppends(requirements[1..], r, c);
      assert (requirements + [r])[1..] == requirements[1..] + [r];
    }
  }

  lemma {:induction false} PromotedFinds(requirements: seq<Requirement>, c: Uuid)
    ensures Promoted(requirements, c).Some? ==>
              Promoted(requirements, c).value in requirements && Promoted(requirements, c).value.candidate == c
    ensures Promoted(requirements, c).None? ==> forall i :: 0 <= i < |requirements| ==> requirements[i].candidate != c
  {
    if requirements != [] {
      PromotedFinds(requirements[1..], c);
      assert requirements == [requirements[0]] + requirements[1..];
    }
  }

  lemma ApplyKeepsTasks(db: Db, request: Request, text: string, comment: Option<string>, id: Uuid)
    requires TasksFit(db) && request.candidate in db.candidates && request.candidate in db.tasks
    requires db.candidates[request.candidate].status.Proposed? && !request.decision.Unsupported?
    ensures TasksFit(Apply(db, request, text, comment, id))
  {
  }

  lemma ApplyKeepsOldSources(db: Db, request: Request, text: string, comment: Option<string>, id: Uuid)
    requires RequirementsFit(db) && request.candidate in db.candidates && request.candidate in db.tasks
    requires db.candidates[request.candidate].status.Proposed?
    ensures forall i :: 0 <= i < |db.requirements| ==>
                          SourceFits(Apply(db, request, text, comment, id), db.requirements[i])
                          && db.requirements[i].candidate != request.candidate
  {
    forall i | 0 <= i < |db.requirements|
      ensures SourceFits(Apply(db, request, text, comment, id), db.requirements[i])
      ensures db.requirements[i].candidate != request.candidate
    {
      assert SourceFits(db, db.requirements[i]);
    }
  }

  lemma ApplyKeepsRequirements(env: Env, db: Db, request: Request, comment: Option<string>, id: Uuid)
    requires RequirementsFit(db) && request.candidate in db.candidates && request.candidate in db.tasks
    requires db.candidates[request.candidate].status.Proposed? && !request.decision.Unsupported?
    requires ReviewedText(env, db.candidates[request.candidate], request).Ok?
    ensures RequirementsFit(Apply(db, request, ReviewedText(env, db.candidates[request.candidate], request).value,
                                  comment, id))
  {
    var c := db.candidates[request.candidate];
    var text := ReviewedText(env, c, request).value;
    var after := Apply(db, request, text, comment, id);
    ApplyKeepsOldSources(db, request, text, comment, id);
    forall k | k in after.candidates && IsPromoted(after.candidates[k]) ensures Promoted(after.requirements, k).Some? {
      if Promotes(request.decision) {
        PromotedAppends(db.requirements, RequirementOf(id, request.candidate, c, text), k);
      }
    }
  }

  predicate SameOrigin(c: Candidate, d: Candidate) {
    c.run == d.run && c.document == d.document && c.org == d.org && c.project == d.project && c.proposal == d.proposal
  }

  predicate SameGround(db: Db, after: Db) {
    after.runs == db.runs && after.documents == db.documents && after.projects == db.projects
  }

  lemma GroundFrame(env: Env, s: System, t: System)
    requires RunsFit(env, s.db) && CallsFit(s) && SameGround(s.db, t.db) && t.calls == s.calls
    ensures RunsFit(env, t.db) && CallsFit(t) && (OneCompletedRun(s.db) ==> OneCompletedRun(t.db))
  {
    forall r | r in t.db.runs ensures RunFits(env, t.db, t.db.runs[r]) {
      assert RunFits(env, s.db, s.db.runs[r]);
    }
    forall r | r in t.calls ensures CallFits(t.db, r, t.calls[r]) {
      assert CallFits(s.db, r, s.calls[r]);
    }
  }

  lemma CandidatesFrame(env: Env, db: Db, after: Db)
    requires CandidatesFit(env, db) && SameGround(db, after) && after.candidates.Keys == db.candidates.Keys
    requires forall c :: c in db.candidates ==> SameOrigin(db.candidates[c], after.candidates[c])
    ensures CandidatesFit(env, after)
  {
    forall c | c in after.candidates ensures CandidateFits(env, after, after.candidates[c]) {
      assert CandidateFits(env, db, db.candidates[c]);
    }
  }

  lemma LiveRunFrame(db: Db, after: Db)
    requires OneLiveRun(db) && after.candidates.Keys == db.candidates.Keys
    requires forall c :: c in db.candidates ==> SameOrigin(db.candidates[c], after.candidates[c])
                                                && (after.candidates[c].status.Proposed? ==>
                                                      db.candidates[c].status.Proposed?)
    ensures OneLiveRun(after)
  {
    forall c, d | c in after.candidates && d in after.candidates
                  && SameProposedDocument(after.candidates[c], after.candidates[d])
      ensures after.candidates[c].run == after.candidates[d].run
    {
      assert SameProposedDocument(db.candidates[c], db.candidates[d]);
    }
  }

  lemma ApplyKeepsOrigins(db: Db, request: Request, text: string, comment: Option<string>, id: Uuid)
    requires request.candidate in db.candidates && request.candidate in db.tasks && !request.decision.Unsupported?
    ensures var after := Apply(db, request, text, comment, id);
            && after.candidates.Keys == db.candidates.Keys
            && (forall c :: c in db.candidates ==> SameOrigin(db.candidates[c], after.candidates[c])
                                                   && (after.candidates[c].status.Proposed? ==>
                                                         db.candidates[c].status.Proposed?))
  {
  }

  lemma ApplyKeepsInv(env: Env, s: System, request: Request, comment: Option<string>, id: Uuid)
    requires ReviewInv(env, s) && request.candidate in s.db.candidates && !request.decision.Unsupported?
    requires s.db.candidates[request.candidate].status.Proposed?
    requires ReviewedText(env, s.db.candidates[request.candidate], request).Ok?
    ensures request.candidate in s.db.tasks
    ensures var text := ReviewedText(env, s.db.candidates[request.candidate], request).value;
            ReviewInv(env, s.(db := Apply(s.db, request, text, comment, id)))
  {
    var text := ReviewedText(env, s.db.candidates[request.candidate], request).value;
    var after := Apply(s.db, request, text, comment, id);
    ApplyKeepsTasks(s.db, request, text, comment, id);
    ApplyKeepsRequirements(env, s.db, request, comment, id);
    ApplyKeepsOrigins(s.db, request, text, comment, id);
    GroundFrame(env, s, s.(db := after));
    CandidatesFrame(env, s.db, after);
    LiveRunFrame(s.db, after);
  }

  lemma LoggingKeepsInv(env: Env, s: System, t: System)
    requires ReviewInv(env, s) && t.calls == s.calls
    requires t.db == s.db.(audit := t.db.audit, users := t.db.users)
    ensures ReviewInv(env, t)
  {
    GroundFrame(env, s, t);
    CandidatesFrame(env, s.db, t.db);
    LiveRunFrame(s.db, t.db);
    forall i | 0 <= i < |t.db.requirements| ensures SourceFits(t.db, t.db.requirements[i]) {
      assert SourceFits(s.db, s.db.requirements[i]);
    }
  }

  lemma DecisionsOnlyApply(env: Env, db: Db, request: Request, id: Uuid, dbFails: bool)
    ensures var (after, result) := Decide(env, db, request, id, dbFails);
            if result.Ok? && !result.value.replay then
              && !request.decision.Unsupported? && request.candidate in db.candidates && request.candidate in db.tasks
              && db.candidates[request.candidate].status.Proposed?
              && ReviewedText(env, db.candidates[request.candidate], request).Ok?
              && NormalizeComment(env, request.comment).Ok?
              && after == Apply(db, request, ReviewedText(env, db.candidates[request.candidate], request).value,
                                NormalizeComment(env, request.comment).value, id)
            else after == db.(audit := after.audit)
  {
  }

  lemma RuleKeepsInv(env: Env, s: System, request: Request, id: Uuid, dbFails: bool)
    requires ReviewInv(env, s)
    ensures ReviewInv(env, s.(db := Decide(env, s.db, request, id, dbFails).0))
  {
    var (after, result) := Decide(env, s.db, request, id, dbFails);
    DecisionsOnlyApply(env, s.db, request, id, dbFails);
    if result.Ok? && !result.value.replay {
      ApplyKeepsInv(env, s, request, NormalizeComment(env, request.comment).value, id);
    } else {
      LoggingKeepsInv(env, s, s.(db := after));
    }
  }
}
