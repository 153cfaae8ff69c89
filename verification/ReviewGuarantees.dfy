/** What extraction and review promise over every history of overlapping calls and reviews. */
module ReviewGuarantees {
  import opened Basics
  import opened SnapshotEncoding
  import opened CandidateFilter
  import opened ReviewDatabase
  import opened ReviewHistory
  import opened ReviewRuns

  ghost predicate HasRequirement(db: Db, c: Uuid) {
    exists i :: 0 <= i < |db.requirements| && db.requirements[i].candidate == c
  }

  /** The candidate, its task and its requirement agree. */
  ghost predicate OneStory(db: Db, c: Uuid)
    requires c in db.candidates && c in db.tasks
  {
    var status, task := db.candidates[c].status, db.tasks[c].status;
    && (status.Proposed? <==> task.Open?)
    && (status.Superseded? <==> task.TaskSuperseded?)
    && (status.Approved? || status.Edited? || status.Rejected? <==> task.TaskCompleted?)
    && (status.Approved? || status.Edited? <==> HasRequirement(db, c))
  }

  /**
   * At most one requirement a candidate, with the machine's text after an approval and the reviewer's
   * after an edit.
   */
  ghost predicate FaithfulRequirements(db: Db) {
    && (forall i, j :: 0 <= i < j < |db.requirements| ==> db.requirements[i].candidate != db.requirements[j].candidate)
    && (forall i :: 0 <= i < |db.requirements| ==> FaithfulRequirement(db, db.requirements[i]))
  }

  predicate FaithfulRequirement(db: Db, r: Requirement) {
    && r.candidate in db.candidates
    && var c := db.candidates[r.candidate];
       if c.status.Approved? then r.text == c.proposal.text else c.status.Edited? && c.review.editedText == Some(r.text)
  }

  lemma OneStoryIn(db: Db, c: Uuid)
    requires TasksFit(db) && RequirementsFit(db) && c in db.candidates
    ensures OneStory(db, c)
  {
    PromotedFinds(db.requirements, c);
    if HasRequirement(db, c) {
      var i :| 0 <= i < |db.requirements| && db.requirements[i].candidate == c;
      assert SourceFits(db, db.requirements[i]);
    }
  }

  lemma FaithfulIn(db: Db)
    requires RequirementsFit(db)
    ensures FaithfulRequirements(db)
  {
    forall i | 0 <= i < |db.requirements| ensures FaithfulRequirement(db, db.requirements[i]) {
      assert SourceFits(db, db.requirements[i]);
    }
  }

  /**
   * In every reachable state the three tables tell one story: a proposal has an open task, a human
   * decision a completed one, a superseded proposal a superseded one; and exactly the approved and
   * edited candidates have a requirement, one each, with the machine's or the reviewer's text.
   */
  lemma TablesAgree(env: Env, s: System, steps: seq<Step>)
    requires Initial(s) && Exec(env, s, steps).Some?
    ensures var db := Exec(env, s, steps).value.db;
            && db.candidates.Keys == db.tasks.Keys
            && (forall c :: c in db.candidates ==> OneStory(db, c))
            && FaithfulRequirements(db)
  {
    InvAlways(env, s, steps);
    var db := Exec(env, s, steps).value.db;
    forall c | c in db.candidates ensures OneStory(db, c) {
      OneStoryIn(db, c);
    }
    FaithfulIn(db);
  }

  /**
   * Rows are never lost, what the machine wrote is never rewritten, a settled row never changes, and
   * requirements are only added.
   */
  ghost predicate Settles(db: Db, after: Db) {
    && (forall c :: c in db.candidates ==>
          && c in after.candidates && SameOrigin(db.candidates[c], after.candidates[c])
          && (!db.candidates[c].status.Proposed? ==> after.candidates[c] == db.candidates[c])
          && (!db.candidates[c].status.Proposed? && c in db.tasks ==>
                c in after.tasks && after.tasks[c] == db.tasks[c]))
    && db.requirements <= after.requirements
  }

  lemma SettlesComposes(a: Db, b: Db, c: Db)
    requires Settles(a, b) && Settles(b, c)
    ensures Settles(a, c)
  {
    forall k | k in a.candidates && !a.candidates[k].status.Proposed? && k in a.tasks
      ensures k in c.tasks && c.tasks[k] == a.tasks[k]
    {
      assert b.candidates[k] == a.candidates[k];
    }
    forall k | k in a.candidates ensures k in c.candidates && SameOrigin(a.candidates[k], c.candidates[k]) {
      assert k in b.candidates && SameOrigin(a.candidates[k], b.candidates[k]);
      assert SameOrigin(b.candidates[k], c.candidates[k]);
    }
  }

  lemma ApplySettles(db: Db, request: Request, text: string, comment: Option<string>, id: Uuid)
    requires request.candidate in db.candidates && request.candidate in db.tasks
    requires db.candidates[request.candidate].status.Proposed?
    ensures Settles(db, Apply(db, request, text, comment, id))
  {
  }

  lemma RuleSettles(env: Env, db: Db, request: Request, id: Uuid, dbFails: bool)
    ensures Settles(db, Decide(env, db, request, id, dbFails).0)
  {
    DecisionsOnlyApply(env, db, request, id, dbFails);
    var result := Decide(env, db, request, id, dbFails).1;
    if result.Ok? && !result.value.replay {
      ApplySettles(db, request, ReviewedText(env, db.candidates[request.candidate], request).value,
                   NormalizeComment(env, request.comment).value, id);
    }
  }

  lemma WritingSettles(db: Db, after: Db, call: Call, x: Extracted)
    requires IsWritten(db, after, call, x)
    ensures Settles(db, after)
  {
    forall c | c in db.candidates
      ensures c in after.candidates && after.candidates[c] == Passed(db.candidates[c], call)
      ensures after.tasks[c] == PassedTask(db.candidates[c], db.tasks[c], call)
    {
      assert c in after.candidates;
      assert RowAfter(db, after, call, x, c);
    }
  }

  /** A phase C commits: no guard fails and the index does not object. */
  predicate Commits(env: Env, db: Db, call: Call) {
    PersistRefusal(env, db, call).None? && !ViolatesIndex(env, db, call)
  }

  /**
   * A call in flight either writes everything or leaves candidates, tasks and requirements alone and its
   * run not completed.
   */
  lemma AllOrNothing(env: Env, db: Db, call: Call, received: nat, x: Extracted, marked: bool)
    requires CallFits(db, call.run, call) && call.document in db.documents && db.tasks.Keys == db.candidates.Keys
    requires NewRows(db, x.rows)
    ensures var after := Persist(env, db, call, received, x, marked).0;
            && after.documents == db.documents
            && if Commits(env, db, call) then IsWritten(db, after, call, x)
               else SameReviewTables(db, after) && call.run in after.runs && !after.runs[call.run].status.RunCompleted?
  {
    if Commits(env, db, call) {
      WrittenIsWritten(db, call, received, x);
    }
  }

  lemma FinishIsAllOrNothing(env: Env, s: System, i: Step)
    requires ReviewInv(env, s) && i.Finish? && Enabled(env, s, i)
    ensures CallFits(s.db, i.run, s.calls[i.run])
    ensures var after := Finished(env, s, i).db;
            && after.documents == s.db.documents
            && if Commits(env, s.db, s.calls[i.run]) then IsWritten(s.db, after, s.calls[i.run], i.x)
               else SameReviewTables(s.db, after) && i.run in after.runs && !after.runs[i.run].status.RunCompleted?
  {
    assert CallFits(s.db, i.run, s.calls[i.run]);
    AllOrNothing(env, s.db, s.calls[i.run], |i.units|, i.x, i.marked);
  }

  lemma FinishSettles(env: Env, s: System, i: Step)
    requires ReviewInv(env, s) && i.Finish? && Enabled(env, s, i)
    ensures Settles(s.db, Finished(env, s, i).db)
  {
    FinishIsAllOrNothing(env, s, i);
    if Commits(env, s.db, s.calls[i.run]) {
      WritingSettles(s.db, Finished(env, s, i).db, s.calls[i.run], i.x);
    }
  }

  lemma StepSettles(env: Env, s: System, i: Step)
    requires ReviewInv(env, s) && Enabled(env, s, i)
    ensures Settles(s.db, Effect(env, s, i).db)
  {
    match i
    case PutUser(_, _) =>
    case PutDocument(_, _) =>
    case Begin(_, _, _, _) => StartAddsARun(env, s, i);
    case Finish(_, _, _, _, _) => FinishSettles(env, s, i);
    case Abandon(_, _, _) =>
    case Rule(request, id, dbFails) => RuleSettles(env, s.db, request, id, dbFails);
  }

  /**
   * From any reachable state on: a decision, its task and its requirement are final, and a machine run
   * never touches them.
   */
  lemma {:induction false} DecisionsAreFinal(env: Env, s: System, steps: seq<Step>)
    requires ReviewInv(env, s) && Exec(env, s, steps).Some?
    ensures ReviewInv(env, Exec(env, s, steps).value) && Settles(s.db, Exec(env, s, steps).value.db)
    decreases |steps|
  {
    if steps != [] {
      var before := Exec(env, s, steps[..|steps| - 1]).value;
      DecisionsAreFinal(env, s, steps[..|steps| - 1]);
      EffectKeepsInv(env, before, steps[|steps| - 1]);
      StepSettles(env, before, steps[|steps| - 1]);
      SettlesComposes(s.db, before.db, Effect(env, before, steps[|steps| - 1]).db);
    }
  }

  lemma RulingPromotes(env: Env, db: Db, request: Request, id: Uuid, dbFails: bool)
    requires Decide(env, db, request, id, dbFails).0.requirements != db.requirements
    ensures Promotes(request.decision)
    ensures request.candidate in db.candidates && db.candidates[request.candidate].status.Proposed?
    ensures request.reviewer in db.users
    ensures db.users[request.reviewer] == User(db.candidates[request.candidate].org, true, true)
    ensures |Decide(env, db, request, id, dbFails).0.requirements| == |db.requirements| + 1
  {
    DecisionsOnlyApply(env, db, request, id, dbFails);
    DecidedExactlyWhen(env, db, request, id, dbFails);
  }

  /**
   * The only way to a requirement: one review by an active reviewer of the candidate's organization, of
   * a proposal, adds one.
   */
  lemma OnlyReviewersPromote(env: Env, s: System, i: Step)
    requires ReviewInv(env, s) && Enabled(env, s, i)
    requires Effect(env, s, i).db.requirements != s.db.requirements
    ensures i.Rule? && Promotes(i.request.decision)
    ensures i.request.candidate in s.db.candidates && s.db.candidates[i.request.candidate].status.Proposed?
    ensures i.request.reviewer in s.db.users
            && s.db.users[i.request.reviewer] == User(s.db.candidates[i.request.candidate].org, true, true)
    ensures |Effect(env, s, i).db.requirements| == |s.db.requirements| + 1
  {
    match i
    case PutUser(_, _) =>
    case PutDocument(_, _) =>
    case Begin(_, _, _, _) => StartAddsARun(env, s, i);
    case Finish(_, _, _, _, _) => FinishIsAllOrNothing(env, s, i);
    case Abandon(_, _, _) =>
    case Rule(request, id, dbFails) => RulingPromotes(env, s.db, request, id, dbFails);
  }

  /**
   * In a reachable state a proposal is never without its task or its run, and nothing was promoted
   * from it yet: REVIEW_TASK_MISSING and REVIEW_RUN_NOT_APPLICABLE do not occur, and the unique
   * constraint on promotions never has to refuse.
   */
  lemma ProposalsAreComplete(env: Env, s: System, steps: seq<Step>, c: Uuid)
    requires Initial(s) && Exec(env, s, steps).Some?
    requires c in Exec(env, s, steps).value.db.candidates && Exec(env, s, steps).value.db.candidates[c].status.Proposed?
    ensures var db := Exec(env, s, steps).value.db;
            && c in db.tasks && db.tasks[c].org == db.candidates[c].org
            && db.candidates[c].run in db.runs && db.runs[db.candidates[c].run].document == db.candidates[c].document
            && db.runs[db.candidates[c].run].org == db.candidates[c].org
            && Promoted(db.requirements, c).None?
  {
    InvAlways(env, s, steps);
    var db := Exec(env, s, steps).value.db;
    assert CandidateFits(env, db, db.candidates[c]);
    OneStoryIn(db, c);
    PromotedFinds(db.requirements, c);
  }

  /**
   * A run that completed wrote from the very pages it had snapshotted, whatever was edited, inserted or
   * deleted in between.
   */
  lemma CompletedRunsReadTheirSnapshot(env: Env, s: System, steps: seq<Step>, r: Uuid)
    requires Faithful(env.rendering) && Injective(env.rendering.hash)
    requires Initial(s) && Exec(env, s, steps).Some?
    requires r in Exec(env, s, steps).value.db.runs && Exec(env, s, steps).value.db.runs[r].status.RunCompleted?
    requires SeparatorFree(Exec(env, s, steps).value.db.runs[r].basis)
    requires SeparatorFree(Exec(env, s, steps).value.db.runs[r].written)
    ensures var run := Exec(env, s, steps).value.db.runs[r];
            && Keys(run.written) == Keys(run.basis) && |run.written| == |run.basis|
            && forall i :: 0 <= i < |run.basis| ==> run.written[i].content == run.basis[i].content
  {
    InvAlways(env, s, steps);
    var db := Exec(env, s, steps).value.db;
    assert RunFits(env, db, db.runs[r]);
    HashesHoldIsHashed(env, db.runs[r].basis);
    HashesHoldIsHashed(env, db.runs[r].written);
    EqualSnapshotsMeanEqualPages(env.rendering, db.runs[r].written, db.runs[r].basis);
  }

  predicate SameText(a: seq<PageRow>, b: seq<PageRow>) {
    |a| == |b| && forall i :: 0 <= i < |a| ==> a[i].content == b[i].content
  }

  /** What is compared at commit time is the pages themselves. */
  lemma SameSnapshotMeansSamePages(env: Env, live: seq<PageRow>, basis: seq<PageRow>)
    requires Faithful(env.rendering) && Injective(env.rendering.hash)
    requires Ordered(live) && HashesHold(env, live) && SeparatorFree(live)
    requires Ordered(basis) && HashesHold(env, basis) && SeparatorFree(basis)
    ensures Snapshot(env.rendering, live) == Snapshot(env.rendering, basis) <==>
            Keys(live) == Keys(basis) && SameText(live, basis)
  {
    SortingOrderedPages(live);
    SortingOrderedPages(basis);
    if Snapshot(env.rendering, live) == Snapshot(env.rendering, basis) {
      HashesHoldIsHashed(env, live);
      HashesHoldIsHashed(env, basis);
      EqualSnapshotsMeanEqualPages(env.rendering, live, basis);
    }
  }

  /**
   * A call in flight commits exactly when its document is still COMPLETED with intact pages that are,
   * row for row and text for text, the ones it snapshotted, and the index knows no earlier completion.
   */
  lemma CommitsExactlyWhenThePagesAreUnchanged(env: Env, s: System, run: Uuid)
    requires ReviewInv(env, s) && run in s.calls && Faithful(env.rendering) && Injective(env.rendering.hash)
    requires s.calls[run].document in s.db.documents
    requires SeparatorFree(Loaded(s.db, s.calls[run].document)) && run in s.db.runs
    requires SeparatorFree(s.db.runs[run].basis)
    ensures var call := s.calls[run];
            var live, basis := Loaded(s.db, call.document), s.db.runs[run].basis;
            Commits(env, s.db, call) <==>
            && s.db.documents[call.document].completed && HashesHold(env, live)
            && Keys(live) == Keys(basis) && SameText(live, basis)
            && !(env.uniqueIndex && AlreadyCompleted(s.db, call.document, call.snapshot))
  {
    var call := s.calls[run];
    assert CallFits(s.db, run, call) && RunFits(env, s.db, s.db.runs[run]);
    SortingOrders(s.db.documents[call.document].pages);
    if HashesHold(env, Loaded(s.db, call.document)) {
      SameSnapshotMeansSamePages(env, Loaded(s.db, call.document), s.db.runs[run].basis);
    }
  }

  lemma HashesHoldIsHashed(env: Env, pages: seq<PageRow>)
    requires HashesHold(env, pages)
    ensures Hashed(env.rendering, pages)
  {
    forall i | 0 <= i < |pages| ensures pages[i].digest == Some(env.rendering.hash(pages[i].content)) {
      assert HashHolds(env, pages[i]);
    }
  }

  predicate OpenProposalsBelongTo(db: Db, document: Uuid, run: Uuid) {
    forall c :: c in db.candidates && db.candidates[c].document == document && db.candidates[c].status.Proposed? ==>
      db.candidates[c].run == run
  }

  /** Old candidates keep everything, but for open proposals that become superseded. */
  predicate OnlySuperseded(db: Db, after: Db) {
    forall c :: c in db.candidates ==> c in after.candidates
                                       && (after.candidates[c] == db.candidates[c]
                                           || (db.candidates[c].status.Proposed?
                                               && after.candidates[c] == db.candidates[c].(status := Superseded)))
  }

  lemma WritingOwnsTheOpenProposals(env: Env, db: Db, after: Db, call: Call, x: Extracted)
    requires CandidatesFit(env, db) && RunsFit(env, db) && IsWritten(db, after, call, x) && CallFits(db, call.run, call)
    ensures OpenProposalsBelongTo(after, call.document, call.run)
  {
    forall c | c in after.candidates && after.candidates[c].document == call.document
               && after.candidates[c].status.Proposed?
      ensures after.candidates[c].run == call.run
    {
      NoStaleProposalIsLeft(env, db, after, call, x, c);
    }
  }

  lemma WritingOnlySupersedes(db: Db, after: Db, call: Call, x: Extracted)
    requires IsWritten(db, after, call, x)
    ensures OnlySuperseded(db, after)
  {
    forall c | c in db.candidates
      ensures c in after.candidates && after.candidates[c] == Passed(db.candidates[c], call)
    {
      assert c in after.candidates;
      assert RowAfter(db, after, call, x, c);
    }
  }

  /**
   * Committing a run leaves the document's open proposals to that run alone, and touches no decision and
   * no requirement.
   */
  lemma ACompletedRunOwnsTheOpenProposals(env: Env, s: System, i: Step)
    requires ReviewInv(env, s) && i.Finish? && Enabled(env, s, i) && Commits(env, s.db, s.calls[i.run])
    ensures var after := Finished(env, s, i).db;
            && OpenProposalsBelongTo(after, s.calls[i.run].document, i.run)
            && OnlySuperseded(s.db, after)
            && after.requirements == s.db.requirements
            && after.runs[i.run].status.RunCompleted?
  {
    FinishIsAllOrNothing(env, s, i);
    WritingOwnsTheOpenProposals(env, s.db, Finished(env, s, i).db, s.calls[i.run], i.x);
    WritingOnlySupersedes(s.db, Finished(env, s, i).db, s.calls[i.run], i.x);
  }

  /** With the index on completed runs, a snapshot of a document is completed at most once. */
  lemma AtMostOneCompletedRun(env: Env, s: System, steps: seq<Step>, r: Uuid, q: Uuid)
    requires env.uniqueIndex && Initial(s) && Exec(env, s, steps).Some?
    requires var runs := Exec(env, s, steps).value.db.runs;
             r in runs && q in runs && runs[r].status.RunCompleted? && runs[q].status.RunCompleted?
             && runs[r].document == runs[q].document && runs[r].snapshot == runs[q].snapshot
    ensures r == q
  {
    InvAlways(env, s, steps);
  }

  lemma AfterTheFirstOfTwo(env: Env, db: Db, mid: Db, x: Extracted, first: Call, second: Call)
    requires CallFits(db, first.run, first) && CallFits(mid, second.run, second) && IsWritten(db, mid, first, x)
    requires first.document == second.document && first.snapshot == second.snapshot
    requires Commits(env, db, first)
    ensures Commits(env, mid, second) <==> !env.uniqueIndex
  {
    assert CompletedFor(mid.runs[first.run], second.document, second.snapshot);
    assert mid.documents == db.documents;
    assert PersistRefusal(env, mid, second).None?;
  }

  /**
   * Without the index the check of the first phase is not enough: of two calls in flight over the
   * same pages, the second still commits after the first exactly when there is no index.
   */
  lemma OverlappingRunsBothComplete(env: Env, s: System, i: Step, second: Uuid)
    requires ReviewInv(env, s) && i.Finish? && Enabled(env, s, i) && Commits(env, s.db, s.calls[i.run])
    requires second in s.calls && second != i.run
    requires s.calls[i.run].document == s.calls[second].document && s.calls[i.run].snapshot == s.calls[second].snapshot
    ensures Finished(env, s, i).db.runs[i.run].status.RunCompleted?
    ensures Commits(env, Finished(env, s, i).db, s.calls[second]) <==> !env.uniqueIndex
  {
    FinishIsAllOrNothing(env, s, i);
    FinishKeepsInv(env, s, i);
    var mid := Finished(env, s, i);
    assert second in mid.calls && CallFits(mid.db, second, mid.calls[second]);
    AfterTheFirstOfTwo(env, s.db, mid.db, i.x, s.calls[i.run], s.calls[second]);
  }

  /**
   * And two such calls do get in flight: while the first run is not completed, nothing stops a second
   * start over the same pages.
   */
  lemma ASecondCallStarts(env: Env, db: Db, document: Uuid, org: Uuid, first: Uuid, attempt: Uuid, second: Uuid,
                          other: Uuid)
    requires Start(env, db, document, org, first, attempt).1.Ok? && first !in db.runs && second != first
    ensures var mid := Start(env, db, document, org, first, attempt);
            var last := Start(env, mid.0, document, org, second, other);
            last.1.Ok? && last.1.value.document == mid.1.value.document && last.1.value.snapshot == mid.1.value.snapshot
  {
  }

  lemma {:induction false} PageWithIdHasIt(pages: seq<PageRow>, id: Uuid)
    requires PageWithId(pages, id).Some?
    ensures PageWithId(pages, id).value.id == id
  {
    if pages[0].id != id { PageWithIdHasIt(pages[1..], id); }
  }

  lemma NoDriftMeansOnPage(env: Env, db: Db, c: Candidate)
    requires Drift(env, db, c).None?
    ensures SourcePage(db, c).Some? && OnPage(env, SourcePage(db, c).value, c.proposal)
  {
    PageWithIdHasIt(db.documents[c.document].pages, c.proposal.page);
  }

  /** The page the extractor quoted had this text. */
  ghost predicate ExtractedFrom(db: Db, c: Candidate, content: string) {
    c.run in db.runs && exists i :: 0 <= i < |db.runs[c.run].written| && db.runs[c.run].written[i].id == c.proposal.page
                                    && db.runs[c.run].written[i].content == content
  }

  lemma NoDriftMeansUnchanged(env: Env, db: Db, c: Candidate)
    requires Injective(env.rendering.hash) && Drift(env, db, c).None? && c.run in db.runs
    requires Quotes(env, db.runs[c.run].written, c.proposal)
    ensures SourcePage(db, c).Some? && ExtractedFrom(db, c, SourcePage(db, c).value.content)
    ensures OnPage(env, SourcePage(db, c).value, c.proposal)
  {
    NoDriftMeansOnPage(env, db, c);
    var i :| 0 <= i < |db.runs[c.run].written| && OnPage(env, db.runs[c.run].written[i], c.proposal);
    assert env.rendering.hash(db.runs[c.run].written[i].content) == env.rendering.hash(SourcePage(db, c).value.content);
  }

  /**
   * What a reviewer decides on is what the extractor saw: the live page has the text it had then, and
   * the evidence is its slice.
   */
  lemma DecisionsRestOnTheExtractedPage(env: Env, s: System, request: Request, id: Uuid, dbFails: bool)
    requires ReviewInv(env, s) && Injective(env.rendering.hash)
    requires Decide(env, s.db, request, id, dbFails).1.Ok? && !Decide(env, s.db, request, id, dbFails).1.value.replay
    ensures request.candidate in s.db.candidates
    ensures var c := s.db.candidates[request.candidate];
            && SourcePage(s.db, c).Some? && ExtractedFrom(s.db, c, SourcePage(s.db, c).value.content)
            && OnPage(env, SourcePage(s.db, c).value, c.proposal)
  {
    DecidedExactlyWhen(env, s.db, request, id, dbFails);
    var c := s.db.candidates[request.candidate];
    assert CandidateFits(env, s.db, c);
    NoDriftMeansUnchanged(env, s.db, c);
  }
}
