/** Extraction runs keep the invariant of the review tables, and what that means over whole histories. */
module ReviewRuns {
  import opened Basics
  import opened SnapshotEncoding
  import opened CandidateFilter
  import opened ReviewDatabase
  import opened ReviewHistory

  ghost predicate IsNewRow(rows: seq<NewCandidate>, c: Uuid) {
    exists k :: 0 <= k < |rows| && rows[k].id == c
  }

  lemma LastRowIsNew(rows: seq<NewCandidate>, c: Uuid)
    requires rows != []
    ensures IsNewRow(rows, c) <==> IsNewRow(rows[..|rows| - 1], c) || rows[|rows| - 1].id == c
  {
    var n := |rows| - 1;
    if IsNewRow(rows[..n], c) {
      var k :| 0 <= k < n && rows[..n][k].id == c;
      assert rows[k].id == c;
    }
    if IsNewRow(rows, c) && rows[n].id != c {
      var k :| 0 <= k < |rows| && rows[k].id == c;
      assert rows[..n][k].id == c;
    }
  }

  lemma {:induction false} AddingRows(candidates: map<Uuid, Candidate>, call: Call, rows: seq<NewCandidate>)
    requires forall j, k :: 0 <= j < k < |rows| ==> rows[j].id != rows[k].id
    ensures forall c :: c in AddCandidates(candidates, call, rows) <==> c in candidates || IsNewRow(rows, c)
    ensures forall c :: c in candidates && !IsNewRow(rows, c) ==>
              AddCandidates(candidates, call, rows)[c] == candidates[c]
    ensures forall k :: 0 <= k < |rows| ==> rows[k].id in AddCandidates(candidates, call, rows)
                                            && AddCandidates(candidates, call, rows)[rows[k].id]
                                               == CandidateOf(call, rows[k].proposal)
    decreases |rows|
  {
    if rows != [] {
      AddingRows(candidates, call, rows[..|rows| - 1]);
      forall c ensures IsNewRow(rows, c) <==> IsNewRow(rows[..|rows| - 1], c) || rows[|rows| - 1].id == c {
        LastRowIsNew(rows, c);
      }
    }
  }

  lemma {:induction false} AddingTasks(tasks: map<Uuid, Task>, call: Call, rows: seq<NewCandidate>)
    requires forall j, k :: 0 <= j < k < |rows| ==> rows[j].id != rows[k].id
    ensures forall c :: c in AddTasks(tasks, call, rows) <==> c in tasks || IsNewRow(rows, c)
    ensures forall c :: c in tasks && !IsNewRow(rows, c) ==> AddTasks(tasks, call, rows)[c] == tasks[c]
    ensures forall k :: 0 <= k < |rows| ==> rows[k].id in AddTasks(tasks, call, rows)
                                            && AddTasks(tasks, call, rows)[rows[k].id] == Task(call.org,
                                                  rows[k].proposal.locator, Open, None)
    decreases |rows|
  {
    if rows != [] {
      AddingTasks(tasks, call, rows[..|rows| - 1]);
      forall c ensures IsNewRow(rows, c) <==> IsNewRow(rows[..|rows| - 1], c) || rows[|rows| - 1].id == c {
        LastRowIsNew(rows, c);
      }
    }
  }

  /** What superseding leaves of a candidate and of its task. */
  function Passed(c: Candidate, call: Call): Candidate {
    if Stale(c, call) then c.(status := Superseded) else c
  }

  function PassedTask(c: Candidate, t: Task, call: Call): Task {
    if Stale(c, call) && t.org == call.org && t.status.Open? then t.(status := TaskSuperseded) else t
  }

  predicate Superseding(db: Db, after: Db, call: Call)
    requires db.tasks.Keys == db.candidates.Keys
  {
    && after.candidates.Keys == db.candidates.Keys && after.tasks.Keys == db.tasks.Keys
    && (forall c :: c in db.candidates ==> after.candidates[c] == Passed(db.candidates[c], call))
    && (forall c :: c in db.candidates ==> after.tasks[c] == PassedTask(db.candidates[c], db.tasks[c], call))
  }

  lemma SupersedingStale(db: Db, after: Db, call: Call)
    requires db.tasks.Keys == db.candidates.Keys
    requires after.candidates == SupersedeAll(db.candidates, StaleIds(db, call)) && after.tasks == CloseAll(db.tasks,
          StaleIds(db, call), call.org)
    ensures Superseding(db, after, call)
  {
    StaleMeaning(db, call);
  }

  lemma SupersedeMeaning(db: Db, call: Call)
    requires db.tasks.Keys == db.candidates.Keys
    ensures Superseding(db, Supersede(db, call), call)
  {
    StaleMeaning(db, call);
    if StaleIds(db, call) != {} {
      SupersedingStale(db, Supersede(db, call), call);
    } else {
      forall c | c in db.candidates ensures !Stale(db.candidates[c], call) {
        assert c !in StaleIds(db, call);
      }
    }
  }

  lemma StaleMeaning(db: Db, call: Call)
    ensures forall c :: c in db.candidates ==> (c in StaleIds(db, call) <==> Stale(db.candidates[c], call))
  {
  }

  /** One row after a committed phase C: an old one, perhaps superseded, or a new one with its open task. */
  ghost predicate RowAfter(db: Db, after: Db, call: Call, x: Extracted, c: Uuid)
    requires db.tasks.Keys == db.candidates.Keys && c in after.candidates && c in after.tasks
  {
    if c in db.candidates then
      after.candidates[c] == Passed(db.candidates[c], call)
      && after.tasks[c] == PassedTask(db.candidates[c], db.tasks[c], call)
    else exists k :: 0 <= k < |x.rows| && x.rows[k].id == c
                     && after.candidates[c] == CandidateOf(call, x.rows[k].proposal)
                     && after.tasks[c] == Task(call.org, x.rows[k].proposal.locator, Open, None)
  }

  /** The tables after a committed phase C, row by row. */
  ghost predicate IsWritten(db: Db, after: Db, call: Call, x: Extracted) {
    && db.tasks.Keys == db.candidates.Keys
    && after.requirements == db.requirements && after.documents == db.documents && after.projects == db.projects
    && db.candidates.Keys <= after.candidates.Keys && after.tasks.Keys == after.candidates.Keys
    && (forall c :: c in after.candidates ==> RowAfter(db, after, call, x, c))
    && call.run in db.runs && call.document in db.documents && after.runs.Keys == db.runs.Keys
    && (forall r :: r in db.runs && r != call.run ==> after.runs[r] == db.runs[r])
    && after.runs[call.run].status.RunCompleted? && after.runs[call.run].written == Loaded(db, call.document)
    && after.runs[call.run].document == db.runs[call.run].document && after.runs[call.run].org == db.runs[call.run].org
    && after.runs[call.run].project == db.runs[call.run].project
    && after.runs[call.run].snapshot == db.runs[call.run].snapshot
    && after.runs[call.run].basis == db.runs[call.run].basis
  }

  /** Superseding first and adding the new rows then gives every row its place. */
  lemma AddedToCleared(db: Db, cleared: Db, after: Db, call: Call, x: Extracted)
    requires db.tasks.Keys == db.candidates.Keys && NewRows(db, x.rows) && Superseding(db, cleared, call)
    requires after.candidates == AddCandidates(cleared.candidates, call, x.rows)
    requires after.tasks == AddTasks(cleared.tasks, call, x.rows)
    ensures db.candidates.Keys <= after.candidates.Keys && after.tasks.Keys == after.candidates.Keys
    ensures forall c :: c in after.candidates ==> RowAfter(db, after, call, x, c)
  {
    AddingRows(cleared.candidates, call, x.rows);
    AddingTasks(cleared.tasks, call, x.rows);
    forall c | c in after.candidates ensures RowAfter(db, after, call, x, c) {
      if c !in db.candidates {
        var k :| 0 <= k < |x.rows| && x.rows[k].id == c;
      }
    }
  }

  lemma SupersedeKeepsRest(db: Db, call: Call)
    ensures var cleared := Supersede(db, call);
            cleared.requirements == db.requirements && cleared.documents == db.documents
            && cleared.projects == db.projects
  {
  }

  lemma WrittenFrom(db: Db, cleared: Db, after: Db, call: Call, received: nat, x: Extracted)
    requires call.run in db.runs && call.document in db.documents && db.tasks.Keys == db.candidates.Keys
    requires NewRows(db, x.rows)
    requires Superseding(db, cleared, call)
    requires cleared.requirements == db.requirements && cleared.documents == db.documents
    requires cleared.projects == db.projects
    requires after == cleared.(candidates := AddCandidates(cleared.candidates, call, x.rows),
                               tasks := AddTasks(cleared.tasks, call, x.rows), runs := after.runs)
    requires after.runs == db.runs[call.run := db.runs[call.run].(status := RunCompleted, received := received,
                                                                  accepted := |x.rows|, issues := x.counts,
                                                                  written := Loaded(db, call.document))]
    ensures IsWritten(db, after, call, x)
  {
    AddedToCleared(db, cleared, after, call, x);
  }

  lemma WrittenIsWritten(db: Db, call: Call, received: nat, x: Extracted)
    requires call.run in db.runs && call.document in db.documents && db.tasks.Keys == db.candidates.Keys
    requires NewRows(db, x.rows)
    ensures IsWritten(db, Written(db, call, received, x), call, x)
  {
    SupersedeMeaning(db, call);
    SupersedeKeepsRest(db, call);
    WrittenFrom(db, Supersede(db, call), Written(db, call, received, x), call, received, x);
  }

  predicate IsOpenFromAnotherRun(c: Candidate, call: Call) {
    c.org == call.org && c.document == call.document && c.run != call.run && c.status == Proposed
  }

  function StaleRows(db: Db, call: Call): set<Uuid> {
    set c | c in db.candidates && IsOpenFromAnotherRun(db.candidates[c], call)
  }

  /** The rows that were there: an open proposal of an earlier run is superseded with its open task. */
  ghost predicate OldRowsAre(db: Db, after: Db, call: Call) {
    forall c :: c in db.candidates && c in db.tasks ==>
      && c in after.candidates && c in after.tasks
      && after.candidates[c] == (if c in StaleRows(db, call) then db.candidates[c].(status := Superseded)
                                 else db.candidates[c])
      && after.tasks[c] == (if c in StaleRows(db, call) && db.tasks[c].org == call.org && db.tasks[c].status == Open
                            then db.tasks[c].(status := TaskSuperseded) else db.tasks[c])
  }

  /** The rows that were not: an open proposal of this run with its open task for each one extracted. */
  ghost predicate NewRowsAre(db: Db, after: Db, call: Call, x: Extracted) {
    && (forall k :: 0 <= k < |x.rows| ==>
          && x.rows[k].id in after.candidates && x.rows[k].id in after.tasks
          && after.candidates[x.rows[k].id] == Candidate(call.org, call.project, call.run, call.document,
                                                         x.rows[k].proposal, Proposed, Review(None, None, None))
          && after.tasks[x.rows[k].id] == Task(call.org, x.rows[k].proposal.locator, Open, None))
    && (forall c :: c in after.candidates && c !in db.candidates ==> IsNewRow(x.rows, c))
  }

  lemma SupersededRows(db: Db, call: Call)
    requires db.tasks.Keys == db.candidates.Keys
    ensures OldRowsAre(db, Supersede(db, call), call)
    ensures Supersede(db, call).candidates.Keys == db.candidates.Keys
    ensures Supersede(db, call).tasks.Keys == db.candidates.Keys
    ensures Supersede(db, call) == db.(candidates := Supersede(db, call).candidates, tasks := Supersede(db, call).tasks,
                                       audit := db.audit + if StaleRows(db, call) == {} then []
                                                           else [AuditRow(SupersedeRecorded(|StaleRows(db, call)|),
                                                                          call.run)])
  {
    assert StaleRows(db, call) == StaleIds(db, call);
    SupersedeMeaning(db, call);
  }

  lemma AddedRows(db: Db, cleared: Db, after: Db, call: Call, x: Extracted)
    requires db.tasks.Keys == db.candidates.Keys && NewRows(db, x.rows) && OldRowsAre(db, cleared, call)
    requires cleared.candidates.Keys == db.candidates.Keys == cleared.tasks.Keys
    requires after.candidates == AddCandidates(cleared.candidates, call, x.rows)
    requires after.tasks == AddTasks(cleared.tasks, call, x.rows)
    ensures OldRowsAre(db, after, call) && NewRowsAre(db, after, call, x)
  {
    AddingRows(cleared.candidates, call, x.rows);
    AddingTasks(cleared.tasks, call, x.rows);
    forall c | c in db.candidates ensures !IsNewRow(x.rows, c) {
    }
  }

  /**
   * What a committed phase C does to the rows: earlier runs' open proposals of the document and their open
   * tasks are superseded, told in one audit row if there are any; every extracted row becomes an open
   * proposal of this run with an open task; nothing else is written but the run's own row.
   */
  lemma WhatAFinishWrites(db: Db, call: Call, received: nat, x: Extracted)
    requires call.run in db.runs && call.document in db.documents && db.tasks.Keys == db.candidates.Keys
    requires NewRows(db, x.rows)
    ensures var after, stale := Written(db, call, received, x), StaleRows(db, call);
            && after == db.(candidates := after.candidates, tasks := after.tasks, runs := after.runs,
                            audit := db.audit + if stale == {} then []
                                                else [AuditRow(SupersedeRecorded(|stale|), call.run)])
            && OldRowsAre(db, after, call) && NewRowsAre(db, after, call, x)
  {
    SupersededRows(db, call);
    AddedRows(db, Supersede(db, call), Written(db, call, received, x), call, x);
  }

  lemma WritingKeepsTasks(db: Db, after: Db, call: Call, x: Extracted)
    requires TasksFit(db) && IsWritten(db, after, call, x)
    ensures TasksFit(after)
  {
    forall c | c in after.candidates
      ensures after.tasks[c].org == after.candidates[c].org && Fits(after.candidates[c].status, after.tasks[c].status)
    {
      assert RowAfter(db, after, call, x, c);
    }
  }

  lemma WritingKeepsRequirements(db: Db, after: Db, call: Call, x: Extracted)
    requires RequirementsFit(db) && IsWritten(db, after, call, x)
    ensures RequirementsFit(after)
  {
    forall i | 0 <= i < |after.requirements| ensures SourceFits(after, after.requirements[i]) {
      assert SourceFits(db, db.requirements[i]);
      assert RowAfter(db, after, call, x, db.requirements[i].candidate);
    }
    forall c | c in after.candidates && IsPromoted(after.candidates[c]) ensures Promoted(after.requirements, c).Some? {
      assert RowAfter(db, after, call, x, c);
    }
  }

  lemma {:induction false} PageForIsAPage(pages: seq<PageRow>, sequence: int)
    requires PageFor(pages, sequence).Some?
    ensures exists i :: 0 <= i < |pages| && pages[i] == PageFor(pages, sequence).value
    decreases |pages|
  {
    var n := |pages| - 1;
    if pages[n].number != sequence {
      PageForIsAPage(pages[..n], sequence);
      var i :| 0 <= i < n && pages[..n][i] == PageFor(pages[..n], sequence).value;
      assert pages[i] == PageFor(pages, sequence).value;
    }
  }

  lemma ExtractedRowsQuote(env: Env, pages: seq<PageRow>, units: seq<CandidateUnit>, newId: nat -> Uuid, x: Extracted,
                           k: nat)
    requires IsExtracted(env, pages, units, newId, x) && HashesHold(env, pages) && k < |x.rows|
    ensures Quotes(env, pages, x.rows[k].proposal)
  {
    var u := units[Chosen(pages, units, |units|)[k]];
    PageForIsAPage(pages, u.sequence);
    var i :| 0 <= i < |pages| && pages[i] == PageFor(pages, u.sequence).value;
    assert HashHolds(env, pages[i]);
    assert OnPage(env, pages[i], x.rows[k].proposal);
  }

  lemma WrittenCandidateFits(env: Env, db: Db, after: Db, call: Call, x: Extracted, c: Uuid)
    requires CandidatesFit(env, db) && IsWritten(db, after, call, x) && CallFits(db, call.run, call)
    requires c in after.candidates
    requires Placed(db, call.document, call.project, call.org)
    requires forall k :: 0 <= k < |x.rows| ==> Quotes(env, Loaded(db, call.document), x.rows[k].proposal)
    ensures CandidateFits(env, after, after.candidates[c])
  {
    assert RowAfter(db, after, call, x, c);
    if c in db.candidates {
      assert CandidateFits(env, db, db.candidates[c]);
    }
  }

  lemma WritingKeepsCandidates(env: Env, db: Db, after: Db, call: Call, x: Extracted)
    requires CandidatesFit(env, db) && RunsFit(env, db) && IsWritten(db, after, call, x) && CallFits(db, call.run, call)
    requires forall k :: 0 <= k < |x.rows| ==> Quotes(env, Loaded(db, call.document), x.rows[k].proposal)
    ensures CandidatesFit(env, after)
  {
    assert RunFits(env, db, db.runs[call.run]);
    forall c | c in after.candidates ensures CandidateFits(env, after, after.candidates[c]) {
      WrittenCandidateFits(env, db, after, call, x, c);
    }
  }

  lemma WritingKeepsRuns(env: Env, s: System, after: Db, call: Call, x: Extracted)
    requires RunsFit(env, s.db) && CallsFit(s) && IsWritten(s.db, after, call, x) && CallFits(s.db, call.run, call)
    requires HashesHold(env, Loaded(s.db, call.document))
    requires Snapshot(env.rendering, Loaded(s.db, call.document)) == call.snapshot
    ensures RunsFit(env, after) && CallsFit(System(after, s.calls - {call.run}))
  {
    SortingOrders(s.db.documents[call.document].pages);
    forall r | r in after.runs ensures RunFits(env, after, after.runs[r]) {
      assert RunFits(env, s.db, s.db.runs[r]);
    }
    forall r | r in s.calls - {call.run} ensures CallFits(after, r, s.calls[r]) {
      assert CallFits(s.db, r, s.calls[r]);
    }
  }

  lemma NoStaleProposalIsLeft(env: Env, db: Db, after: Db, call: Call, x: Extracted, c: Uuid)
    requires CandidatesFit(env, db) && RunsFit(env, db) && IsWritten(db, after, call, x) && CallFits(db, call.run, call)
    requires c in after.candidates && after.candidates[c].document == call.document
    requires after.candidates[c].status.Proposed?
    ensures after.candidates[c].run == call.run
  {
    assert RowAfter(db, after, call, x, c);
    if c in db.candidates {
      assert RunFits(env, db, db.runs[call.run]);
      assert CandidateFits(env, db, db.candidates[c]);
    }
  }

  /** After the commit, every open proposal of the document belongs to this run. */
  lemma WritingLeavesOneLiveRun(env: Env, db: Db, after: Db, call: Call, x: Extracted)
    requires CandidatesFit(env, db) && RunsFit(env, db) && OneLiveRun(db) && IsWritten(db, after, call, x)
    requires CallFits(db, call.run, call)
    ensures OneLiveRun(after)
  {
    forall c, d | c in after.candidates && d in after.candidates
                  && SameProposedDocument(after.candidates[c], after.candidates[d])
      ensures after.candidates[c].run == after.candidates[d].run
    {
      if after.candidates[c].document == call.document {
        NoStaleProposalIsLeft(env, db, after, call, x, c);
        NoStaleProposalIsLeft(env, db, after, call, x, d);
      } else {
        ElsewhereProposalsStay(db, after, call, x, c);
        ElsewhereProposalsStay(db, after, call, x, d);
        assert SameProposedDocument(db.candidates[c], db.candidates[d]);
      }
    }
  }

  lemma ElsewhereProposalsStay(db: Db, after: Db, call: Call, x: Extracted, c: Uuid)
    requires IsWritten(db, after, call, x) && c in after.candidates && after.candidates[c].document != call.document
    ensures c in db.candidates && after.candidates[c] == db.candidates[c]
  {
    assert RowAfter(db, after, call, x, c);
  }

  lemma WritingKeepsOneCompleted(db: Db, after: Db, call: Call, x: Extracted)
    requires OneCompletedRun(db) && IsWritten(db, after, call, x) && CallFits(db, call.run, call)
    requires !AlreadyCompleted(db, call.document, call.snapshot)
    ensures OneCompletedRun(after)
  {
    forall r, q | r in after.runs && q in after.runs && r != q && after.runs[r].status.RunCompleted?
      ensures !CompletedFor(after.runs[q], after.runs[r].document, after.runs[r].snapshot)
    {
      if r == call.run {
        assert !CompletedFor(db.runs[q], call.document, call.snapshot);
      } else if q == call.run {
        assert !CompletedFor(db.runs[r], call.document, call.snapshot);
      }
    }
  }

  lemma WritingKeepsInv(env: Env, s: System, call: Call, units: seq<CandidateUnit>, newId: nat -> Uuid, x: Extracted)
    requires ReviewInv(env, s) && call.run in s.calls && s.calls[call.run] == call
    requires PersistRefusal(env, s.db, call).None? && !ViolatesIndex(env, s.db, call)
    requires IsExtracted(env, Loaded(s.db, call.document), units, newId, x) && NewRows(s.db, x.rows)
    ensures ReviewInv(env, System(Written(s.db, call, |units|, x), s.calls - {call.run}))
  {
    var after := Written(s.db, call, |units|, x);
    assert CallFits(s.db, call.run, call);
    WrittenIsWritten(s.db, call, |units|, x);
    forall k | 0 <= k < |x.rows| ensures Quotes(env, Loaded(s.db, call.document), x.rows[k].proposal) {
      ExtractedRowsQuote(env, Loaded(s.db, call.document), units, newId, x, k);
    }
    AllPartsFit(env, s, after, call, x);
  }

  lemma AllPartsFit(env: Env, s: System, after: Db, call: Call, x: Extracted)
    requires ReviewInv(env, s) && CallFits(s.db, call.run, call) && IsWritten(s.db, after, call, x)
    requires PersistRefusal(env, s.db, call).None? && !ViolatesIndex(env, s.db, call)
    requires forall k :: 0 <= k < |x.rows| ==> Quotes(env, Loaded(s.db, call.document), x.rows[k].proposal)
    ensures ReviewInv(env, System(after, s.calls - {call.run}))
  {
    WritingKeepsTasks(s.db, after, call, x);
    WritingKeepsRequirements(s.db, after, call, x);
    WritingKeepsCandidates(env, s.db, after, call, x);
    WritingKeepsRuns(env, s, after, call, x);
    WritingLeavesOneLiveRun(env, s.db, after, call, x);
    if env.uniqueIndex {
      WritingKeepsOneCompleted(s.db, after, call, x);
    }
  }

  /** Documents stay in their projects, and the runs that candidates refer to stay as they are. */
  ghost predicate GroundKept(db: Db, after: Db) {
    && after.projects == db.projects
    && (forall d :: d in db.documents ==> d in after.documents && after.documents[d].project == db.documents[d].project)
    && (forall r :: r in db.runs && db.runs[r].status.RunCompleted? ==> r in after.runs && after.runs[r] == db.runs[r])
  }

  predicate SameReviewTables(db: Db, after: Db) {
    after.candidates == db.candidates && after.tasks == db.tasks && after.requirements == db.requirements
  }

  lemma GroundedCandidates(env: Env, db: Db, after: Db)
    requires CandidatesFit(env, db) && GroundKept(db, after) && after.candidates == db.candidates
    ensures CandidatesFit(env, after)
  {
    forall c | c in after.candidates ensures CandidateFits(env, after, after.candidates[c]) {
      assert CandidateFits(env, db, db.candidates[c]);
    }
  }

  lemma SameTablesFit(db: Db, after: Db)
    requires TasksFit(db) && RequirementsFit(db) && OneLiveRun(db) && SameReviewTables(db, after)
    ensures TasksFit(after) && RequirementsFit(after) && OneLiveRun(after)
  {
    forall i | 0 <= i < |after.requirements| ensures SourceFits(after, after.requirements[i]) {
      assert SourceFits(db, db.requirements[i]);
    }
  }

  /** Runs keep what they are bound to; at most their status moves, and not away from COMPLETED. */
  lemma GroundedRuns(env: Env, db: Db, after: Db)
    requires RunsFit(env, db) && GroundKept(db, after) && after.runs.Keys == db.runs.Keys
    requires forall r :: r in db.runs ==> after.runs[r] == db.runs[r].(status := after.runs[r].status)
    requires forall r :: r in db.runs && after.runs[r].status.RunCompleted? ==> db.runs[r].status.RunCompleted?
    ensures RunsFit(env, after) && (OneCompletedRun(db) ==> OneCompletedRun(after))
  {
    forall r | r in after.runs ensures RunFits(env, after, after.runs[r]) {
      assert RunFits(env, db, db.runs[r]);
    }
  }

  lemma GroundedCalls(s: System, t: System)
    requires CallsFit(s)
    requires forall r :: r in t.calls ==>
               r in s.calls && t.calls[r] == s.calls[r] && r in t.db.runs && t.db.runs[r] == s.db.runs[r]
    ensures CallsFit(t)
  {
    forall r | r in t.calls ensures CallFits(t.db, r, t.calls[r]) {
      assert CallFits(s.db, r, s.calls[r]);
    }
  }

  /** Nothing but documents and the status of unfinished runs moves. */
  ghost predicate GroundMoves(s: System, t: System) {
    && SameReviewTables(s.db, t.db) && GroundKept(s.db, t.db) && t.db.runs.Keys == s.db.runs.Keys
    && (forall r :: r in s.db.runs ==> t.db.runs[r] == s.db.runs[r].(status := t.db.runs[r].status))
    && (forall r :: r in s.db.runs && t.db.runs[r].status.RunCompleted? ==> s.db.runs[r].status.RunCompleted?)
    && (forall r :: r in t.calls ==>
          r in s.calls && t.calls[r] == s.calls[r] && r in s.db.runs && t.db.runs[r] == s.db.runs[r])
  }

  lemma GroundMovesKeepInv(env: Env, s: System, t: System)
    requires ReviewInv(env, s) && GroundMoves(s, t)
    ensures ReviewInv(env, t)
  {
    GroundedCandidates(env, s.db, t.db);
    SameTablesFit(s.db, t.db);
    GroundedRuns(env, s.db, t.db);
    GroundedCalls(s, t);
  }

  lemma FailingKeepsInv(env: Env, s: System, run: Uuid, recorded: bool, code: string)
    requires ReviewInv(env, s) && run in s.calls
    ensures ReviewInv(env, System(if recorded then MarkFailed(s.db, run, code) else s.db, s.calls - {run}))
  {
    FailingMovesGround(s, run, recorded, code);
    GroundMovesKeepInv(env, s, System(if recorded then MarkFailed(s.db, run, code) else s.db, s.calls - {run}));
  }

  lemma FailingMovesGround(s: System, run: Uuid, recorded: bool, code: string)
    requires CallsFit(s) && run in s.calls
    ensures GroundMoves(s, System(if recorded then MarkFailed(s.db, run, code) else s.db, s.calls - {run}))
  {
    assert CallFits(s.db, run, s.calls[run]);
    forall r | r in s.calls ensures r in s.db.runs {
      assert CallFits(s.db, r, s.calls[r]);
    }
  }

  lemma FinishKeepsInv(env: Env, s: System, i: Step)
    requires ReviewInv(env, s) && i.Finish? && Enabled(env, s, i)
    ensures ReviewInv(env, Finished(env, s, i))
  {
    var call := s.calls[i.run];
    assert CallFits(s.db, i.run, call);
    var refusal := PersistRefusal(env, s.db, call);
    if refusal.Some? {
      var marked := refusal.value != "PERSISTENCE_FAILED" && refusal.value != "STALE_EXTRACTION_ATTEMPT";
      FailingKeepsInv(env, s, i.run, marked, refusal.value);
    } else if ViolatesIndex(env, s.db, call) {
      FailingKeepsInv(env, s, i.run, i.marked, "PERSISTENCE_FAILED");
    } else {
      WritingKeepsInv(env, s, call, i.units, i.newId, i.x);
    }
  }

  /** What a successful phase A adds. */
  lemma StartAddsARun(env: Env, s: System, i: Step)
    requires i.Begin?
    ensures var t := Begun(env, s, i);
            t == s || AddsARun(env, s, t, i.newRun)
  {
    var (_, result) := Start(env, s.db, i.source, i.org, i.newRun, i.newAttempt);
    if result.Ok? {
      SortingOrders(s.db.documents[i.source].pages);
      SortingTwice(s.db.documents[i.source].pages);
    }
  }

  ghost predicate AddsARun(env: Env, s: System, t: System, r: Uuid) {
    && r in t.db.runs && r in t.calls
    && t.db == s.db.(runs := s.db.runs[r := t.db.runs[r]]) && t.calls == s.calls[r := t.calls[r]]
    && t.db.runs[r].status.Running? && RunFits(env, t.db, t.db.runs[r]) && CallFits(t.db, r, t.calls[r])
  }

  lemma AddingARunKeepsRuns(env: Env, s: System, t: System, r: Uuid)
    requires RunsFit(env, s.db) && CallsFit(s) && r !in s.db.runs && AddsARun(env, s, t, r)
    ensures RunsFit(env, t.db) && CallsFit(t) && (OneCompletedRun(s.db) ==> OneCompletedRun(t.db))
  {
    forall q | q in t.db.runs ensures RunFits(env, t.db, t.db.runs[q]) {
      if q != r { assert RunFits(env, s.db, s.db.runs[q]); }
    }
    forall q | q in t.calls ensures CallFits(t.db, q, t.calls[q]) {
      if q != r { assert CallFits(s.db, q, s.calls[q]); }
    }
  }

  lemma AddingARunKeepsInv(env: Env, s: System, t: System, r: Uuid)
    requires ReviewInv(env, s) && r !in s.db.runs && AddsARun(env, s, t, r)
    ensures ReviewInv(env, t)
  {
    GroundedCandidates(env, s.db, t.db);
    SameTablesFit(s.db, t.db);
    AddingARunKeepsRuns(env, s, t, r);
  }

  lemma BeginKeepsInv(env: Env, s: System, i: Step)
    requires ReviewInv(env, s) && i.Begin? && Enabled(env, s, i)
    ensures ReviewInv(env, Begun(env, s, i))
  {
    StartAddsARun(env, s, i);
    var t := Begun(env, s, i);
    if t != s {
      AddingARunKeepsInv(env, s, t, i.newRun);
    }
  }

  lemma PutDocumentKeepsInv(env: Env, s: System, document: Uuid, row: Document)
    requires ReviewInv(env, s) && (document in s.db.documents ==> s.db.documents[document].project == row.project)
    ensures ReviewInv(env, s.(db := s.db.(documents := s.db.documents[document := row])))
  {
    var t := s.(db := s.db.(documents := s.db.documents[document := row]));
    assert GroundMoves(s, t) by {
      forall r | r in s.calls ensures r in s.db.runs {
        assert CallFits(s.db, r, s.calls[r]);
      }
    }
    GroundMovesKeepInv(env, s, t);
  }

  lemma EffectKeepsInv(env: Env, s: System, i: Step)
    requires ReviewInv(env, s) && Enabled(env, s, i)
    ensures ReviewInv(env, Effect(env, s, i))
  {
    match i
    case PutUser(_, _) => LoggingKeepsInv(env, s, Effect(env, s, i));
    case PutDocument(document, row) => PutDocumentKeepsInv(env, s, document, row);
    case Begin(_, _, _, _) => BeginKeepsInv(env, s, i);
    case Finish(_, _, _, _, _) => FinishKeepsInv(env, s, i);
    case Abandon(run, recorded, code) => FailingKeepsInv(env, s, run, recorded, code);
    case Rule(request, id, dbFails) => RuleKeepsInv(env, s, request, id, dbFails);
  }

  lemma {:induction false} InvAlways(env: Env, s: System, steps: seq<Step>)
    requires Initial(s) && Exec(env, s, steps).Some?
    ensures ReviewInv(env, Exec(env, s, steps).value)
    decreases |steps|
  {
    if steps != [] {
      InvAlways(env, s, steps[..|steps| - 1]);
      EffectKeepsInv(env, Exec(env, s, steps[..|steps| - 1]).value, steps[|steps| - 1]);
    }
  }
}
