/**
 * Extraction without the index on completed runs: what the check of the first phase is worth on its own,
 * as long as calls on one document do not overlap.
 */
module ReviewSequential {
  import opened Basics
  import opened SnapshotEncoding
  import opened CandidateFilter
  import opened ReviewDatabase
  import opened ReviewHistory
  import opened ReviewRuns
  import opened ReviewGuarantees

  ghost predicate InFlight(s: System, document: Uuid) {
    exists r :: r in s.calls && s.calls[r].document == document
  }

  /** No call begins on a document while another one on it is between its phases. */
  ghost predicate OneAtATime(env: Env, s: System, steps: seq<Step>)
    decreases |steps|
  {
    if steps == [] then true
    else
      var before, last := Exec(env, s, steps[..|steps| - 1]), steps[|steps| - 1];
      && OneAtATime(env, s, steps[..|steps| - 1])
      && (before.Some? && last.Begin? ==> !InFlight(before.value, last.source))
  }

  /** At most one call a document, and none of them over pages that a run has completed. */
  ghost predicate NoneInVain(s: System) {
    && (forall r, q :: r in s.calls && q in s.calls && s.calls[r].document == s.calls[q].document ==> r == q)
    && (forall r :: r in s.calls ==> !AlreadyCompleted(s.db, s.calls[r].document, s.calls[r].snapshot))
  }

  ghost predicate SequentialInv(s: System) {
    NoneInVain(s) && OneCompletedRun(s.db)
  }

  predicate Done(db: Db, document: Uuid, snapshot: Digest, r: Uuid) {
    r in db.runs && CompletedFor(db.runs[r], document, snapshot)
  }

  lemma NotCompletedYet(db: Db, after: Db, document: Uuid, snapshot: Digest)
    requires !AlreadyCompleted(db, document, snapshot)
    requires forall r :: Done(after, document, snapshot, r) ==> Done(db, document, snapshot, r)
    ensures !AlreadyCompleted(after, document, snapshot)
  {
    forall r | r in after.runs ensures !CompletedFor(after.runs[r], document, snapshot) {
      assert Done(after, document, snapshot, r) ==> Done(db, document, snapshot, r);
    }
  }

  /** Completed runs are the same before and after, and no call is new. */
  lemma NothingCompletes(s: System, t: System)
    requires SequentialInv(s)
    requires forall r :: r in t.calls ==> r in s.calls && t.calls[r] == s.calls[r]
    requires forall r :: r in t.db.runs && t.db.runs[r].status.RunCompleted? ==>
               r in s.db.runs && s.db.runs[r] == t.db.runs[r]
    ensures SequentialInv(t)
  {
    forall r | r in t.calls ensures !AlreadyCompleted(t.db, t.calls[r].document, t.calls[r].snapshot) {
      NotCompletedYet(s.db, t.db, t.calls[r].document, t.calls[r].snapshot);
    }
  }

  /** A start looks for a completed run over the same pages, so what it puts in flight is not in vain. */
  lemma AStartIsNotInVain(env: Env, s: System, i: Step)
    requires i.Begin? && i.newRun !in s.db.runs && !InFlight(s, i.source) && SequentialInv(s)
    requires Start(env, s.db, i.source, i.org, i.newRun, i.newAttempt).1.Ok?
    ensures SequentialInv(Begun(env, s, i))
  {
    var t := Begun(env, s, i);
    var call := t.calls[i.newRun];
    var pages := SortByNumber(s.db.documents[i.source].pages);
    StartsExactlyWhen(env, s.db, i.source, i.org, i.newRun, i.newAttempt);
    assert StartHurdles(env, s.db, i.source, i.org)[5].cleared;
    DoneBeforeIsCompleted(env, s.db, i.source, pages);
    assert !AlreadyCompleted(s.db, call.document, call.snapshot);
    NothingCompletes(s, t.(calls := s.calls));
    forall r | r in t.calls ensures !AlreadyCompleted(t.db, t.calls[r].document, t.calls[r].snapshot) {
      NotCompletedYet(s.db, t.db, t.calls[r].document, t.calls[r].snapshot);
    }
  }

  lemma BeginKeepsSequential(env: Env, s: System, i: Step)
    requires i.Begin? && i.newRun !in s.db.runs && !InFlight(s, i.source) && SequentialInv(s)
    ensures SequentialInv(Begun(env, s, i))
  {
    StartsExactlyWhen(env, s.db, i.source, i.org, i.newRun, i.newAttempt);
    if Start(env, s.db, i.source, i.org, i.newRun, i.newAttempt).1.Ok? {
      AStartIsNotInVain(env, s, i);
    } else {
      var k := SomeIsFirstMissed(StartHurdles(env, s.db, i.source, i.org));
      NothingCompletes(s, Begun(env, s, i));
    }
  }

  lemma ACommitKeepsSequential(env: Env, s: System, i: Step)
    requires ReviewInv(env, s) && i.Finish? && Enabled(env, s, i) && SequentialInv(s)
    requires Commits(env, s.db, s.calls[i.run])
    ensures SequentialInv(Finished(env, s, i))
  {
    var t, call := Finished(env, s, i), s.calls[i.run];
    FinishIsAllOrNothing(env, s, i);
    WritingKeepsOneCompleted(s.db, t.db, call, i.x);
    forall r | r in t.calls ensures !AlreadyCompleted(t.db, t.calls[r].document, t.calls[r].snapshot) {
      assert r != i.run && s.calls[r].document != call.document;
      NotCompletedYet(s.db, t.db, t.calls[r].document, t.calls[r].snapshot);
    }
  }

  lemma ARefusalKeepsSequential(env: Env, s: System, i: Step)
    requires ReviewInv(env, s) && i.Finish? && Enabled(env, s, i) && SequentialInv(s)
    requires !Commits(env, s.db, s.calls[i.run])
    ensures SequentialInv(Finished(env, s, i))
  {
    FinishIsAllOrNothing(env, s, i);
    NothingCompletes(s, Finished(env, s, i));
  }

  lemma StepKeepsSequential(env: Env, s: System, i: Step)
    requires ReviewInv(env, s) && Enabled(env, s, i) && SequentialInv(s)
    requires i.Begin? ==> !InFlight(s, i.source)
    ensures SequentialInv(Effect(env, s, i))
  {
    match i
    case Begin(_, _, _, _) => BeginKeepsSequential(env, s, i);
    case Finish(run, _, _, _, _) =>
      if Commits(env, s.db, s.calls[run]) {
        ACommitKeepsSequential(env, s, i);
      } else {
        ARefusalKeepsSequential(env, s, i);
      }
    case Rule(request, id, dbFails) =>
      DecisionsOnlyApply(env, s.db, request, id, dbFails);
      NothingCompletes(s, Effect(env, s, i));
    case _ => NothingCompletes(s, Effect(env, s, i));
  }

  lemma {:induction false} SequentialAlways(env: Env, s: System, steps: seq<Step>)
    requires Initial(s) && Exec(env, s, steps).Some? && OneAtATime(env, s, steps)
    ensures SequentialInv(Exec(env, s, steps).value)
    decreases |steps|
  {
    if steps != [] {
      var before := steps[..|steps| - 1];
      SequentialAlways(env, s, before);
      InvAlways(env, s, before);
      StepKeepsSequential(env, Exec(env, s, before).value, steps[|steps| - 1]);
    }
  }

  /**
   * With or without the index: if calls on a document do not overlap, a snapshot of it is completed at
   * most once. The check of the first phase is all it takes.
   */
  lemma SequentialCallsCompleteOnce(env: Env, s: System, steps: seq<Step>, r: Uuid, q: Uuid)
    requires Initial(s) && Exec(env, s, steps).Some? && OneAtATime(env, s, steps)
    requires var runs := Exec(env, s, steps).value.db.runs;
             r in runs && q in runs && runs[r].status.RunCompleted? && runs[q].status.RunCompleted?
             && runs[r].document == runs[q].document && runs[r].snapshot == runs[q].snapshot
    ensures r == q
  {
    SequentialAlways(env, s, steps);
  }
}
