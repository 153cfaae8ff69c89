/**
 * A promotion attempt that nobody interrupts or overlaps does, step by step, what `PromoteDocument`
 * does in one piece, faults included.
 */
module PromotionRefinement {
  import opened Basics
  import opened IngestionState
  import opened CleanPromotion
  import opened Pipeline
  import opened PipelineRuns

  /** All steps are those of one attempt. */
  ghost predicate OwnSteps(steps: seq<Step>, r: RunId) {
    forall i :: 0 <= i < |steps| ==> steps[i].Promoter? && steps[i].run == r
  }

  /** The row while the attempt is under way; from PROMOTING its own row lock is still held. */
  function Base(w: World, r: RunId): World
    requires Promotable(w.doc.status)
  {
    if w.doc.status == Promoting then w.(lock := Some(r)) else w.(doc := CleanPromotion.Begin(w.doc))
  }

  function Mid(w: World, r: RunId, newId: Uuid, run: PromotionRun, files: Files): World
    requires Promotable(w.doc.status)
  {
    Base(w, r).(promotions := w.promotions[r := run], files := files, used := w.used + {newId})
  }

  /** The row of a promoted document, flagged if its source could not be unlinked. */
  function Closed(d: Doc, id: Uuid, unlinks: bool): Doc
    requires Promotable(d.status)
  {
    var clean := RecordClean(CleanPromotion.Begin(d), id);
    if unlinks then clean else FlagCleanup(clean)
  }

  /** The attempt is over: the row, the stores and what was promoted. */
  function Done(w: World, newId: Uuid, doc: Doc, files: Files, linked: bool, promoted: Option<Bytes>): World {
    w.(doc := doc, files := files, quarantine := w.quarantine.(linked := linked), used := w.used + {newId},
       log := w.log.(promoted := promoted))
  }

  ghost predicate Ready(w: World, r: RunId, newId: Uuid) {
    && Promotable(w.doc.status) && w.doc.source.digest.Some? && w.doc.source.size.Some?
    && w.lock.None? && r !in w.promotions && newId !in w.used
  }

  lemma BaseFacts(w: World, r: RunId)
    requires Promotable(w.doc.status) && w.lock.None?
    ensures var b := Base(w, r);
            && b.doc.status == Promoting && b.doc.source == w.doc.source
            && b.doc.promotion.cleanId == w.doc.promotion.cleanId
            && Pending(b, r) == CleanPromotion.Begin(w.doc) && Free(b, r)
  {
  }

  /** The first transaction is committed, or held open from PROMOTING. */
  function AtEntry(w: World, r: RunId): World
    requires Promotable(w.doc.status)
  {
    Base(w, r).(promotions := w.promotions[r := Entered])
  }

  lemma EnteringFirst(c: Settings, w: World, r: RunId)
    requires Promotable(w.doc.status) && w.doc.source.digest.Some? && w.doc.source.size.Some?
    requires w.lock.None? && r !in w.promotions
    ensures Next(c, w, Promoter(r, Enter)) == Some(AtEntry(w, r))
  {
  }

  lemma Resolving(c: Settings, w: World, r: RunId, newId: Uuid, trouble: Trouble)
    requires Ready(w, r, newId)
    ensures ResolveStep(AtEntry(w, r), r, newId, trouble)
            == Mid(w, r, newId, Searched(w, NewIdentifier(w.doc, newId), trouble), w.files)
    ensures Next(c, AtEntry(w, r), Promoter(r, Resolve(newId, trouble)))
            == Some(ResolveStep(AtEntry(w, r), r, newId, trouble))
  {
    BaseFacts(w, r);
    var run := Searched(w, NewIdentifier(w.doc, newId), trouble);
    assert w.promotions[r := Entered][r := run] == w.promotions[r := run];
  }

  lemma Entering(c: Settings, w: World, r: RunId, newId: Uuid, trouble: Trouble)
    requires Ready(w, r, newId)
    ensures var run := Searched(w, NewIdentifier(w.doc, newId), trouble);
            Runs(c, w, [Promoter(r, Enter)] + [Promoter(r, Resolve(newId, trouble))], Mid(w, r, newId, run, w.files))
  {
    EnteringFirst(c, w, r);
    Resolving(c, w, r, newId, trouble);
    var steps := TwoSteps(c, w, Promoter(r, Enter), AtEntry(w, r), Promoter(r, Resolve(newId, trouble)),
                          ResolveStep(AtEntry(w, r), r, newId, trouble));
  }

  lemma Replaced(w: World, r: RunId, newId: Uuid, run: PromotionRun, files: Files, next: PromotionRun)
    requires Promotable(w.doc.status)
    ensures At(Mid(w, r, newId, run, files), r, next) == Mid(w, r, newId, next, files)
  {
    assert w.promotions[r := run][r := next] == w.promotions[r := next];
  }

  lemma CleaningUp(c: Settings, w: World, r: RunId, newId: Uuid, id: Uuid, code: string, files: Files, ok: bool)
    requires Ready(w, r, newId)
    ensures Next(c, Mid(w, r, newId, Aborting(id, code), files), Promoter(r, Cleanup(ok)))
            == Some(Mid(w, r, newId, Aborted(code), if ok then files - {Partial(id)} else files))
  {
    Replaced(w, r, newId, Aborting(id, code), files, Aborted(code));
  }

  /** A copy that failed, with its failure on the row. */
  function Failed(w: World, newId: Uuid, code: string, files: Files): World
    requires Promotable(w.doc.status)
  {
    Done(w, newId, RecordFailure(CleanPromotion.Begin(w.doc), code, code), files, w.quarantine.linked, w.log.promoted)
  }

  /** A copy that failed and whose partial file could not be looked for. */
  function Raised(w: World, newId: Uuid, files: Files): World
    requires Promotable(w.doc.status)
  {
    Done(w, newId, BeginThenRaise(w.doc), files, w.quarantine.linked, w.log.promoted)
  }

  function AfterAFailure(w: World, newId: Uuid, code: string, files: Files, faults: Faults): World
    requires Promotable(w.doc.status)
  {
    if faults.look then Raised(w, newId, files)
    else Failed(w, newId, code, Cleaned(files, NewIdentifier(w.doc, newId), faults))
  }

  lemma RecordingTheAbort(c: Settings, w: World, r: RunId, newId: Uuid, code: string, files: Files)
    requires Ready(w, r, newId)
    ensures Next(c, Mid(w, r, newId, Aborted(code), files), Promoter(r, RecordAbort))
            == Some(Failed(w, newId, code, files))
  {
    BaseFacts(w, r);
    Leaving(w, r, Aborted(code));
  }

  lemma RaisingTheLook(c: Settings, w: World, r: RunId, newId: Uuid, id: Uuid, code: string, files: Files)
    requires Ready(w, r, newId)
    ensures Next(c, Mid(w, r, newId, Aborting(id, code), files), Promoter(r, Raise)) == Some(Raised(w, newId, files))
  {
    Leaving(w, r, Aborting(id, code));
  }

  lemma AbortingAll(c: Settings, w: World, r: RunId, newId: Uuid, code: string, files: Files, faults: Faults)
    returns (steps: seq<Step>)
    requires Ready(w, r, newId)
    ensures Runs(c, Mid(w, r, newId, Aborting(NewIdentifier(w.doc, newId), code), files), steps,
                 AfterAFailure(w, newId, code, files, faults))
    ensures OwnSteps(steps, r)
  {
    var id := NewIdentifier(w.doc, newId);
    var aborting := Mid(w, r, newId, Aborting(id, code), files);
    if faults.look {
      RaisingTheLook(c, w, r, newId, id, code, files);
      OneStep(c, aborting, Promoter(r, Raise), Raised(w, newId, files));
      steps := [Promoter(r, Raise)];
    } else {
      var after := Cleaned(files, id, faults);
      CleaningUp(c, w, r, newId, id, code, files, !faults.cleanup);
      RecordingTheAbort(c, w, r, newId, code, after);
      steps := TwoSteps(c, aborting, Promoter(r, Cleanup(!faults.cleanup)), Mid(w, r, newId, Aborted(code), after),
                        Promoter(r, RecordAbort), Failed(w, newId, code, after));
    }
  }

  lemma Leaving(w: World, r: RunId, run: PromotionRun)
    requires r !in w.promotions
    ensures w.promotions[r := run] - {r} == w.promotions
  {
  }

  /** The copy has written `copied` to the partial file. */
  function Staging(w: World, r: RunId, newId: Uuid, id: Uuid, copied: Bytes): World
    requires Promotable(w.doc.status)
  {
    Mid(w, r, newId, Copying(id, copied), w.files[Partial(id) := copied])
  }

  lemma CopyingAChunk(c: Settings, w: World, r: RunId, newId: Uuid, id: Uuid, n: nat)
    requires Ready(w, r, newId) && n * CHUNK_SIZE < |w.quarantine.content|
    ensures Next(c, Staging(w, r, newId, id, FirstChunks(w.quarantine.content, n)), Promoter(r, CopyChunk))
            == Some(Staging(w, r, newId, id, FirstChunks(w.quarantine.content, n + 1)))
  {
    var content := w.quarantine.content;
    var copied, longer := FirstChunks(content, n), FirstChunks(content, n + 1);
    assert copied + content[|copied|..Min(|copied| + CHUNK_SIZE, |content|)] == longer;
    Replaced(w, r, newId, Copying(id, copied), w.files[Partial(id) := copied], Copying(id, longer));
    assert w.files[Partial(id) := copied][Partial(id) := longer] == w.files[Partial(id) := longer];
  }

  /** The copy loop, chunk by chunk, as far as the first `n` chunks. */
  lemma {:induction false} CopyingUpTo(c: Settings, w: World, r: RunId, newId: Uuid, id: Uuid, n: nat)
    returns (steps: seq<Step>)
    requires Ready(w, r, newId)
    ensures Runs(c, Staging(w, r, newId, id, []), steps, Staging(w, r, newId, id, FirstChunks(w.quarantine.content, n)))
    ensures OwnSteps(steps, r)
    decreases n
  {
    var content := w.quarantine.content;
    if n == 0 {
      steps := [];
    } else {
      var shorter := CopyingUpTo(c, w, r, newId, id, n - 1);
      if (n - 1) * CHUNK_SIZE < |content| {
        CopyingAChunk(c, w, r, newId, id, n - 1);
        var before := Staging(w, r, newId, id, FirstChunks(content, n - 1));
        var after := Staging(w, r, newId, id, FirstChunks(content, n));
        OneStep(c, before, Promoter(r, CopyChunk), after);
        Chain(c, Staging(w, r, newId, id, []), shorter, before, [Promoter(r, CopyChunk)], after);
        steps := shorter + [Promoter(r, CopyChunk)];
      } else {
        steps := shorter;
      }
    }
  }

  /** After the CLEAN commit the attempt still owes the clean-up of its source. */
  function Owing(w: World, r: RunId, newId: Uuid, clean: Doc, files: Files, content: Bytes, run: PromotionRun): World {
    Done(w, newId, clean, files, true, Some(content)).(promotions := w.promotions[r := run])
  }

  lemma CommittingClean(c: Settings, w: World, r: RunId, newId: Uuid, id: Uuid, content: Bytes, files: Files)
    requires Ready(w, r, newId) && w.quarantine.linked
    ensures Next(c, Mid(w, r, newId, InPlace(id, content), files), Promoter(r, Commit))
            == Some(Owing(w, r, newId, RecordClean(CleanPromotion.Begin(w.doc), id), files, content, Cleared))
  {
    BaseFacts(w, r);
    Leaving(w, r, InPlace(id, content));
  }

  lemma Unlinking(c: Settings, w: World, r: RunId, newId: Uuid, clean: Doc, files: Files, content: Bytes, ok: bool)
    requires Ready(w, r, newId)
    ensures Next(c, Owing(w, r, newId, clean, files, content, Cleared), Promoter(r, Unlink(ok)))
            == Some(if ok then Done(w, newId, clean, files, false, Some(content))
                    else Owing(w, r, newId, clean, files, content, Unflagged))
  {
    Leaving(w, r, Cleared);
    assert w.promotions[r := Cleared][r := Unflagged] == w.promotions[r := Unflagged];
  }

  lemma FlaggingTheSource(c: Settings, w: World, r: RunId, newId: Uuid, clean: Doc, files: Files, content: Bytes)
    requires Ready(w, r, newId)
    ensures Next(c, Owing(w, r, newId, clean, files, content, Unflagged), Promoter(r, Flag))
            == Some(Done(w, newId, FlagCleanup(clean), files, true, Some(content)))
  {
    Leaving(w, r, Unflagged);
  }

  /** From a verified file in place to the end: commit, then unlink the source or flag it. */
  lemma Finishing(c: Settings, w: World, r: RunId, newId: Uuid, id: Uuid, content: Bytes, files: Files, unlinks: bool)
    returns (steps: seq<Step>)
    requires Ready(w, r, newId) && w.quarantine.linked
    ensures var clean := RecordClean(CleanPromotion.Begin(w.doc), id);
            Runs(c, Mid(w, r, newId, InPlace(id, content), files), steps,
                 Done(w, newId, Closed(w.doc, id, unlinks), files, !unlinks, Some(content)))
    ensures OwnSteps(steps, r)
  {
    var clean := RecordClean(CleanPromotion.Begin(w.doc), id);
    var start := Mid(w, r, newId, InPlace(id, content), files);
    var cleared := Owing(w, r, newId, clean, files, content, Cleared);
    CommittingClean(c, w, r, newId, id, content, files);
    Unlinking(c, w, r, newId, clean, files, content, unlinks);
    if unlinks {
      steps := TwoSteps(c, start, Promoter(r, Commit), cleared, Promoter(r, Unlink(true)),
                        Done(w, newId, clean, files, false, Some(content)));
    } else {
      FlaggingTheSource(c, w, r, newId, clean, files, content);
      var rest := TwoSteps(c, cleared, Promoter(r, Unlink(false)), Owing(w, r, newId, clean, files, content, Unflagged),
                           Promoter(r, Flag), Done(w, newId, FlagCleanup(clean), files, true, Some(content)));
      steps := StepThen(c, start, Promoter(r, Commit), cleared, rest,
                        Done(w, newId, FlagCleanup(clean), files, true, Some(content)));
    }
  }

  lemma OpeningFromResolved(c: Settings, w: World, r: RunId, newId: Uuid, id: Uuid, next: PromotionRun, files: Files)
    requires Ready(w, r, newId) && OpenStep(c, Mid(w, r, newId, Resolved(id), w.files), r, id)
                                   == At(Mid(w, r, newId, Resolved(id), w.files), r, next).(files := files)
    ensures Next(c, Mid(w, r, newId, Resolved(id), w.files), Promoter(r, Open)) == Some(Mid(w, r, newId, next, files))
  {
    Replaced(w, r, newId, Resolved(id), w.files, next);
  }

  lemma Faulting(c: Settings, w: World, r: RunId, newId: Uuid, run: PromotionRun, files: Files, fault: CopyFault)
    requires Ready(w, r, newId) && MayFail(Mid(w, r, newId, run, files), run, fault)
    ensures Next(c, Mid(w, r, newId, run, files), Promoter(r, Fault(fault)))
            == Some(Mid(w, r, newId, Aborting(run.id, FaultCode(fault)), files))
  {
    Replaced(w, r, newId, run, files, Aborting(run.id, FaultCode(fault)));
  }

  lemma VerifyingTheCopy(c: Settings, w: World, r: RunId, newId: Uuid, id: Uuid, files: Files)
    requires Ready(w, r, newId)
    ensures var content := w.quarantine.content;
            Next(c, Mid(w, r, newId, Copying(id, content), files), Promoter(r, Verify))
            == Some(Mid(w, r, newId, if Intact(c, w.doc, content) then Verified(id, content)
                                     else Aborting(id, DIGEST_MISMATCH),
                        files))
  {
    BaseFacts(w, r);
    var content := w.quarantine.content;
    Replaced(w, r, newId, Copying(id, content), files,
             if Intact(c, w.doc, content) then Verified(id, content) else Aborting(id, DIGEST_MISMATCH));
  }

  lemma RenamingTheCopy(c: Settings, w: World, r: RunId, newId: Uuid, id: Uuid, content: Bytes)
    requires Ready(w, r, newId) && Partial(id) !in w.files
    ensures Next(c, Mid(w, r, newId, Verified(id, content), w.files[Partial(id) := content]), Promoter(r, Rename))
            == Some(Mid(w, r, newId, InPlace(id, content), w.files[Final(id) := content]))
  {
    Replaced(w, r, newId, Verified(id, content), w.files[Partial(id) := content], InPlace(id, content));
    assert (w.files[Partial(id) := content] - {Partial(id)})[Final(id) := content] == w.files[Final(id) := content];
  }

  // The whole attempt.

  function Source(w: World): Option<Bytes> {
    if w.quarantine.linked then Some(w.quarantine.content) else None
  }

  function Whole(c: Settings, w: World, newId: Uuid, faults: Faults): Promotion {
    Promote(c.scan.hash, w.doc, w.files, Source(w), true, newId, faults)
  }

  /** The world after `PromoteDocument`; no identifier is drawn when the storage root is missing. */
  function Outcome(c: Settings, w: World, newId: Uuid, faults: Faults): World {
    var p := Whole(c, w, newId, faults);
    if faults.root then w.(doc := p.doc)
    else
      Done(w, newId, p.doc, p.files, p.source.Some?,
           if p.result.Ok? && Final(p.result.value) in p.files then Some(p.files[Final(p.result.value)])
           else w.log.promoted)
  }

  /** The file part of the attempt, in the order of the source. */
  function Copied(c: Settings, w: World, newId: Uuid, faults: Faults): (Files, Result<Name, string>)
    requires w.doc.source.digest.Some? && w.doc.source.size.Some?
  {
    Copy(c.scan.hash, w.doc.source, w.files, Source(w), NewIdentifier(w.doc, newId), faults)
  }

  lemma WholeFails(c: Settings, w: World, newId: Uuid, faults: Faults, code: string, files: Files)
    requires Promotable(w.doc.status) && w.doc.source.digest.Some? && w.doc.source.size.Some?
    requires !faults.root && Copied(c, w, newId, faults) == (files, Err(code))
    ensures Outcome(c, w, newId, faults) == AfterAFailure(w, newId, code, files, faults)
  {
  }

  lemma WholeSucceeds(c: Settings, w: World, newId: Uuid, faults: Faults, files: Files, content: Bytes)
    requires Promotable(w.doc.status) && w.doc.source.digest.Some? && w.doc.source.size.Some? && w.quarantine.linked
    requires var id := NewIdentifier(w.doc, newId);
             && !faults.root && Copied(c, w, newId, faults) == (files, Ok(Final(id)))
             && Final(id) in files && files[Final(id)] == content
    ensures Outcome(c, w, newId, faults) ==
            Done(w, newId, Closed(w.doc, NewIdentifier(w.doc, newId), !faults.unlink), files, faults.unlink,
                 Some(content))
  {
  }

  /** The flush or the rename fails after the copy was verified. */
  lemma FlushFails(c: Settings, w: World, r: RunId, newId: Uuid, fault: CopyFault, faults: Faults)
    returns (steps: seq<Step>)
    requires Ready(w, r, newId) && w.quarantine.linked && Partial(NewIdentifier(w.doc, newId)) !in w.files
    requires (fault.FlushFails? || fault.RenameFails?)
    ensures var id := NewIdentifier(w.doc, newId);
            var staged := w.files[Partial(id) := w.quarantine.content];
            Runs(c, Mid(w, r, newId, Verified(id, w.quarantine.content), staged), steps,
                 AfterAFailure(w, newId, FaultCode(fault), staged, faults))
    ensures OwnSteps(steps, r)
  {
    var id, content, code := NewIdentifier(w.doc, newId), w.quarantine.content, FaultCode(fault);
    var staged := w.files[Partial(id) := content];
    Faulting(c, w, r, newId, Verified(id, content), staged, fault);
    var rest := AbortingAll(c, w, r, newId, code, staged, faults);
    steps := StepThen(c, Mid(w, r, newId, Verified(id, content), staged), Promoter(r, Fault(fault)),
                      Mid(w, r, newId, Aborting(id, code), staged), rest,
                      AfterAFailure(w, newId, code, staged, faults));
  }

  lemma RenamedOn(c: Settings, w: World, r: RunId, newId: Uuid, id: Uuid, unlinks: bool) returns (steps: seq<Step>)
    requires Ready(w, r, newId) && w.quarantine.linked && Partial(id) !in w.files
    ensures Runs(c, Mid(w, r, newId, Verified(id, w.quarantine.content), w.files[Partial(id) := w.quarantine.content]),
                 steps,
                 Done(w, newId, Closed(w.doc, id, unlinks),
                      w.files[Final(id) := w.quarantine.content], !unlinks, Some(w.quarantine.content)))
    ensures OwnSteps(steps, r)
  {
    var content := w.quarantine.content;
    var placed := w.files[Final(id) := content];
    RenamingTheCopy(c, w, r, newId, id, content);
    var rest := Finishing(c, w, r, newId, id, content, placed, unlinks);
    steps := StepThen(c, Mid(w, r, newId, Verified(id, content), w.files[Partial(id) := content]), Promoter(r, Rename),
                      Mid(w, r, newId, InPlace(id, content), placed), rest,
                      Done(w, newId, Closed(w.doc, id, unlinks),
                           placed, !unlinks, Some(content)));
  }

  ghost predicate Found(w: World, faults: Faults) {
    w.quarantine.linked && !w.doc.source.path.InCleanStorage? && !faults.resolve && !faults.search
  }

  /** Nothing stands in the way of the staged copy. */
  ghost predicate Copyable(w: World, newId: Uuid, faults: Faults) {
    var id := NewIdentifier(w.doc, newId);
    && Found(w, faults) && w.doc.source.size == Some(|w.quarantine.content|)
    && Final(id) !in w.files && Partial(id) !in w.files
    && !faults.root && !faults.probe && !faults.open && !faults.irregular && !faults.create
  }

  lemma VerifiedOn(c: Settings, w: World, r: RunId, newId: Uuid, faults: Faults) returns (steps: seq<Step>)
    requires Ready(w, r, newId) && Copyable(w, newId, faults) && faults.interrupted.None?
    requires Intact(c, w.doc, w.quarantine.content)
    ensures var id := NewIdentifier(w.doc, newId);
            Runs(c, Mid(w, r, newId, Verified(id, w.quarantine.content), w.files[Partial(id) := w.quarantine.content]),
                 steps, Outcome(c, w, newId, faults))
    ensures OwnSteps(steps, r)
  {
    var id, content := NewIdentifier(w.doc, newId), w.quarantine.content;
    var staged := w.files[Partial(id) := content];
    if faults.fsync {
      WholeFails(c, w, newId, faults, FSYNC_FAILED, staged);
      steps := FlushFails(c, w, r, newId, CopyFault.FlushFails, faults);
    } else if faults.rename {
      assert staged - {Partial(id)} == w.files == w.files - {Partial(id)};
      WholeFails(c, w, newId, faults, COPY_FAILED, if faults.look || faults.cleanup then staged else w.files);
      steps := FlushFails(c, w, r, newId, RenameFails, faults);
    } else {
      WholeSucceeds(c, w, newId, faults, w.files[Final(id) := content], content);
      steps := RenamedOn(c, w, r, newId, id, !faults.unlink);
    }
  }

  lemma AllChunks(content: Bytes)
    ensures FirstChunks(content, |content|) == content
  {
    assert Min(|content| * CHUNK_SIZE, |content|) == |content|;
  }

  lemma CopiedOn(c: Settings, w: World, r: RunId, newId: Uuid, faults: Faults) returns (steps: seq<Step>)
    requires Ready(w, r, newId) && Copyable(w, newId, faults) && faults.interrupted.None?
    ensures Runs(c, Staging(w, r, newId, NewIdentifier(w.doc, newId), w.quarantine.content), steps,
                 Outcome(c, w, newId, faults))
    ensures OwnSteps(steps, r)
  {
    var id, content := NewIdentifier(w.doc, newId), w.quarantine.content;
    var staged := w.files[Partial(id) := content];
    VerifyingTheCopy(c, w, r, newId, id, staged);
    if Intact(c, w.doc, content) {
      var rest := VerifiedOn(c, w, r, newId, faults);
      steps := StepThen(c, Mid(w, r, newId, Copying(id, content), staged), Promoter(r, Verify),
                        Mid(w, r, newId, Verified(id, content), staged), rest, Outcome(c, w, newId, faults));
    } else {
      var rest := AbortingAll(c, w, r, newId, DIGEST_MISMATCH, staged, faults);
      WholeFails(c, w, newId, faults, DIGEST_MISMATCH, staged);
      steps := StepThen(c, Mid(w, r, newId, Copying(id, content), staged), Promoter(r, Verify),
                        Mid(w, r, newId, Aborting(id, DIGEST_MISMATCH), staged), rest, Outcome(c, w, newId, faults));
    }
  }

  /** A read or a write fails after some chunks. */
  lemma InterruptedOn(c: Settings, w: World, r: RunId, newId: Uuid, faults: Faults) returns (steps: seq<Step>)
    requires Ready(w, r, newId) && Copyable(w, newId, faults) && faults.interrupted.Some?
    ensures Runs(c, Staging(w, r, newId, NewIdentifier(w.doc, newId),
                            FirstChunks(w.quarantine.content, faults.interrupted.value)),
                 steps, Outcome(c, w, newId, faults))
    ensures OwnSteps(steps, r)
  {
    var id, copied := NewIdentifier(w.doc, newId), FirstChunks(w.quarantine.content, faults.interrupted.value);
    var staged := w.files[Partial(id) := copied];
    Faulting(c, w, r, newId, Copying(id, copied), staged, ReadOrWriteFails);
    var rest := AbortingAll(c, w, r, newId, COPY_FAILED, staged, faults);
    WholeFails(c, w, newId, faults, COPY_FAILED, staged);
    steps := StepThen(c, Staging(w, r, newId, id, copied), Promoter(r, Fault(ReadOrWriteFails)),
                      Mid(w, r, newId, Aborting(id, COPY_FAILED), staged), rest, Outcome(c, w, newId, faults));
  }

  /** Refused when the destination or the source is opened. */
  lemma OpenRefused(c: Settings, w: World, r: RunId, newId: Uuid, faults: Faults, code: string)
    returns (steps: seq<Step>)
    requires Ready(w, r, newId) && !faults.root
    requires var id := NewIdentifier(w.doc, newId);
             var resolved := Mid(w, r, newId, Resolved(id), w.files);
             && OpenStep(c, resolved, r, id) == At(resolved, r, Aborting(id, code))
             && Copied(c, w, newId, faults) == (w.files, Err(code))
    ensures Runs(c, Mid(w, r, newId, Resolved(NewIdentifier(w.doc, newId)), w.files), steps,
                 Outcome(c, w, newId, faults))
    ensures OwnSteps(steps, r)
  {
    var id := NewIdentifier(w.doc, newId);
    OpeningFromResolved(c, w, r, newId, id, Aborting(id, code), w.files);
    var rest := AbortingAll(c, w, r, newId, code, w.files, faults);
    WholeFails(c, w, newId, faults, code, w.files);
    steps := StepThen(c, Mid(w, r, newId, Resolved(id), w.files), Promoter(r, Open),
                      Mid(w, r, newId, Aborting(id, code), w.files), rest, Outcome(c, w, newId, faults));
  }

  /** A call fails before anything is written. */
  lemma OpenFails(c: Settings, w: World, r: RunId, newId: Uuid, faults: Faults, fault: CopyFault)
    returns (steps: seq<Step>)
    requires Ready(w, r, newId) && !faults.root
    requires var id := NewIdentifier(w.doc, newId);
             && MayFail(Mid(w, r, newId, Resolved(id), w.files), Resolved(id), fault)
             && Copied(c, w, newId, faults) == (w.files, Err(FaultCode(fault)))
    ensures Runs(c, Mid(w, r, newId, Resolved(NewIdentifier(w.doc, newId)), w.files), steps,
                 Outcome(c, w, newId, faults))
    ensures OwnSteps(steps, r)
  {
    var id, code := NewIdentifier(w.doc, newId), FaultCode(fault);
    Faulting(c, w, r, newId, Resolved(id), w.files, fault);
    var rest := AbortingAll(c, w, r, newId, code, w.files, faults);
    WholeFails(c, w, newId, faults, code, w.files);
    steps := StepThen(c, Mid(w, r, newId, Resolved(id), w.files), Promoter(r, Fault(fault)),
                      Mid(w, r, newId, Aborting(id, code), w.files), rest, Outcome(c, w, newId, faults));
  }

  lemma FoundInPlace(c: Settings, w: World, r: RunId, newId: Uuid, faults: Faults) returns (steps: seq<Step>)
    requires Ready(w, r, newId) && Found(w, faults) && !faults.root
    requires !faults.probe
    requires var id := NewIdentifier(w.doc, newId); Final(id) in w.files && Intact(c, w.doc, w.files[Final(id)])
    ensures Runs(c, Mid(w, r, newId, Resolved(NewIdentifier(w.doc, newId)), w.files), steps,
                 Outcome(c, w, newId, faults))
    ensures OwnSteps(steps, r)
  {
    var id := NewIdentifier(w.doc, newId);
    BaseFacts(w, r);
    OpeningFromResolved(c, w, r, newId, id, InPlace(id, w.files[Final(id)]), w.files);
    var rest := Finishing(c, w, r, newId, id, w.files[Final(id)], w.files, !faults.unlink);
    WholeSucceeds(c, w, newId, faults, w.files, w.files[Final(id)]);
    steps := StepThen(c, Mid(w, r, newId, Resolved(id), w.files), Promoter(r, Open),
                      Mid(w, r, newId, InPlace(id, w.files[Final(id)]), w.files), rest, Outcome(c, w, newId, faults));
  }

  lemma StagedOn(c: Settings, w: World, r: RunId, newId: Uuid, faults: Faults) returns (steps: seq<Step>)
    requires Ready(w, r, newId) && Copyable(w, newId, faults)
    ensures Runs(c, Mid(w, r, newId, Resolved(NewIdentifier(w.doc, newId)), w.files), steps,
                 Outcome(c, w, newId, faults))
    ensures OwnSteps(steps, r)
  {
    var id, content := NewIdentifier(w.doc, newId), w.quarantine.content;
    BaseFacts(w, r);
    OpeningFromResolved(c, w, r, newId, id, Copying(id, []), w.files[Partial(id) := []]);
    AllChunks(content);
    var n := if faults.interrupted.Some? then faults.interrupted.value else |content|;
    var copying := CopyingUpTo(c, w, r, newId, id, n);
    var rest;
    if faults.interrupted.Some? {
      rest := InterruptedOn(c, w, r, newId, faults);
    } else {
      rest := CopiedOn(c, w, r, newId, faults);
    }
    Chain(c, Staging(w, r, newId, id, []), copying, Staging(w, r, newId, id, FirstChunks(content, n)), rest,
          Outcome(c, w, newId, faults));
    steps := StepThen(c, Mid(w, r, newId, Resolved(id), w.files), Promoter(r, Open), Staging(w, r, newId, id, []),
                      copying + rest, Outcome(c, w, newId, faults));
  }

  lemma FailingOn(c: Settings, w: World, r: RunId, newId: Uuid, faults: Faults) returns (steps: seq<Step>)
    requires Ready(w, r, newId) && Found(w, faults) && !faults.root
    requires var id := NewIdentifier(w.doc, newId);
             || faults.probe
             || (Final(id) !in w.files
                 && (faults.open || faults.irregular
                     || (w.doc.source.size == Some(|w.quarantine.content|) && faults.create)))
    ensures Runs(c, Mid(w, r, newId, Resolved(NewIdentifier(w.doc, newId)), w.files), steps,
                 Outcome(c, w, newId, faults))
    ensures OwnSteps(steps, r)
  {
    BaseFacts(w, r);
    if faults.probe {
      steps := OpenFails(c, w, r, newId, faults, ProbeFails);
    } else if faults.open {
      steps := OpenFails(c, w, r, newId, faults, CopyFault.OpenFails);
    } else if faults.irregular {
      steps := OpenFails(c, w, r, newId, faults, NotRegular);
    } else {
      steps := OpenFails(c, w, r, newId, faults, CreateFails);
    }
  }

  lemma ResolvedOn(c: Settings, w: World, r: RunId, newId: Uuid, faults: Faults) returns (steps: seq<Step>)
    requires Ready(w, r, newId) && Found(w, faults) && !faults.root
    ensures Runs(c, Mid(w, r, newId, Resolved(NewIdentifier(w.doc, newId)), w.files), steps,
                 Outcome(c, w, newId, faults))
    ensures OwnSteps(steps, r)
  {
    var id := NewIdentifier(w.doc, newId);
    BaseFacts(w, r);
    if faults.probe {
      steps := FailingOn(c, w, r, newId, faults);
    } else if Final(id) in w.files && Intact(c, w.doc, w.files[Final(id)]) {
      steps := FoundInPlace(c, w, r, newId, faults);
    } else if Final(id) in w.files {
      steps := OpenRefused(c, w, r, newId, faults, DESTINATION_CONFLICT);
    } else if faults.open || faults.irregular {
      steps := FailingOn(c, w, r, newId, faults);
    } else if w.doc.source.size != Some(|w.quarantine.content|) {
      steps := OpenRefused(c, w, r, newId, faults, DIGEST_MISMATCH);
    } else if faults.create {
      steps := FailingOn(c, w, r, newId, faults);
    } else if Partial(id) in w.files {
      steps := OpenRefused(c, w, r, newId, faults, COPY_FAILED);
    } else {
      steps := StagedOn(c, w, r, newId, faults);
    }
  }

  lemma RaisingTheRoot(c: Settings, w: World, r: RunId)
    requires Promotable(w.doc.status) && w.lock.None? && r !in w.promotions
    ensures Next(c, AtEntry(w, r), Promoter(r, Raise)) == Some(w.(doc := BeginThenRaise(w.doc)))
  {
    Leaving(w, r, Entered);
  }

  /** Without a storage root the attempt ends where it began. */
  lemma RootMissing(c: Settings, w: World, r: RunId, newId: Uuid, faults: Faults) returns (steps: seq<Step>)
    requires Ready(w, r, newId) && faults.root
    ensures Runs(c, w, steps, Outcome(c, w, newId, faults))
    ensures OwnSteps(steps, r)
  {
    EnteringFirst(c, w, r);
    RaisingTheRoot(c, w, r);
    steps := TwoSteps(c, w, Promoter(r, Enter), AtEntry(w, r), Promoter(r, Raise), Outcome(c, w, newId, faults));
  }

  function TroubleOf(faults: Faults): Trouble {
    if faults.resolve then PathFails else if faults.search then SearchFails else NoTrouble
  }

  lemma UnresolvedOn(c: Settings, w: World, r: RunId, newId: Uuid, faults: Faults) returns (steps: seq<Step>)
    requires Ready(w, r, newId) && !faults.root && !Found(w, faults)
    ensures Runs(c, Mid(w, r, newId, Searched(w, NewIdentifier(w.doc, newId), TroubleOf(faults)), w.files), steps,
                 Outcome(c, w, newId, faults))
    ensures OwnSteps(steps, r)
  {
    var code := Searched(w, NewIdentifier(w.doc, newId), TroubleOf(faults)).code;
    steps := AbortingAll(c, w, r, newId, code, w.files, faults);
    WholeFails(c, w, newId, faults, code, w.files);
  }

  /** What a whole attempt does to the row and the stores is what its steps do when nothing comes between them. */
  lemma AnUninterruptedAttemptIsPromote(c: Settings, w: World, r: RunId, newId: Uuid, faults: Faults)
    returns (steps: seq<Step>)
    requires Ready(w, r, newId)
    ensures Runs(c, w, steps, Outcome(c, w, newId, faults))
    ensures OwnSteps(steps, r)
  {
    if faults.root {
      steps := RootMissing(c, w, r, newId, faults);
    } else {
      var trouble := TroubleOf(faults);
      var opening := [Promoter(r, Enter)] + [Promoter(r, Resolve(newId, trouble))];
      Entering(c, w, r, newId, trouble);
      var rest;
      if Found(w, faults) {
        rest := ResolvedOn(c, w, r, newId, faults);
      } else {
        rest := UnresolvedOn(c, w, r, newId, faults);
      }
      var searched := Mid(w, r, newId, Searched(w, NewIdentifier(w.doc, newId), trouble), w.files);
      Chain(c, w, opening, searched, rest, Outcome(c, w, newId, faults));
      steps := opening + rest;
    }
  }
}
