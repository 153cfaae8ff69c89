/**
 * The other direction of the refinement: whatever an attempt nobody interferes with does, step by
 * step, ends where `PromoteDocument` ends under some faults.
 */
module PromotionAttempts {
  import opened Basics
  import opened IngestionState
  import opened CleanPromotion
  import opened Pipeline
  import opened PipelineRuns
  import opened PromotionRefinement

  const NO_FAULTS := Faults(false, false, false, false, false, false, false, None, false, false, false, false, false)

  ghost predicate Startable(w: World, r: RunId) {
    && Promotable(w.doc.status) && w.doc.source.digest.Some? && w.doc.source.size.Some?
    && w.lock.None? && r !in w.promotions
  }

  /** The copy ended with `code` and left `files`, from which the partial file is yet to be removed. */
  ghost predicate FailsWith(c: Settings, w: World, newId: Uuid, faults: Faults, code: string, files: Files)
    requires w.doc.source.digest.Some? && w.doc.source.size.Some?
  {
    var id := NewIdentifier(w.doc, newId);
    var (copied, result) := Copied(c, w, newId, faults);
    && !faults.root && !faults.look && result == Err(code)
    && Cleaned(copied, id, faults) == if faults.cleanup then files else files - {Partial(id)}
  }

  /** The partial file may then be removed or not, or not even be looked for. */
  ghost predicate FailsAnyWay(c: Settings, w: World, newId: Uuid, faults: Faults, code: string, files: Files)
    requires w.doc.source.digest.Some? && w.doc.source.size.Some?
  {
    && FailsWith(c, w, newId, faults.(cleanup := true), code, files)
    && FailsWith(c, w, newId, faults.(cleanup := false), code, files)
    && Copied(c, w, newId, faults.(look := true)) == (files, Err(code))
  }

  ghost predicate Succeeds(c: Settings, w: World, newId: Uuid, faults: Faults, content: Bytes, files: Files)
    requires w.doc.source.digest.Some? && w.doc.source.size.Some?
  {
    var id := NewIdentifier(w.doc, newId);
    && !faults.root && w.quarantine.linked && Copied(c, w, newId, faults) == (files, Ok(Final(id)))
    && Final(id) in files && files[Final(id)] == content
  }

  /** Where the attempt stands, and the faults the one-piece call must meet to have come as far. */
  ghost predicate Stage(c: Settings, w: World, r: RunId, newId: Uuid, faults: Faults, x: World)
    requires Startable(w, r)
  {
    var id, content := NewIdentifier(w.doc, newId), w.quarantine.content;
    && r in x.promotions && (newId !in w.used || x.promotions[r].Entered?)
    && match x.promotions[r]
       case Entered => x == AtEntry(w, r)
       case Resolved(i) =>
         && i == id && w.quarantine.linked && !w.doc.source.path.InCleanStorage? && faults == NO_FAULTS
         && x == Mid(w, r, newId, Resolved(id), w.files)
       case Copying(i, copied) =>
         && i == id && Copyable(w, newId, NO_FAULTS) && faults.interrupted.Some?
         && faults == NO_FAULTS.(interrupted := faults.interrupted)
         && copied == FirstChunks(content, faults.interrupted.value) && x == Staging(w, r, newId, id, copied)
       case Verified(i, copied) =>
         && i == id && copied == content && Copyable(w, newId, NO_FAULTS) && faults == NO_FAULTS
         && Intact(c, w.doc, content)
         && x == Mid(w, r, newId, Verified(id, content), w.files[Partial(id) := content])
       case InPlace(i, placed) =>
         i == id && Succeeds(c, w, newId, faults, placed, x.files)
         && x == Mid(w, r, newId, InPlace(id, placed), x.files)
       case Cleared =>
         && x.log.promoted.Some? && Succeeds(c, w, newId, faults, x.log.promoted.value, x.files)
         && x == Owing(w, r, newId, RecordClean(CleanPromotion.Begin(w.doc), id), x.files, x.log.promoted.value,
                       Cleared)
       case Unflagged =>
         && x.log.promoted.Some? && Succeeds(c, w, newId, faults, x.log.promoted.value, x.files) && faults.unlink
         && x == Owing(w, r, newId, RecordClean(CleanPromotion.Begin(w.doc), id), x.files, x.log.promoted.value,
                       Unflagged)
       case Aborting(i, code) =>
         i == id && FailsAnyWay(c, w, newId, faults, code, x.files)
         && x == Mid(w, r, newId, Aborting(id, code), x.files)
       case Aborted(code) =>
         && !faults.root && !faults.look && Copied(c, w, newId, faults).1 == Err(code)
         && x.files == Cleaned(Copied(c, w, newId, faults).0, id, faults)
         && x == Mid(w, r, newId, Aborted(code), x.files)
  }

  ghost predicate StageOrEnd(c: Settings, w: World, r: RunId, newId: Uuid, faults: Faults, x: World)
    requires Startable(w, r)
  {
    if r in x.promotions then Stage(c, w, r, newId, faults, x)
    else newId !in w.used && x == Outcome(c, w, newId, faults)
  }

  /** A step other than a crash, from a stage of the attempt, with what it leads to. */
  ghost predicate OwnStep(c: Settings, r: RunId, x: World, s: PromoteStep, v: World) {
    !s.Crash? && Next(c, x, Promoter(r, s)) == Some(v)
  }

  // Opening the destination and the source.

  function Opened(c: Settings, w: World, id: Uuid): (PromotionRun, Files) {
    if Final(id) in w.files then
      (if Intact(c, w.doc, w.files[Final(id)]) then InPlace(id, w.files[Final(id)])
       else Aborting(id, DESTINATION_CONFLICT),
       w.files)
    else if w.doc.source.size != Some(|w.quarantine.content|) then (Aborting(id, DIGEST_MISMATCH), w.files)
    else if Partial(id) in w.files then (Aborting(id, COPY_FAILED), w.files)
    else (Copying(id, []), w.files[Partial(id) := []])
  }

  lemma Opening(c: Settings, w: World, r: RunId, newId: Uuid)
    requires Ready(w, r, newId) && w.quarantine.linked
    ensures var id := NewIdentifier(w.doc, newId);
            Next(c, Mid(w, r, newId, Resolved(id), w.files), Promoter(r, Open))
            == Some(Mid(w, r, newId, Opened(c, w, id).0, Opened(c, w, id).1))
  {
    BaseFacts(w, r);
    var id := NewIdentifier(w.doc, newId);
    OpeningFromResolved(c, w, r, newId, id, Opened(c, w, id).0, Opened(c, w, id).1);
  }

  lemma OpenedStage(c: Settings, w: World, r: RunId, newId: Uuid) returns (faults: Faults)
    requires Ready(w, r, newId) && w.quarantine.linked && !w.doc.source.path.InCleanStorage?
    ensures var (next, files) := Opened(c, w, NewIdentifier(w.doc, newId));
            Stage(c, w, r, newId, faults, Mid(w, r, newId, next, files))
  {
    var id := NewIdentifier(w.doc, newId);
    faults := if Opened(c, w, id).0.Copying? then NO_FAULTS.(interrupted := Some(0)) else NO_FAULTS;
  }

  lemma FailedOpenStage(c: Settings, w: World, r: RunId, newId: Uuid, fault: CopyFault) returns (faults: Faults)
    requires Ready(w, r, newId) && w.quarantine.linked && !w.doc.source.path.InCleanStorage?
    requires var id := NewIdentifier(w.doc, newId);
             MayFail(Mid(w, r, newId, Resolved(id), w.files), Resolved(id), fault)
    ensures Stage(c, w, r, newId, faults,
                  Mid(w, r, newId, Aborting(NewIdentifier(w.doc, newId), FaultCode(fault)), w.files))
  {
    BaseFacts(w, r);
    faults := match fault
      case ProbeFails => NO_FAULTS.(probe := true)
      case OpenFails => NO_FAULTS.(open := true)
      case NotRegular => NO_FAULTS.(irregular := true)
      case _ => NO_FAULTS.(create := true);
  }

  lemma FromResolved(c: Settings, w: World, r: RunId, newId: Uuid, x: World, s: PromoteStep, v: World)
    returns (faults: Faults)
    requires Startable(w, r) && Stage(c, w, r, newId, NO_FAULTS, x) && x.promotions[r].Resolved?
    requires OwnStep(c, r, x, s, v)
    ensures Stage(c, w, r, newId, faults, v)
  {
    if s.Open? {
      Opening(c, w, r, newId);
      faults := OpenedStage(c, w, r, newId);
    } else {
      Faulting(c, w, r, newId, x.promotions[r], w.files, s.fault);
      faults := FailedOpenStage(c, w, r, newId, s.fault);
    }
  }

  // The copy.

  lemma LongerCopyStage(c: Settings, w: World, r: RunId, newId: Uuid, n: nat)
    requires Ready(w, r, newId) && Copyable(w, newId, NO_FAULTS)
    ensures Stage(c, w, r, newId, NO_FAULTS.(interrupted := Some(n)),
                  Staging(w, r, newId, NewIdentifier(w.doc, newId), FirstChunks(w.quarantine.content, n)))
  {
  }

  lemma CheckedStage(c: Settings, w: World, r: RunId, newId: Uuid)
    requires Ready(w, r, newId) && Copyable(w, newId, NO_FAULTS)
    ensures var id, content := NewIdentifier(w.doc, newId), w.quarantine.content;
            Stage(c, w, r, newId, NO_FAULTS,
                  Mid(w, r, newId,
                      if Intact(c, w.doc, content) then Verified(id, content) else Aborting(id, DIGEST_MISMATCH),
                      w.files[Partial(id) := content]))
  {
  }

  lemma InterruptedStage(c: Settings, w: World, r: RunId, newId: Uuid, n: nat)
    requires Ready(w, r, newId) && Copyable(w, newId, NO_FAULTS)
    ensures var id := NewIdentifier(w.doc, newId);
            Stage(c, w, r, newId, NO_FAULTS.(interrupted := Some(n)),
                  Mid(w, r, newId, Aborting(id, COPY_FAILED),
                      w.files[Partial(id) := FirstChunks(w.quarantine.content, n)]))
  {
  }

  lemma FromCopying(c: Settings, w: World, r: RunId, newId: Uuid, faults: Faults, x: World, s: PromoteStep, v: World)
    returns (met: Faults)
    requires Startable(w, r) && Stage(c, w, r, newId, faults, x) && x.promotions[r].Copying? && OwnStep(c, r, x, s, v)
    ensures Stage(c, w, r, newId, met, v)
  {
    var id, n := NewIdentifier(w.doc, newId), faults.interrupted.value;
    var copied := x.promotions[r].copied;
    if s.CopyChunk? {
      CopyingAChunk(c, w, r, newId, id, n);
      LongerCopyStage(c, w, r, newId, n + 1);
      met := NO_FAULTS.(interrupted := Some(n + 1));
    } else if s.Verify? {
      assert copied == w.quarantine.content;
      VerifyingTheCopy(c, w, r, newId, id, w.files[Partial(id) := copied]);
      CheckedStage(c, w, r, newId);
      met := NO_FAULTS;
    } else {
      Faulting(c, w, r, newId, x.promotions[r], w.files[Partial(id) := copied], s.fault);
      InterruptedStage(c, w, r, newId, n);
      met := faults;
    }
  }

  // From the verified copy to the end.

  lemma PlacedStage(c: Settings, w: World, r: RunId, newId: Uuid)
    requires Ready(w, r, newId) && Copyable(w, newId, NO_FAULTS) && Intact(c, w.doc, w.quarantine.content)
    ensures var id, content := NewIdentifier(w.doc, newId), w.quarantine.content;
            Stage(c, w, r, newId, NO_FAULTS, Mid(w, r, newId, InPlace(id, content), w.files[Final(id) := content]))
  {
  }

  lemma UnflushedStage(c: Settings, w: World, r: RunId, newId: Uuid, fault: CopyFault) returns (faults: Faults)
    requires Ready(w, r, newId) && Copyable(w, newId, NO_FAULTS) && Intact(c, w.doc, w.quarantine.content)
    requires fault.FlushFails? || fault.RenameFails?
    ensures var id, content := NewIdentifier(w.doc, newId), w.quarantine.content;
            Stage(c, w, r, newId, faults,
                  Mid(w, r, newId, Aborting(id, FaultCode(fault)), w.files[Partial(id) := content]))
  {
    var id := NewIdentifier(w.doc, newId);
    assert w.files[Partial(id) := w.quarantine.content] - {Partial(id)} == w.files - {Partial(id)};
    faults := if fault.FlushFails? then NO_FAULTS.(fsync := true) else NO_FAULTS.(rename := true);
  }

  lemma FromVerified(c: Settings, w: World, r: RunId, newId: Uuid, x: World, s: PromoteStep, v: World)
    returns (faults: Faults)
    requires Startable(w, r) && Stage(c, w, r, newId, NO_FAULTS, x) && x.promotions[r].Verified?
    requires OwnStep(c, r, x, s, v)
    ensures Stage(c, w, r, newId, faults, v)
  {
    var id, content := NewIdentifier(w.doc, newId), w.quarantine.content;
    if s.Rename? {
      RenamingTheCopy(c, w, r, newId, id, content);
      PlacedStage(c, w, r, newId);
      faults := NO_FAULTS;
    } else {
      Faulting(c, w, r, newId, x.promotions[r], w.files[Partial(id) := content], s.fault);
      faults := UnflushedStage(c, w, r, newId, s.fault);
    }
  }

  lemma FromInPlace(c: Settings, w: World, r: RunId, newId: Uuid, faults: Faults, x: World, s: PromoteStep, v: World)
    requires Startable(w, r) && Stage(c, w, r, newId, faults, x) && x.promotions[r].InPlace? && OwnStep(c, r, x, s, v)
    ensures Stage(c, w, r, newId, faults, v)
  {
    CommittingClean(c, w, r, newId, NewIdentifier(w.doc, newId), x.promotions[r].content, x.files);
  }

  lemma SuccessIgnoresUnlink(c: Settings, w: World, newId: Uuid, faults: Faults, content: Bytes, files: Files,
                             unlink: bool)
    requires w.doc.source.digest.Some? && w.doc.source.size.Some?
    requires Succeeds(c, w, newId, faults, content, files)
    ensures Succeeds(c, w, newId, faults.(unlink := unlink), content, files)
  {
  }

  lemma UnflaggedStage(c: Settings, w: World, r: RunId, newId: Uuid, faults: Faults, content: Bytes, files: Files)
    requires Ready(w, r, newId) && Succeeds(c, w, newId, faults, content, files) && faults.unlink
    ensures Stage(c, w, r, newId, faults,
                  Owing(w, r, newId, RecordClean(CleanPromotion.Begin(w.doc), NewIdentifier(w.doc, newId)), files,
                        content, Unflagged))
  {
  }

  lemma OnlyTheUnlink(c: Settings, r: RunId, x: World, s: PromoteStep, v: World)
    requires r in x.promotions && x.promotions[r].Cleared? && OwnStep(c, r, x, s, v)
    ensures s.Unlink? && v == UnlinkStep(x, r, s.ok)
  {
  }

  lemma FromCleared(c: Settings, w: World, r: RunId, newId: Uuid, faults: Faults, x: World, ok: bool, met: Faults,
                    v: World)
    requires Startable(w, r) && Stage(c, w, r, newId, faults, x) && x.promotions[r].Cleared?
    requires v == UnlinkStep(x, r, ok) && met == faults.(unlink := !ok)
    ensures StageOrEnd(c, w, r, newId, met, v)
  {
    var clean, content := RecordClean(CleanPromotion.Begin(w.doc), NewIdentifier(w.doc, newId)), x.log.promoted.value;
    SuccessIgnoresUnlink(c, w, newId, faults, content, x.files, !ok);
    Leaving(w, r, Cleared);
    if ok {
      WholeSucceeds(c, w, newId, met, x.files, content);
    } else {
      assert w.promotions[r := Cleared][r := Unflagged] == w.promotions[r := Unflagged];
      UnflaggedStage(c, w, r, newId, met, content, x.files);
    }
  }

  lemma FromUnflagged(c: Settings, w: World, r: RunId, newId: Uuid, faults: Faults, x: World, s: PromoteStep, v: World)
    requires Startable(w, r) && Stage(c, w, r, newId, faults, x) && x.promotions[r].Unflagged? && OwnStep(c, r, x, s, v)
    ensures StageOrEnd(c, w, r, newId, faults, v)
  {
    var content := x.log.promoted.value;
    FlaggingTheSource(c, w, r, newId, RecordClean(CleanPromotion.Begin(w.doc), NewIdentifier(w.doc, newId)), x.files,
                      content);
    WholeSucceeds(c, w, newId, faults, x.files, content);
  }

  // From a failure to the end.

  lemma OnlyTheCleanup(c: Settings, r: RunId, x: World, s: PromoteStep, v: World)
    requires r in x.promotions && x.promotions[r].Aborting? && OwnStep(c, r, x, s, v) && !s.Raise?
    ensures s.Cleanup? && v == CleanupStep(x, r, x.promotions[r].id, x.promotions[r].code, s.ok)
  {
  }

  lemma RaisingFromAborting(c: Settings, w: World, r: RunId, newId: Uuid, faults: Faults, x: World, v: World)
    requires Startable(w, r) && Stage(c, w, r, newId, faults, x) && x.promotions[r].Aborting?
    requires Next(c, x, Promoter(r, Raise)) == Some(v)
    ensures StageOrEnd(c, w, r, newId, faults.(look := true), v)
  {
    var code := x.promotions[r].code;
    RaisingTheLook(c, w, r, newId, NewIdentifier(w.doc, newId), code, x.files);
    WholeFails(c, w, newId, faults.(look := true), code, x.files);
  }

  lemma FromAborting(c: Settings, w: World, r: RunId, newId: Uuid, faults: Faults, x: World, ok: bool, v: World)
    requires Startable(w, r) && Stage(c, w, r, newId, faults, x) && x.promotions[r].Aborting?
    requires v == CleanupStep(x, r, x.promotions[r].id, x.promotions[r].code, ok)
    ensures Stage(c, w, r, newId, faults.(cleanup := !ok), v)
  {
    var id, code := NewIdentifier(w.doc, newId), x.promotions[r].code;
    Replaced(w, r, newId, Aborting(id, code), x.files, Aborted(code));
    assert FailsWith(c, w, newId, faults.(cleanup := !ok), code, x.files);
  }

  lemma OnlyTheRecord(c: Settings, r: RunId, x: World, s: PromoteStep, v: World)
    requires r in x.promotions && x.promotions[r].Aborted? && OwnStep(c, r, x, s, v)
    ensures s.RecordAbort?
  {
  }

  lemma FromAborted(c: Settings, w: World, r: RunId, newId: Uuid, faults: Faults, x: World, s: PromoteStep, v: World)
    requires Startable(w, r) && Stage(c, w, r, newId, faults, x) && x.promotions[r].Aborted? && OwnStep(c, r, x, s, v)
    ensures StageOrEnd(c, w, r, newId, faults, v)
  {
    var code := x.promotions[r].code;
    OnlyTheRecord(c, r, x, s, v);
    RecordingTheAbort(c, w, r, newId, code, x.files);
    WholeFails(c, w, newId, faults, code, Copied(c, w, newId, faults).0);
  }

  // The first two steps, and the whole.

  lemma SearchedStage(c: Settings, w: World, r: RunId, newId: Uuid, trouble: Trouble) returns (faults: Faults)
    requires Ready(w, r, newId)
    ensures Stage(c, w, r, newId, faults, Mid(w, r, newId, Searched(w, NewIdentifier(w.doc, newId), trouble), w.files))
  {
    faults := NO_FAULTS.(resolve := trouble.PathFails?, search := trouble.SearchFails?);
  }

  lemma OnlyTheResolution(c: Settings, r: RunId, x: World, s: PromoteStep, v: World)
    requires r in x.promotions && x.promotions[r].Entered? && OwnStep(c, r, x, s, v) && !s.Raise?
    ensures s.Resolve? && s.newId !in x.used && v == ResolveStep(x, r, s.newId, s.trouble)
  {
  }

  lemma {:induction false} AFreshId(used: set<Uuid>) returns (id: Uuid)
    ensures forall other :: other in used ==> other < id
    decreases |used|
  {
    if used == {} {
      id := 0;
    } else {
      var one :| one in used;
      var above := AFreshId(used - {one});
      id := if one < above then above else one + 1;
      forall other | other in used ensures other < id {
        assert other == one || other in used - {one};
      }
    }
  }

  /** The storage root is missing: no identifier is drawn, so any will do. */
  lemma RaisingFromEntered(c: Settings, w: World, r: RunId, v: World) returns (newId: Uuid)
    requires Startable(w, r) && Next(c, AtEntry(w, r), Promoter(r, Raise)) == Some(v)
    ensures StageOrEnd(c, w, r, newId, NO_FAULTS.(root := true), v)
  {
    RaisingTheRoot(c, w, r);
    newId := AFreshId(w.used);
  }

  lemma FromEntered(c: Settings, w: World, r: RunId, newId: Uuid, faults: Faults, x: World, s: PromoteStep, v: World)
    returns (drawn: Uuid, met: Faults)
    requires Startable(w, r) && Stage(c, w, r, newId, faults, x) && x.promotions[r].Entered? && OwnStep(c, r, x, s, v)
    ensures StageOrEnd(c, w, r, drawn, met, v)
  {
    if s.Raise? {
      drawn := RaisingFromEntered(c, w, r, v);
      met := NO_FAULTS.(root := true);
    } else {
      OnlyTheResolution(c, r, x, s, v);
      drawn := s.newId;
      Resolving(c, w, r, drawn, s.trouble);
      met := SearchedStage(c, w, r, drawn, s.trouble);
    }
  }

  lemma FromTheStart(c: Settings, w: World, r: RunId, s: PromoteStep, v: World)
    requires Startable(w, r) && OwnStep(c, r, w, s, v)
    ensures forall newId :: Stage(c, w, r, newId, NO_FAULTS, v)
  {
  }

  predicate Copies(run: PromotionRun) {
    run.Resolved? || run.Copying? || run.Verified?
  }

  lemma FromTheCopy(c: Settings, w: World, r: RunId, newId: Uuid, faults: Faults, x: World, s: PromoteStep, v: World)
    returns (met: Faults)
    requires Startable(w, r) && Stage(c, w, r, newId, faults, x) && Copies(x.promotions[r]) && OwnStep(c, r, x, s, v)
    ensures Stage(c, w, r, newId, met, v)
  {
    match x.promotions[r]
    case Resolved(_) => met := FromResolved(c, w, r, newId, x, s, v);
    case Copying(_, _) => met := FromCopying(c, w, r, newId, faults, x, s, v);
    case Verified(_, _) => met := FromVerified(c, w, r, newId, x, s, v);
  }

  predicate Placed(run: PromotionRun) {
    run.InPlace? || run.Cleared? || run.Unflagged?
  }

  lemma FromThePlacedFile(c: Settings, w: World, r: RunId, newId: Uuid, faults: Faults, x: World, s: PromoteStep,
                          v: World)
    returns (met: Faults)
    requires Startable(w, r) && Stage(c, w, r, newId, faults, x) && Placed(x.promotions[r]) && OwnStep(c, r, x, s, v)
    ensures StageOrEnd(c, w, r, newId, met, v)
  {
    met := faults;
    if x.promotions[r].InPlace? {
      FromInPlace(c, w, r, newId, faults, x, s, v);
    } else if x.promotions[r].Cleared? {
      OnlyTheUnlink(c, r, x, s, v);
      met := faults.(unlink := !s.ok);
      FromCleared(c, w, r, newId, faults, x, s.ok, met, v);
    } else {
      FromUnflagged(c, w, r, newId, faults, x, s, v);
    }
  }

  lemma FromAFailure(c: Settings, w: World, r: RunId, newId: Uuid, faults: Faults, x: World, s: PromoteStep, v: World)
    returns (met: Faults)
    requires Startable(w, r) && Stage(c, w, r, newId, faults, x) && OwnStep(c, r, x, s, v)
    requires x.promotions[r].Aborting? || x.promotions[r].Aborted?
    ensures StageOrEnd(c, w, r, newId, met, v)
  {
    if x.promotions[r].Aborting? && s.Raise? {
      met := faults.(look := true);
      RaisingFromAborting(c, w, r, newId, faults, x, v);
    } else if x.promotions[r].Aborting? {
      OnlyTheCleanup(c, r, x, s, v);
      met := faults.(cleanup := !s.ok);
      FromAborting(c, w, r, newId, faults, x, s.ok, v);
    } else {
      met := faults;
      FromAborted(c, w, r, newId, faults, x, s, v);
    }
  }

  lemma FromAnyStage(c: Settings, w: World, r: RunId, newId: Uuid, faults: Faults, x: World, s: PromoteStep, v: World)
    returns (drawn: Uuid, met: Faults)
    requires Startable(w, r) && Stage(c, w, r, newId, faults, x) && OwnStep(c, r, x, s, v)
    ensures StageOrEnd(c, w, r, drawn, met, v)
  {
    if x.promotions[r].Entered? {
      drawn, met := FromEntered(c, w, r, newId, faults, x, s, v);
    } else if Copies(x.promotions[r]) {
      drawn := newId;
      met := FromTheCopy(c, w, r, newId, faults, x, s, v);
    } else if Placed(x.promotions[r]) {
      drawn := newId;
      met := FromThePlacedFile(c, w, r, newId, faults, x, s, v);
    } else {
      drawn := newId;
      met := FromAFailure(c, w, r, newId, faults, x, s, v);
    }
  }

  /** The steps of one attempt that does not crash. */
  ghost predicate OneAttempt(steps: seq<Step>, r: RunId) {
    && OwnSteps(steps, r)
    && forall i :: 0 <= i < |steps| ==> !steps[i].promote.Crash? && (steps[i].promote.Enter? ==> i == 0)
  }

  lemma {:induction false} OnItsWay(c: Settings, w: World, r: RunId, steps: seq<Step>, v: World)
    returns (newId: Uuid, faults: Faults)
    requires Startable(w, r) && steps != [] && OneAttempt(steps, r) && Runs(c, w, steps, v)
    ensures StageOrEnd(c, w, r, newId, faults, v)
    decreases |steps|
  {
    var before, last := steps[..|steps| - 1], steps[|steps| - 1].promote;
    var x := Exec(c, w, before).value;
    if before == [] {
      newId, faults := 0, NO_FAULTS;
      FromTheStart(c, w, r, last, v);
    } else {
      newId, faults := OnItsWay(c, w, r, before, x);
      NothingAfterTheEnd(c, r, x, last);
      newId, faults := FromAnyStage(c, w, r, newId, faults, x, last, v);
    }
  }

  lemma NothingAfterTheEnd(c: Settings, r: RunId, x: World, s: PromoteStep)
    requires !s.Enter? && Next(c, x, Promoter(r, s)).Some?
    ensures r in x.promotions
  {
  }

  /**
   * Every attempt that nobody interferes with and that runs to its end leaves the row, both stores and
   * the log as `PromoteDocument` leaves them under some identifier and some faults.
   */
  lemma EveryFinishedAttemptIsPromote(c: Settings, w: World, r: RunId, steps: seq<Step>)
    returns (newId: Uuid, faults: Faults)
    requires Promotable(w.doc.status) && w.doc.source.digest.Some? && w.doc.source.size.Some?
    requires w.lock.None? && r !in w.promotions
    requires steps != [] && OneAttempt(steps, r) && Exec(c, w, steps).Some? && r !in Exec(c, w, steps).value.promotions
    ensures Ready(w, r, newId) && Exec(c, w, steps).value == Outcome(c, w, newId, faults)
  {
    newId, faults := OnItsWay(c, w, r, steps, Exec(c, w, steps).value);
  }
}
