/**
 * No bytes are lost: without outside change to the files, whatever promotion attempts overlap and
 * wherever they crash, the row's path always leads to the uploaded bytes.
 */
module PromotionSafety {
  import opened Basics
  import opened IngestionState
  import opened CleanPromotion
  import opened Pipeline
  import opened PipelineHistory
  import opened PipelineChain
  import opened PipelineRuns

  function IdOf(run: PromotionRun): Option<Uuid> {
    match run
    case Resolved(id) => Some(id)
    case Copying(id, _) => Some(id)
    case Verified(id, _) => Some(id)
    case InPlace(id, _) => Some(id)
    case Aborting(id, _) => Some(id)
    case _ => None
  }

  predicate Live(run: PromotionRun) {
    run.Resolved? || run.Copying? || run.Verified? || run.InPlace?
  }

  ghost predicate Prefix(a: Bytes, b: Bytes) {
    |a| <= |b| && a == b[..|a|]
  }

  predicate NoFinal(w: World, id: Uuid) {
    Final(id) !in w.files
  }

  /** A live attempt owns its names, and what it has written so far is a prefix of the upload. */
  ghost predicate RunOk(w: World, run: PromotionRun) {
    && (IdOf(run).Some? ==> IdOf(run).value in w.used)
    && (Live(run) ==> w.doc.promotion.cleanId != IdOf(run))
    && match run
       case Resolved(id) => NoFinal(w, id) && Partial(id) !in w.files
       case Copying(id, copied) => NoFinal(w, id) && Partial(id) in w.files && w.files[Partial(id)] == copied
                                      && Prefix(copied, w.log.original)
       case Verified(id, copied) => NoFinal(w, id) && Partial(id) in w.files
                                    && w.files[Partial(id)] == copied == w.log.original
       case InPlace(id, content) => Final(id) in w.files && w.files[Final(id)] == content == w.log.original
       case Cleared => PastPromotion(w.doc.status)
       case Unflagged => PastPromotion(w.doc.status)
       case _ => true
  }

  /** No live attempt shares its identifier with any other attempt. */
  ghost predicate Separate(promotions: map<RunId, PromotionRun>) {
    forall r, q :: r in promotions && q in promotions && r != q && Live(promotions[r]) ==>
      IdOf(promotions[r]) != IdOf(promotions[q])
  }

  /** What the row's path leads to. */
  function BytesAtPath(w: World): Option<Bytes> {
    match w.doc.source.path
    case InQuarantine => if w.quarantine.linked then Some(w.quarantine.content) else None
    case InCleanStorage(id) => if Final(id) in w.files then Some(w.files[Final(id)]) else None
  }

  ghost predicate Located(w: World) {
    && w.quarantine.content == w.log.original
    && BytesAtPath(w) == Some(w.log.original)
    && (if PastPromotion(w.doc.status) then
          && w.doc.promotion.cleanId.Some?
          && w.doc.source.path == InCleanStorage(w.doc.promotion.cleanId.value)
        else w.doc.promotion.cleanId.None? && w.doc.source.path == InQuarantine)
  }

  function Uid(n: Name): Uuid {
    n.id
  }

  ghost predicate NamesUsed(w: World) {
    && (forall n :: n in w.files ==> Uid(n) in w.used)
    && (w.doc.promotion.cleanId.Some? ==> w.doc.promotion.cleanId.value in w.used)
  }

  ghost predicate SafeInv(c: Settings, w: World) {
    && BaseInv(c, w) && Located(w) && NamesUsed(w) && Separate(w.promotions)
    && (forall r :: r in w.promotions ==> RunOk(w, w.promotions[r]))
  }

  // One lemma a step of a promotion attempt.

  lemma ReplacingARun(w: World, r: RunId, run: PromotionRun)
    requires Separate(w.promotions)
    requires Live(run) || IdOf(run).Some? ==>
               forall q :: q in w.promotions && q != r ==> IdOf(w.promotions[q]) != IdOf(run)
    ensures Separate(w.promotions[r := run])
  {
  }

  lemma KeepingTheId(w: World, r: RunId, run: PromotionRun)
    requires Separate(w.promotions) && r in w.promotions && Live(w.promotions[r])
    requires IdOf(run) == IdOf(w.promotions[r]) || IdOf(run).None?
    ensures Separate(w.promotions[r := run])
  {
    forall q | q in w.promotions && q != r ensures IdOf(w.promotions[q]) != IdOf(w.promotions[r]) {
    }
    if IdOf(run).Some? {
      ReplacingARun(w, r, run);
    }
  }

  /** A file step of one attempt that touches no name but its own leaves the other attempts alone. */
  lemma OthersUntouched(w: World, v: World, r: RunId, id: Uuid)
    requires forall q :: q in w.promotions ==> RunOk(w, w.promotions[q])
    requires Separate(w.promotions) && r in w.promotions && Live(w.promotions[r]) && IdOf(w.promotions[r]) == Some(id)
    requires v.doc == w.doc && v.log == w.log && w.used <= v.used
    requires forall n :: Uid(n) != id ==> (n in v.files <==> n in w.files)
    requires forall n :: Uid(n) != id && n in w.files ==> v.files[n] == w.files[n]
    ensures forall q :: q in w.promotions && q != r ==> RunOk(v, w.promotions[q])
  {
    forall q | q in w.promotions && q != r ensures RunOk(v, w.promotions[q]) {
      var run := w.promotions[q];
      assert RunOk(w, run);
      if IdOf(run).Some? && Live(run) {
        var other := IdOf(run).value;
        assert other != id;
        assert Uid(Final(other)) != id && Uid(Partial(other)) != id;
      }
    }
  }

  lemma LocatedFrame(w: World, v: World, id: Uuid)
    requires Located(w) && NamesUsed(w) && w.doc.promotion.cleanId != Some(id)
    requires v.doc == w.doc && v.log == w.log && v.quarantine == w.quarantine && v.used == w.used && id in w.used
    requires forall n :: Uid(n) != id ==> (n in v.files <==> n in w.files)
    requires forall n :: Uid(n) != id && n in w.files ==> v.files[n] == w.files[n]
    ensures Located(v) && NamesUsed(v)
  {
    if PastPromotion(w.doc.status) {
      assert Uid(Final(w.doc.promotion.cleanId.value)) != id;
    }
  }

  lemma ResolveSafe(c: Settings, w: World, r: RunId, newId: Uuid, trouble: Trouble)
    requires SafeInv(c, w) && r in w.promotions && w.promotions[r].Entered? && newId !in w.used
    ensures SafeInv(c, ResolveStep(w, r, newId, trouble))
  {
    var v := ResolveStep(w, r, newId, trouble);
    var run := v.promotions[r];
    if PastPromotion(w.doc.status) {
      assert run.Aborting? && IdOf(run) == w.doc.promotion.cleanId;
      forall p, q | p in v.promotions && q in v.promotions && p != q && Live(v.promotions[p])
        ensures IdOf(v.promotions[p]) != IdOf(v.promotions[q])
      {
        assert RunOk(w, w.promotions[p]);
      }
    } else {
      assert IdOf(run) == Some(newId);
      assert Uid(Final(newId)) !in w.used && Uid(Partial(newId)) !in w.used;
      forall q | q in w.promotions && q != r ensures IdOf(w.promotions[q]) != IdOf(run) {
        assert RunOk(w, w.promotions[q]);
      }
      ReplacingARun(w, r, run);
    }
    forall q | q in v.promotions ensures RunOk(v, v.promotions[q]) {
      if q != r { assert RunOk(w, w.promotions[q]); }
    }
  }

  /** The branch that would reuse or refuse an existing destination is not taken. */
  lemma DestinationIsNew(c: Settings, w: World, r: RunId)
    requires SafeInv(c, w) && r in w.promotions && w.promotions[r].Resolved?
    ensures var id := w.promotions[r].id;
            && Final(id) !in w.files && Partial(id) !in w.files
            && OpenStep(c, w, r, id).promotions[r] == if w.quarantine.linked then Copying(id, [])
                                                      else Aborting(id, SOURCE_MISSING)
  {
    assert RunOk(w, w.promotions[r]);
  }

  lemma FileStepSafe(c: Settings, w: World, v: World, r: RunId, id: Uuid)
    requires SafeInv(c, w) && r in w.promotions && Live(w.promotions[r]) && IdOf(w.promotions[r]) == Some(id)
    requires r in v.promotions && v == At(w, r, v.promotions[r]).(files := v.files)
    requires (IdOf(v.promotions[r]) == Some(id) || IdOf(v.promotions[r]).None?)
    requires forall n :: Uid(n) != id ==> (n in v.files <==> n in w.files)
    requires forall n :: Uid(n) != id && n in w.files ==> v.files[n] == w.files[n]
    requires RunOk(v, v.promotions[r])
    ensures SafeInv(c, v)
  {
    assert RunOk(w, w.promotions[r]);
    KeepingTheId(w, r, v.promotions[r]);
    OthersUntouched(w, v, r, id);
    LocatedFrame(w, v, id);
  }

  lemma OpenSafe(c: Settings, w: World, r: RunId)
    requires SafeInv(c, w) && r in w.promotions && w.promotions[r].Resolved?
    ensures SafeInv(c, OpenStep(c, w, r, w.promotions[r].id))
  {
    DestinationIsNew(c, w, r);
    assert RunOk(w, w.promotions[r]);
    FileStepSafe(c, w, OpenStep(c, w, r, w.promotions[r].id), r, w.promotions[r].id);
  }

  lemma CopySafe(c: Settings, w: World, r: RunId)
    requires SafeInv(c, w) && r in w.promotions && w.promotions[r].Copying?
    requires |w.promotions[r].copied| < |w.quarantine.content|
    requires Partial(w.promotions[r].id) in w.files
    ensures SafeInv(c, CopyStep(w, r, w.promotions[r].id, w.promotions[r].copied))
  {
    var id, copied := w.promotions[r].id, w.promotions[r].copied;
    assert RunOk(w, w.promotions[r]);
    var v := CopyStep(w, r, id, copied);
    var upTo := Min(|copied| + CHUNK_SIZE, |w.quarantine.content|);
    assert w.log.original[..|copied|] + w.log.original[|copied|..upTo] == w.log.original[..upTo];
    assert v.promotions[r].copied == w.log.original[..upTo];
    FileStepSafe(c, w, v, r, id);
  }

  lemma VerifySafe(c: Settings, w: World, r: RunId)
    requires SafeInv(c, w) && r in w.promotions && w.promotions[r].Copying?
    requires |w.promotions[r].copied| >= |w.quarantine.content|
    ensures SafeInv(c, VerifyStep(c, w, r, w.promotions[r].id, w.promotions[r].copied))
    ensures VerifyStep(c, w, r, w.promotions[r].id, w.promotions[r].copied).promotions[r].Verified?
  {
    var id, copied := w.promotions[r].id, w.promotions[r].copied;
    assert RunOk(w, w.promotions[r]);
    assert copied == w.log.original;
    FileStepSafe(c, w, VerifyStep(c, w, r, id, copied), r, id);
  }

  lemma RenameSafe(c: Settings, w: World, r: RunId)
    requires SafeInv(c, w) && r in w.promotions && w.promotions[r].Verified? && Partial(w.promotions[r].id) in w.files
    ensures SafeInv(c, RenameStep(w, r, w.promotions[r].id, w.promotions[r].copied))
  {
    assert RunOk(w, w.promotions[r]);
    FileStepSafe(c, w, RenameStep(w, r, w.promotions[r].id, w.promotions[r].copied), r, w.promotions[r].id);
  }

  lemma FaultSafe(c: Settings, w: World, r: RunId, code: string)
    requires SafeInv(c, w) && r in w.promotions && Live(w.promotions[r]) && !w.promotions[r].InPlace?
    ensures SafeInv(c, At(w, r, Aborting(w.promotions[r].id, code)))
  {
    assert RunOk(w, w.promotions[r]);
    FileStepSafe(c, w, At(w, r, Aborting(w.promotions[r].id, code)), r, w.promotions[r].id);
  }

  /** Cleaning up after one attempt cannot remove what another attempt is writing. */
  lemma CleanupSafe(c: Settings, w: World, r: RunId, ok: bool)
    requires SafeInv(c, w) && r in w.promotions && w.promotions[r].Aborting?
    ensures SafeInv(c, CleanupStep(w, r, w.promotions[r].id, w.promotions[r].code, ok))
  {
    var id := w.promotions[r].id;
    var v := CleanupStep(w, r, id, w.promotions[r].code, ok);
    forall q | q in v.promotions ensures RunOk(v, v.promotions[q]) {
      assert RunOk(w, w.promotions[q]);
      if q != r && Live(w.promotions[q]) {
        assert IdOf(w.promotions[q]) != IdOf(w.promotions[r]);
      }
    }
  }

  lemma LeavingSafe(c: Settings, w: World, v: World, r: RunId)
    requires SafeInv(c, w)
    requires v.promotions == w.promotions - {r} && v.files == w.files && v.used == w.used && v.log == w.log
    requires BaseInv(c, v) && Located(v) && NamesUsed(v)
    requires v.doc.promotion.cleanId == w.doc.promotion.cleanId
    requires (PastPromotion(w.doc.status) ==> PastPromotion(v.doc.status))
    ensures SafeInv(c, v)
  {
    forall q | q in v.promotions ensures RunOk(v, v.promotions[q]) {
      assert RunOk(w, w.promotions[q]);
    }
  }

  lemma RecordAbortSafe(c: Settings, w: World, r: RunId, code: string)
    requires SafeInv(c, w)
    ensures SafeInv(c, RecordAbortStep(w, r, code))
  {
    RecordAbortKeepsBase(c, w, r, code);
    RecordAbortEffect(w, r, code);
    LeavingSafe(c, w, RecordAbortStep(w, r, code), r);
  }

  lemma CommitSafe(c: Settings, w: World, r: RunId)
    requires SafeInv(c, w) && r in w.promotions && w.promotions[r].InPlace?
    ensures SafeInv(c, CommitStep(w, r, w.promotions[r].id, w.promotions[r].content))
  {
    var id, content := w.promotions[r].id, w.promotions[r].content;
    var v := CommitStep(w, r, id, content);
    CommitKeepsBase(c, w, r, id, content);
    CommitEffect(w, r, id, content);
    assert RunOk(w, w.promotions[r]);
    if w.doc.status != Promoting {
      LeavingSafe(c, w, v, r);
    } else {
      forall q | q in v.promotions ensures RunOk(v, v.promotions[q]) {
        if q != r {
          assert RunOk(w, w.promotions[q]);
          assert Live(w.promotions[q]) ==> IdOf(w.promotions[q]) != Some(id);
        }
      }
    }
  }

  lemma UnlinkSafe(c: Settings, w: World, r: RunId, ok: bool)
    requires SafeInv(c, w) && r in w.promotions && w.promotions[r].Cleared?
    ensures SafeInv(c, UnlinkStep(w, r, ok))
  {
    assert RunOk(w, w.promotions[r]);
    var v := UnlinkStep(w, r, ok);
    if ok && w.quarantine.linked {
      LeavingSafe(c, w, v, r);
    } else {
      forall q | q in v.promotions ensures RunOk(v, v.promotions[q]) {
        if q != r { assert RunOk(w, w.promotions[q]); }
      }
    }
  }

  lemma FlagSafe(c: Settings, w: World, r: RunId)
    requires SafeInv(c, w) && r in w.promotions && w.promotions[r].Unflagged?
    ensures SafeInv(c, FlagStep(w, r))
  {
    LeavingSafe(c, w, FlagStep(w, r), r);
  }

  lemma EnteringOthersSafe(w: World, v: World, r: RunId)
    requires forall q :: q in w.promotions ==> RunOk(w, w.promotions[q])
    requires Separate(w.promotions) && v.promotions == w.promotions[r := Entered]
    requires v.files == w.files && v.used == w.used && v.log == w.log && !PastPromotion(w.doc.status)
    requires v.doc.promotion.cleanId == w.doc.promotion.cleanId
    ensures Separate(v.promotions) && forall q :: q in v.promotions ==> RunOk(v, v.promotions[q])
  {
    forall q | q in v.promotions ensures RunOk(v, v.promotions[q]) {
      if q != r { assert RunOk(w, w.promotions[q]); }
    }
  }

  lemma EnterSafe(c: Settings, w: World, r: RunId)
    requires SafeInv(c, w) && PromoteNext(c, w, r, Enter).Some?
    ensures SafeInv(c, PromoteNext(c, w, r, Enter).value)
  {
    PromoteKeepsBase(c, w, r, Enter);
    var v := PromoteNext(c, w, r, Enter).value;
    assert v.doc.source == w.doc.source && v.doc.promotion.cleanId == w.doc.promotion.cleanId
           && !PastPromotion(v.doc.status);
    EnteringOthersSafe(w, v, r);
  }

  lemma RunStepSafe(c: Settings, w: World, r: RunId, s: PromoteStep)
    requires SafeInv(c, w) && r in w.promotions && RunNext(c, w, r, w.promotions[r], s).Some?
    ensures SafeInv(c, RunNext(c, w, r, w.promotions[r], s).value)
  {
    match s
    case Resolve(newId, trouble) => ResolveSafe(c, w, r, newId, trouble);
    case Open => OpenSafe(c, w, r);
    case CopyChunk => CopySafe(c, w, r);
    case Verify => VerifySafe(c, w, r);
    case Rename => RenameSafe(c, w, r);
    case Fault(fault) => FaultSafe(c, w, r, FaultCode(fault));
    case Cleanup(ok) => CleanupSafe(c, w, r, ok);
    case RecordAbort => RecordAbortSafe(c, w, r, w.promotions[r].code);
    case Commit => CommitSafe(c, w, r);
    case Unlink(ok) => UnlinkSafe(c, w, r, ok);
    case Flag => FlagSafe(c, w, r);
    case Raise => LeavingSafe(c, w, Release(w, r), r);
    case Crash => LeavingSafe(c, w, Release(w, r), r);
  }

  /** The scanner, the parser and the recovery handler stay out of the stores. */
  lemma ElsewhereSafe(c: Settings, w: World, v: World)
    requires SafeInv(c, w) && BaseInv(c, v)
    requires SamePromotionPart(w, v) && SameFiles(w, v) && w.used <= v.used && v.log.original == w.log.original
    requires PastPromotion(v.doc.status) <==> PastPromotion(w.doc.status)
    ensures SafeInv(c, v)
  {
    forall q | q in v.promotions ensures RunOk(v, v.promotions[q]) {
      assert RunOk(w, w.promotions[q]);
    }
  }

  lemma ScanSideSafe(c: Settings, w: World, s: Step)
    requires SafeInv(c, w) && (s.Intake? || s.Scanner?) && Next(c, w, s).Some?
    ensures SafeInv(c, Next(c, w, s).value)
  {
    if s.Intake? {
      IntakeKeepsBase(c, w, s.intake);
      IntakeEffect(w, s.intake);
    } else {
      ScanKeepsBase(c, w, s.scan);
      ScanEffect(c, w, s.scan);
    }
    ElsewhereSafe(c, w, Next(c, w, s).value);
  }

  lemma RecoverSafe(c: Settings, w: World, i: RecoverStep)
    requires SafeInv(c, w) && RecoverNext(w, i).Some?
    ensures SafeInv(c, RecoverNext(w, i).value)
  {
    RecoverKeepsBase(c, w, i);
    RecoverEffect(w, i);
    ElsewhereSafe(c, w, RecoverNext(w, i).value);
  }

  lemma ParserSafe(c: Settings, w: World, r: RunId, i: ParseStep)
    requires SafeInv(c, w) && ParseNext(c, w, r, i).Some?
    ensures SafeInv(c, ParseNext(c, w, r, i).value)
  {
    ParseKeepsBase(c, w, r, i);
    ParseEffect(c, w, r, i);
    ElsewhereSafe(c, w, ParseNext(c, w, r, i).value);
  }

  lemma NextSafe(c: Settings, w: World, s: Step)
    requires SafeInv(c, w) && !s.Tamper? && Next(c, w, s).Some?
    ensures SafeInv(c, Next(c, w, s).value)
  {
    match s
    case Intake(_) => ScanSideSafe(c, w, s);
    case Scanner(_) => ScanSideSafe(c, w, s);
    case Promoter(r, i) => if i.Enter? { EnterSafe(c, w, r); } else { RunStepSafe(c, w, r, i); }
    case Recover(i) => RecoverSafe(c, w, i);
    case Parser(r, i) => ParserSafe(c, w, r, i);
  }

  lemma {:induction false} SafeAlways(c: Settings, upload: Bytes, steps: seq<Step>)
    requires Untampered(steps) && Exec(c, Init(c, upload), steps).Some?
    ensures SafeInv(c, Exec(c, Init(c, upload), steps).value)
    decreases |steps|
  {
    if steps != [] {
      SafeAlways(c, upload, steps[..|steps| - 1]);
      NextSafe(c, Exec(c, Init(c, upload), steps[..|steps| - 1]).value, steps[|steps| - 1]);
    }
  }

  /** In every reachable state the path on the row leads to exactly the bytes that were uploaded. */
  lemma NoBytesAreLost(c: Settings, upload: Bytes, steps: seq<Step>)
    requires Untampered(steps) && Exec(c, Init(c, upload), steps).Some?
    ensures BytesAtPath(Exec(c, Init(c, upload), steps).value) == Some(upload)
  {
    SafeAlways(c, upload, steps);
    ChainAlways(c, upload, steps);
  }

  /**
   * The source is unlinked only once the document is CLEAN or later under a final file of the
   * recorded size and digest; while promotion can still be retried the source is there.
   */
  lemma SourceOutlivesPromotion(c: Settings, upload: Bytes, steps: seq<Step>)
    requires Untampered(steps) && Exec(c, Init(c, upload), steps).Some?
    ensures var w := Exec(c, Init(c, upload), steps).value;
            && (!w.quarantine.linked ==> PastPromotion(w.doc.status))
            && (PastPromotion(w.doc.status) ==>
                  && w.doc.promotion.cleanId.Some? && Final(w.doc.promotion.cleanId.value) in w.files
                  && Intact(c, w.doc, w.files[Final(w.doc.promotion.cleanId.value)]))
            && (Promotable(w.doc.status) ==> w.quarantine.linked && w.quarantine.content == upload)
  {
    SafeAlways(c, upload, steps);
    ChainAlways(c, upload, steps);
  }

  /** Attempts always copy under a name nobody has used, so the idempotent-completion branch never runs. */
  lemma DestinationsAreAlwaysNew(c: Settings, upload: Bytes, steps: seq<Step>, r: RunId)
    requires Untampered(steps) && Exec(c, Init(c, upload), steps).Some?
    requires r in Exec(c, Init(c, upload), steps).value.promotions
    requires Exec(c, Init(c, upload), steps).value.promotions[r].Resolved?
    ensures var w := Exec(c, Init(c, upload), steps).value;
            Final(w.promotions[r].id) !in w.files && Partial(w.promotions[r].id) !in w.files
  {
    SafeAlways(c, upload, steps);
    DestinationIsNew(c, Exec(c, Init(c, upload), steps).value, r);
  }

  /** The source is still stored after promotion, is not flagged for cleanup, and no attempt is left to do either. */
  ghost predicate Leftover(w: World) {
    && PastPromotion(w.doc.status) && w.quarantine.linked && !w.doc.promotion.cleanupPending
    && forall r :: r in w.promotions ==> !w.promotions[r].Cleared? && !w.promotions[r].Unflagged?
  }

  /** A step of an attempt that owes no clean-up leaves every debt of the others in place. */
  lemma OthersStillOwe(w: World, v: World, r: RunId)
    requires !Leftover(w) && r in w.promotions && !w.promotions[r].Cleared? && !w.promotions[r].Unflagged?
    requires v.doc.status == w.doc.status && v.quarantine == w.quarantine
    requires v.doc.promotion.cleanupPending == w.doc.promotion.cleanupPending
    requires forall q :: q in w.promotions && q != r ==> q in v.promotions && v.promotions[q] == w.promotions[q]
    ensures !Leftover(v)
  {
    if PastPromotion(v.doc.status) && v.quarantine.linked && !v.doc.promotion.cleanupPending {
      var q :| q in w.promotions && (w.promotions[q].Cleared? || w.promotions[q].Unflagged?);
      assert v.promotions[q] == w.promotions[q];
    }
  }

  lemma FileStepLeavesNothingOver(c: Settings, w: World, r: RunId, i: PromoteStep)
    requires !Leftover(w) && (TouchesFiles(i) || i.Resolve? || i.Fault? || i.Raise?) && PromoteNext(c, w, r, i).Some?
    ensures !Leftover(PromoteNext(c, w, r, i).value)
  {
    OthersStillOwe(w, PromoteNext(c, w, r, i).value, r);
  }

  lemma ClosingStepLeavesNothingOver(c: Settings, w: World, r: RunId, i: PromoteStep)
    requires !Leftover(w) && (i.RecordAbort? || i.Commit?) && PromoteNext(c, w, r, i).Some?
    ensures !Leftover(PromoteNext(c, w, r, i).value)
  {
    var v := PromoteNext(c, w, r, i).value;
    if w.doc.status != Promoting {
      OthersStillOwe(w, v, r);
    } else if i.Commit? {
      assert v.promotions[r].Cleared?;
    }
  }

  lemma DebtStepLeavesNothingOver(c: Settings, w: World, r: RunId, i: PromoteStep)
    requires (i.Unlink? || i.Flag?) && PromoteNext(c, w, r, i).Some?
    ensures !Leftover(PromoteNext(c, w, r, i).value)
  {
    var v := PromoteNext(c, w, r, i).value;
    if i.Unlink? && v.quarantine.linked {
      assert v.promotions[r].Unflagged?;
    }
  }

  lemma PromoterLeavesNothingOver(c: Settings, w: World, r: RunId, i: PromoteStep)
    requires !Leftover(w) && !i.Crash? && PromoteNext(c, w, r, i).Some?
    ensures !Leftover(PromoteNext(c, w, r, i).value)
  {
    match i
    case Enter =>
    case RecordAbort => ClosingStepLeavesNothingOver(c, w, r, i);
    case Commit => ClosingStepLeavesNothingOver(c, w, r, i);
    case Unlink(_) => DebtStepLeavesNothingOver(c, w, r, i);
    case Flag => DebtStepLeavesNothingOver(c, w, r, i);
    case _ => FileStepLeavesNothingOver(c, w, r, i);
  }

  lemma NextLeavesNothingOver(c: Settings, w: World, s: Step)
    requires SafeInv(c, w) && !s.Tamper? && Next(c, w, s).Some?
    requires !Leftover(w) && !(s.Promoter? && s.promote.Crash?)
    ensures !Leftover(Next(c, w, s).value)
  {
    match s
    case Intake(i) => IntakeEffect(w, i);
    case Scanner(i) => ScanEffect(c, w, i);
    case Promoter(r, i) => PromoterLeavesNothingOver(c, w, r, i);
    case Recover(i) => RecoverEffect(w, i);
    case Parser(r, i) => ParseEffect(c, w, r, i);
  }

  lemma LeftoverStep(c: Settings, w: World, s: Step)
    requires Leftover(w) && !s.Tamper? && Next(c, w, s).Some?
    ensures Leftover(Next(c, w, s).value)
  {
    match s
    case Intake(i) => IntakeEffect(w, i);
    case Scanner(i) => ScanEffect(c, w, i);
    case Promoter(r, i) => LeftoverPromoter(c, w, r, i);
    case Recover(i) => RecoverEffect(w, i);
    case Parser(r, i) => ParseEffect(c, w, r, i);
  }

  lemma LeftoverPromoter(c: Settings, w: World, r: RunId, i: PromoteStep)
    requires Leftover(w) && PromoteNext(c, w, r, i).Some?
    ensures Leftover(PromoteNext(c, w, r, i).value)
  {
  }

  /**
   * The one way to lose track of a source: the last attempt that still owes its removal or its flag
   * crashes, and nobody has flagged it.
   */
  ghost predicate Abandons(w: World, s: Step) {
    && s.Promoter? && s.promote.Crash? && s.run in w.promotions
    && (w.promotions[s.run].Cleared? || w.promotions[s.run].Unflagged?)
    && w.quarantine.linked && !w.doc.promotion.cleanupPending
    && forall q :: q in w.promotions && q != s.run ==> !w.promotions[q].Cleared? && !w.promotions[q].Unflagged?
  }

  lemma CrashAbandonsExactlyWhen(c: Settings, w: World, r: RunId)
    requires SafeInv(c, w) && !Leftover(w) && r in w.promotions
    ensures Leftover(Release(w, r)) <==> Abandons(w, Promoter(r, Crash))
  {
    var v := Release(w, r);
    assert RunOk(w, w.promotions[r]);
    if Leftover(v) {
      var q :| q in w.promotions && (w.promotions[q].Cleared? || w.promotions[q].Unflagged?);
      assert q != r ==> q in v.promotions;
      forall p | p in w.promotions && p != r ensures !w.promotions[p].Cleared? && !w.promotions[p].Unflagged? {
        assert p in v.promotions;
      }
    }
  }

  lemma AStepLeavesOverExactlyWhen(c: Settings, w: World, s: Step, v: World)
    requires SafeInv(c, w) && !s.Tamper? && Next(c, w, s) == Some(v)
    ensures Leftover(v) <==> Leftover(w) || Abandons(w, s)
  {
    if Leftover(w) {
      LeftoverStep(c, w, s);
    } else if s.Promoter? && s.promote.Crash? {
      CrashAbandonsExactlyWhen(c, w, s.run);
    } else {
      NextLeavesNothingOver(c, w, s);
    }
  }

  /**
   * In every run a source is left over, stored and neither flagged nor owed a removal, if and only
   * if some step abandoned it. Crashes anywhere else do no harm.
   */
  lemma {:induction false} LeftOverExactlyWhenAbandoned(c: Settings, upload: Bytes, steps: seq<Step>)
    requires Untampered(steps) && Exec(c, Init(c, upload), steps).Some?
    ensures Leftover(Exec(c, Init(c, upload), steps).value) <==> Happened(c, Init(c, upload), steps, Abandons)
    decreases |steps|
  {
    if steps != [] {
      var before := steps[..|steps| - 1];
      LeftOverExactlyWhenAbandoned(c, upload, before);
      SafeAlways(c, upload, before);
      AStepLeavesOverExactlyWhen(c, Exec(c, Init(c, upload), before).value, steps[|steps| - 1],
                                 Exec(c, Init(c, upload), steps).value);
    }
  }

  /** Nothing ever removes or flags a source that was left over. */
  lemma {:induction false} LeftoversStay(c: Settings, w: World, steps: seq<Step>)
    requires Leftover(w) && Untampered(steps) && Exec(c, w, steps).Some?
    ensures Leftover(Exec(c, w, steps).value)
    decreases |steps|
  {
    if steps != [] {
      LeftoversStay(c, w, steps[..|steps| - 1]);
      LeftoverStep(c, Exec(c, w, steps[..|steps| - 1]).value, steps[|steps| - 1]);
    }
  }
}
