/** The digest chain over whole runs, with stored files free to change between steps. */
module PipelineChain {
  import opened Basics
  import opened IngestionState
  import Scan = MalwareScan
  import opened CleanPromotion
  import Parse = DocumentParsing
  import opened Pipeline
  import opened PipelineHistory

  /** The bytes read at some stage are ones the recorded digest vouches for. */
  predicate Vouched(c: Settings, w: World, content: Bytes) {
    c.scan.hash(content) == c.scan.hash(w.log.original) && |content| == |w.log.original|
  }

  predicate PastScanning(s: Status) {
    s in {CleanPendingPromotion, Promoting, PromotionFailed, Clean, Parsing, ParseFailed, Completed}
  }

  predicate PastPromotion(s: Status) {
    s in {Clean, Parsing, ParseFailed, Completed}
  }

  predicate SoundPromotionRun(c: Settings, w: World, run: PromotionRun) {
    match run
    case Verified(_, copied) => Vouched(c, w, copied)
    case InPlace(_, content) => Vouched(c, w, content)
    case _ => true
  }

  predicate SoundParseRun(c: Settings, w: World, run: ParseRun) {
    && run.snapshot.digest == c.scan.hash(w.log.original) && run.snapshot.size == |w.log.original|
    && (run.Sent? || run.Answered? ==> Vouched(c, w, run.content))
  }

  ghost predicate ScanLink(c: Settings, w: World) {
    PastScanning(w.doc.status) ==>
      && w.log.scanned.Some? && c.scan.hash(w.log.scanned.value) == c.scan.hash(w.log.original)
      && w.doc.scan.status == Some("CLEAN") && w.doc.scan.policy == Some("PASSED")
  }

  ghost predicate PromotionLink(c: Settings, w: World) {
    && (PastPromotion(w.doc.status) ==> w.log.promoted.Some? && Vouched(c, w, w.log.promoted.value))
    && (forall r :: r in w.promotions ==> SoundPromotionRun(c, w, w.promotions[r]))
  }

  ghost predicate ParseLink(c: Settings, w: World) {
    && (w.doc.status == Completed ==> w.log.parsed.Some? && Vouched(c, w, w.log.parsed.value))
    && (forall r :: r in w.parses ==> SoundParseRun(c, w, w.parses[r]))
  }

  ghost predicate ChainInv(c: Settings, w: World) {
    BaseInv(c, w) && ScanLink(c, w) && PromotionLink(c, w) && ParseLink(c, w)
  }

  lemma IntakeKeepsChain(c: Settings, w: World, i: IntakeStep)
    requires ChainInv(c, w) && IntakeNext(w, i).Some?
    ensures ChainInv(c, IntakeNext(w, i).value)
  {
    IntakeKeepsBase(c, w, i);
    IntakeEffect(w, i);
  }

  lemma ScanKeepsLink(c: Settings, w: World, i: ScanStep)
    requires BaseInv(c, w) && ScanLink(c, w) && ScanNext(c, w, i).Some?
    ensures ScanLink(c, ScanNext(c, w, i).value)
  {
    if i.EndScan? {
      FinishScanMoves(w.doc, Scan.Judge(c.scan, w.doc, i.seen));
    }
  }

  lemma ScanKeepsChain(c: Settings, w: World, i: ScanStep)
    requires ChainInv(c, w) && ScanNext(c, w, i).Some?
    ensures ChainInv(c, ScanNext(c, w, i).value)
  {
    ScanKeepsBase(c, w, i);
    ScanEffect(c, w, i);
    ScanKeepsLink(c, w, i);
    ParseLinkFrame(c, w, ScanNext(c, w, i).value);
  }

  lemma RunStepKeepsSound(c: Settings, w: World, r: RunId, s: PromoteStep)
    requires BaseInv(c, w) && PromotionLink(c, w) && PromoteNext(c, w, r, s).Some?
    ensures var v := PromoteNext(c, w, r, s).value;
            forall q :: q in v.promotions ==> SoundPromotionRun(c, v, v.promotions[q])
  {
  }

  lemma PromoteKeepsLink(c: Settings, w: World, r: RunId, s: PromoteStep)
    requires BaseInv(c, w) && PromotionLink(c, w) && PromoteNext(c, w, r, s).Some?
    ensures PromotionLink(c, PromoteNext(c, w, r, s).value)
  {
    RunStepKeepsSound(c, w, r, s);
    if s.Enter? {
    } else if s.Commit? {
      CommitEffect(w, r, w.promotions[r].id, w.promotions[r].content);
    } else if s.RecordAbort? {
      RecordAbortEffect(w, r, w.promotions[r].code);
    } else {
      QuietRunSteps(c, w, r, w.promotions[r], s);
    }
  }

  lemma PromoteKeepsChain(c: Settings, w: World, r: RunId, s: PromoteStep)
    requires ChainInv(c, w) && PromoteNext(c, w, r, s).Some?
    ensures ChainInv(c, PromoteNext(c, w, r, s).value)
  {
    PromoteKeepsBase(c, w, r, s);
    PromoteEffect(c, w, r, s);
    PromoteKeepsLink(c, w, r, s);
    ParseLinkFrame(c, w, PromoteNext(c, w, r, s).value);
  }

  lemma ParseLinkFrame(c: Settings, w: World, v: World)
    requires ParseLink(c, w) && SameParsePart(w, v) && v.log.original == w.log.original
    requires v.doc.status == Completed ==> w.doc.status == Completed
    ensures ParseLink(c, v)
  {
  }

  lemma RecoverKeepsChain(c: Settings, w: World, i: RecoverStep)
    requires ChainInv(c, w) && RecoverNext(w, i).Some?
    ensures ChainInv(c, RecoverNext(w, i).value)
  {
    RecoverKeepsBase(c, w, i);
    RecoverEffect(w, i);
  }

  lemma PersistKeepsLink(c: Settings, w: World, r: RunId)
    requires ParseLink(c, w) && r in w.parses && w.parses[r].Answered?
    ensures ParseLink(c, PersistStep(w, r, w.parses[r].snapshot, w.parses[r].content, w.parses[r].response))
  {
    var run := w.parses[r];
    assert SoundParseRun(c, w, run);
    PersistEffect(w, r, run.snapshot, run.content, run.response);
  }

  lemma RecordFailKeepsLink(c: Settings, w: World, r: RunId)
    requires ParseLink(c, w) && r in w.parses && w.parses[r].Failing?
    ensures ParseLink(c, RecordFailStep(w, r, w.parses[r].snapshot, w.parses[r].code))
  {
    var v := RecordFailStep(w, r, w.parses[r].snapshot, w.parses[r].code);
    assert v.doc.status == Completed ==> w.doc.status == Completed;
  }

  lemma OpenParsesKeepLink(c: Settings, w: World, r: RunId, s: ParseStep)
    requires BaseInv(c, w) && ParseLink(c, w) && !s.Begin? && !s.Persist? && !s.RecordFail?
    requires ParseNext(c, w, r, s).Some?
    ensures ParseLink(c, ParseNext(c, w, r, s).value)
  {
    assert SoundParseRun(c, w, w.parses[r]);
  }

  lemma ParseKeepsLink(c: Settings, w: World, r: RunId, s: ParseStep)
    requires BaseInv(c, w) && ParseLink(c, w) && ParseNext(c, w, r, s).Some?
    ensures ParseLink(c, ParseNext(c, w, r, s).value)
  {
    if s.Begin? {
    } else if s.Persist? {
      PersistKeepsLink(c, w, r);
    } else if s.RecordFail? {
      RecordFailKeepsLink(c, w, r);
    } else {
      OpenParsesKeepLink(c, w, r, s);
    }
  }

  lemma ParseKeepsChain(c: Settings, w: World, r: RunId, s: ParseStep)
    requires ChainInv(c, w) && ParseNext(c, w, r, s).Some?
    ensures ChainInv(c, ParseNext(c, w, r, s).value)
  {
    ParseKeepsBase(c, w, r, s);
    ParseEffect(c, w, r, s);
    ParseKeepsLink(c, w, r, s);
    var v := ParseNext(c, w, r, s).value;
    assert PromotionLink(c, v) && ScanLink(c, v);
  }

  lemma TamperKeepsChain(c: Settings, w: World, i: TamperStep)
    requires ChainInv(c, w)
    ensures ChainInv(c, TamperNext(w, i))
  {
    var v := TamperNext(w, i);
    assert v.doc == w.doc && v.log == w.log && v.promotions == w.promotions && v.parses == w.parses;
  }

  lemma NextKeepsChain(c: Settings, w: World, s: Step)
    requires ChainInv(c, w) && Next(c, w, s).Some?
    ensures ChainInv(c, Next(c, w, s).value)
  {
    match s
    case Intake(i) => IntakeKeepsChain(c, w, i);
    case Scanner(i) => ScanKeepsChain(c, w, i);
    case Promoter(r, i) => PromoteKeepsChain(c, w, r, i);
    case Recover(i) => RecoverKeepsChain(c, w, i);
    case Parser(r, i) => ParseKeepsChain(c, w, r, i);
    case Tamper(i) => TamperKeepsChain(c, w, i);
  }

  lemma {:induction false} ChainAlways(c: Settings, upload: Bytes, steps: seq<Step>)
    requires Exec(c, Init(c, upload), steps).Some?
    ensures ChainInv(c, Exec(c, Init(c, upload), steps).value)
    ensures Exec(c, Init(c, upload), steps).value.log.original == upload
    decreases |steps|
  {
    if steps != [] {
      ChainAlways(c, upload, steps[..|steps| - 1]);
      var w := Exec(c, Init(c, upload), steps[..|steps| - 1]).value;
      NextKeepsChain(c, w, steps[|steps| - 1]);
      OriginalIsKept(c, w, steps[|steps| - 1]);
    }
  }

  lemma OriginalIsKept(c: Settings, w: World, s: Step)
    requires Next(c, w, s).Some?
    ensures Next(c, w, s).value.log.original == w.log.original
  {
    match s
    case Intake(i) => IntakeEffect(w, i);
    case Scanner(i) => ScanEffect(c, w, i);
    case Promoter(r, i) => PromoteEffect(c, w, r, i);
    case Recover(i) => RecoverEffect(w, i);
    case Parser(r, i) => ParseEffect(c, w, r, i);
    case Tamper(i) =>
  }

  /** The recorded digest and size are those of the upload in every reachable state; nothing reassigns them. */
  lemma DigestIsNeverReassigned(c: Settings, upload: Bytes, steps: seq<Step>)
    requires Exec(c, Init(c, upload), steps).Some?
    ensures var d := Exec(c, Init(c, upload), steps).value.doc;
            d.source.digest == Some(c.scan.hash(upload)) && d.source.size == Some(|upload|)
  {
    ChainAlways(c, upload, steps);
  }

  /**
   * A COMPLETED document passed every stage in order; it was found clean and passed the content
   * policy; and the bytes scanned, promoted and parsed all hash to the digest taken at upload,
   * although anybody may rewrite the stored files between steps.
   */
  lemma CompletedMeansChecked(c: Settings, upload: Bytes, steps: seq<Step>)
    requires Exec(c, Init(c, upload), steps).Some?
    requires Exec(c, Init(c, upload), steps).value.doc.status == Completed
    ensures var w := Exec(c, Init(c, upload), steps).value;
            && EntersInOrder(w.doc.audit,
                             [Validating, Scanning, CleanPendingPromotion, Promoting, Clean, Parsing, Completed])
            && w.doc.scan.status == Some("CLEAN") && w.doc.scan.policy == Some("PASSED")
            && w.log.scanned.Some? && w.log.promoted.Some? && w.log.parsed.Some?
            && c.scan.hash(w.log.scanned.value) == c.scan.hash(w.log.promoted.value) == c.scan.hash(w.log.parsed.value)
               == c.scan.hash(upload)
            && w.doc.source.digest == Some(c.scan.hash(upload))
  {
    ChainAlways(c, upload, steps);
    var w := Exec(c, Init(c, upload), steps).value;
    NoStageIsSkipped(w.doc.audit, w.doc.status);
  }

  /** With a collision-free hash the three stages worked on the uploaded bytes themselves. */
  lemma CompletedMeansTheSameBytes(c: Settings, upload: Bytes, steps: seq<Step>)
    requires Injective(c.scan.hash)
    requires Exec(c, Init(c, upload), steps).Some?
    requires Exec(c, Init(c, upload), steps).value.doc.status == Completed
    ensures var w := Exec(c, Init(c, upload), steps).value;
            w.log.scanned == w.log.promoted == w.log.parsed == Some(upload)
  {
    CompletedMeansChecked(c, upload, steps);
  }
}
