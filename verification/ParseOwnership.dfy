/**
 * PARSING is left by the attempt that owns it or not at all: exactly which documents can still move
 * on, and exactly what strands one.
 */
module ParseOwnership {
  import opened Basics
  import opened IngestionState
  import Scan = MalwareScan
  import opened CleanPromotion
  import Parse = DocumentParsing
  import opened Pipeline
  import opened PipelineHistory
  import opened PipelineCounters
  import opened PipelineRuns

  /** Only the attempt whose token the row stores can leave PARSING. */
  lemma OnlyTheOwnerLeavesParsing(c: Settings, w: World, s: Step)
    requires w.doc.status == Parsing && Next(c, w, s).Some? && Next(c, w, s).value.doc.status != Parsing
    ensures s.Parser? && s.parser in w.parses && (s.parse.Persist? || s.parse.RecordFail?)
    ensures w.doc.parse.token == Some(w.parses[s.parser].snapshot.token)
  {
    match s
    case Intake(i) => IntakeEffect(w, i);
    case Scanner(i) => ScanEffect(c, w, i);
    case Promoter(r, i) => PromoteEffect(c, w, r, i);
    case Recover(i) => RecoverEffect(w, i);
    case Parser(r, i) => if i.Persist? { PersistMoves(w.doc, w.parses[r].snapshot, w.parses[r].response); }
    case Tamper(_) =>
  }

  /** The row waits for an attempt that no worker carries any more. */
  ghost predicate Stranded(w: World) {
    && w.doc.status == Parsing
    && (w.doc.parse.token.Some? ==> w.doc.parse.token.value in w.used)
    && Unowned(w)
  }

  lemma StrandedParse(c: Settings, w: World, r: RunId, i: ParseStep)
    requires Stranded(w) && ParseNext(c, w, r, i).Some?
    ensures Stranded(ParseNext(c, w, r, i).value)
  {
    if i.Persist? {
      PersistMoves(w.doc, w.parses[r].snapshot, w.parses[r].response);
    }
  }

  lemma StrandedElsewhere(w: World, v: World)
    requires Stranded(w) && SameParsePart(w, v) && w.used <= v.used && v.doc.status == w.doc.status
    ensures Stranded(v)
  {
  }

  lemma StrandedStep(c: Settings, w: World, s: Step)
    requires Stranded(w) && Next(c, w, s).Some?
    ensures Stranded(Next(c, w, s).value)
  {
    if s.Parser? {
      StrandedParse(c, w, s.parser, s.parse);
    } else {
      StrandedElsewhereStep(c, w, s);
    }
  }

  lemma StrandedElsewhereStep(c: Settings, w: World, s: Step)
    requires Stranded(w) && !s.Parser? && Next(c, w, s).Some?
    ensures Stranded(Next(c, w, s).value)
  {
    match s
    case Intake(_) => assert false;
    case Scanner(i) => ScanEffect(c, w, i); StrandedElsewhere(w, ScanNext(c, w, i).value);
    case Promoter(r, i) => PromoteEffect(c, w, r, i); StrandedElsewhere(w, PromoteNext(c, w, r, i).value);
    case Recover(_) => assert false;
    case Tamper(i) => StrandedElsewhere(w, TamperNext(w, i));
  }

  /**
   * There is no recovery from PARSING but the owning attempt itself: once it has ended unrecorded, the
   * document stays in PARSING through every continuation of the run.
   */
  lemma {:induction false} NothingRecoversAStrandedDocument(c: Settings, w: World, steps: seq<Step>)
    requires Stranded(w) && Exec(c, w, steps).Some?
    ensures Exec(c, w, steps).value.doc.status == Parsing && Stranded(Exec(c, w, steps).value)
    decreases |steps|
  {
    if steps != [] {
      NothingRecoversAStrandedDocument(c, w, steps[..|steps| - 1]);
      StrandedStep(c, Exec(c, w, steps[..|steps| - 1]).value, steps[|steps| - 1]);
    }
  }

  // The row lock that promotion may hold is never in the parser's way.

  ghost predicate LockInv(w: World) {
    w.lock.Some? ==> w.doc.status == Promoting && w.lock.value in w.promotions
  }

  lemma FileStepKeepsLock(c: Settings, w: World, r: RunId, s: PromoteStep)
    requires LockInv(w) && TouchesFiles(s) && PromoteNext(c, w, r, s).Some?
    ensures LockInv(PromoteNext(c, w, r, s).value)
  {
  }

  lemma PromoteKeepsLock(c: Settings, w: World, r: RunId, s: PromoteStep)
    requires LockInv(w) && PromoteNext(c, w, r, s).Some?
    ensures LockInv(PromoteNext(c, w, r, s).value)
  {
    if TouchesFiles(s) {
      FileStepKeepsLock(c, w, r, s);
    }
  }

  lemma NextKeepsLock(c: Settings, w: World, s: Step)
    requires LockInv(w) && Next(c, w, s).Some?
    ensures LockInv(Next(c, w, s).value)
  {
    match s
    case Intake(i) => IntakeEffect(w, i);
    case Scanner(i) => ScanEffect(c, w, i);
    case Promoter(r, i) => PromoteKeepsLock(c, w, r, i);
    case Recover(i) => RecoverEffect(w, i);
    case Parser(r, i) => ParseEffect(c, w, r, i);
    case Tamper(i) =>
  }

  lemma {:induction false} LockAlways(c: Settings, upload: Bytes, steps: seq<Step>)
    requires Exec(c, Init(c, upload), steps).Some?
    ensures LockInv(Exec(c, Init(c, upload), steps).value)
    decreases |steps|
  {
    if steps != [] {
      LockAlways(c, upload, steps[..|steps| - 1]);
      NextKeepsLock(c, Exec(c, Init(c, upload), steps[..|steps| - 1]).value, steps[|steps| - 1]);
    }
  }

  ghost predicate Owner(w: World, r: RunId) {
    r in w.parses && Some(w.parses[r].snapshot.token) == w.doc.parse.token
  }

  /** The owner closes its attempt. */
  predicate Closing(run: ParseRun) {
    run.Answered? || run.Failing?
  }

  function ClosingStep(r: RunId, run: ParseRun): Step {
    Parser(r, if run.Answered? then Persist else RecordFail)
  }

  lemma AnswerCloses(c: Settings, w: World, r: RunId)
    requires w.doc.status == Parsing && w.lock.None? && Owner(w, r) && w.parses[r].Answered?
    ensures Next(c, w, Parser(r, Persist)).Some? && Next(c, w, Parser(r, Persist)).value.doc.status != Parsing
  {
    PersistCloses(w.doc, w.parses[r].snapshot, w.parses[r].response);
  }

  lemma FailureCloses(c: Settings, w: World, r: RunId)
    requires w.doc.status == Parsing && w.lock.None? && Owner(w, r) && w.parses[r].Failing?
    ensures Next(c, w, Parser(r, RecordFail)).Some? && Next(c, w, Parser(r, RecordFail)).value.doc.status != Parsing
  {
    FailCloses(w.doc, w.parses[r].snapshot, w.parses[r].code);
  }

  lemma OwnerCloses(c: Settings, w: World, r: RunId)
    requires w.doc.status == Parsing && w.lock.None? && Owner(w, r) && Closing(w.parses[r])
    ensures Next(c, w, ClosingStep(r, w.parses[r])).Some?
    ensures Next(c, w, ClosingStep(r, w.parses[r])).value.doc.status != Parsing
  {
    if w.parses[r].Failing? {
      FailureCloses(c, w, r);
    } else {
      AnswerCloses(c, w, r);
    }
  }

  lemma FailCloses(d: Doc, s: Parse.Snapshot, code: string)
    requires Parse.OwnsAttempt(d, s)
    ensures Parse.Fail(d, s, code, code).status == ParseFailed
  {
  }

  /** Before that it reads the promoted file and gives up on the service, if nothing else. */
  lemma OwnerGetsOn(c: Settings, w: World, r: RunId)
    requires w.doc.status == Parsing && w.lock.None? && Owner(w, r) && !Closing(w.parses[r])
    ensures var s := Parser(r, if w.parses[r].Reading? then ReadClean else NoAnswer("PARSER_UNAVAILABLE"));
            && Next(c, w, s).Some?
            && var v := Next(c, w, s).value;
               v.doc == w.doc && v.lock == w.lock && Owner(v, r)
               && (Closing(v.parses[r]) || (w.parses[r].Reading? && v.parses[r].Sent?))
  {
  }

  /** Left alone, the attempt that owns the document takes it out of PARSING in at most three steps. */
  lemma TheOwnerLeavesParsing(c: Settings, w: World, r: RunId) returns (steps: seq<Step>)
    requires w.doc.status == Parsing && w.lock.None? && Owner(w, r)
    ensures Exec(c, w, steps).Some? && Exec(c, w, steps).value.doc.status != Parsing
    ensures |steps| <= (if w.parses[r].Reading? then 3 else if w.parses[r].Sent? then 2 else 1)
    ensures forall i :: 0 <= i < |steps| ==> steps[i].Parser? && steps[i].parser == r
    decreases if w.parses[r].Reading? then 2 else if w.parses[r].Sent? then 1 else 0
  {
    if Closing(w.parses[r]) {
      var s := ClosingStep(r, w.parses[r]);
      OwnerCloses(c, w, r);
      OneStep(c, w, s, Next(c, w, s).value);
      steps := [s];
    } else {
      var s := Parser(r, if w.parses[r].Reading? then ReadClean else NoAnswer("PARSER_UNAVAILABLE"));
      OwnerGetsOn(c, w, r);
      var v := Next(c, w, s).value;
      var rest := TheOwnerLeavesParsing(c, v, r);
      steps := StepThen(c, w, s, v, rest, Exec(c, v, rest).value);
    }
  }

  /** Some continuation of the run, outside changes of the stored files included, takes the document on. */
  ghost predicate CanLeaveParsing(c: Settings, w: World) {
    exists steps :: Exec(c, w, steps).Some? && Exec(c, w, steps).value.doc.status != Parsing
  }

  /**
   * In every reachable state, a document in PARSING can leave it if and only if a live attempt has the
   * token it stores.
   */
  lemma LeavesParsingExactlyWhenOwned(c: Settings, upload: Bytes, steps: seq<Step>)
    requires Exec(c, Init(c, upload), steps).Some?
    requires Exec(c, Init(c, upload), steps).value.doc.status == Parsing
    ensures var w := Exec(c, Init(c, upload), steps).value;
            CanLeaveParsing(c, w) <==>
              exists r :: r in w.parses && Some(w.parses[r].snapshot.token) == w.doc.parse.token
  {
    var w := Exec(c, Init(c, upload), steps).value;
    LockAlways(c, upload, steps);
    ParseInvAlways(c, upload, steps);
    if r :| r in w.parses && Some(w.parses[r].snapshot.token) == w.doc.parse.token {
      var out := TheOwnerLeavesParsing(c, w, r);
    } else {
      forall more | Exec(c, w, more).Some? ensures Exec(c, w, more).value.doc.status == Parsing {
        NothingRecoversAStrandedDocument(c, w, more);
      }
    }
  }

  // What strands a document.

  /** The attempt is over and the row does not say so. */
  predicate EndsUnrecorded(i: ParseStep) {
    i.CrashParse? || i.WriteFails?
  }

  ghost predicate LosesTheOwner(w: World, s: Step) {
    w.doc.status == Parsing && s.Parser? && EndsUnrecorded(s.parse) && Owner(w, s.parser)
  }

  lemma AnUnrecordedEndStrands(c: Settings, w: World, r: RunId, i: ParseStep)
    requires ParseInv(c, w) && w.doc.status == Parsing && EndsUnrecorded(i) && ParseNext(c, w, r, i).Some?
    ensures Stranded(ParseNext(c, w, r, i).value) <==> Owner(w, r) || Stranded(w)
  {
    var v := ParseNext(c, w, r, i).value;
    assert v.doc == w.doc && v.parses == w.parses - {r};
    if Stranded(v) && !Owner(w, r) {
      forall q | q in w.parses ensures Some(w.parses[q].snapshot.token) != w.doc.parse.token {
        if q != r { assert q in v.parses; }
      }
    }
  }

  lemma NothingStrandsBeforeParsing(c: Settings, w: World, r: RunId, i: ParseStep)
    requires ParseInv(c, w) && w.doc.status != Parsing && ParseNext(c, w, r, i).Some?
    ensures !Stranded(ParseNext(c, w, r, i).value)
  {
    var v := ParseNext(c, w, r, i).value;
    if i.Begin? {
      assert Owner(v, r);
    } else if i.Persist? {
      PersistMoves(w.doc, w.parses[r].snapshot, w.parses[r].response);
    }
  }

  lemma AnAnswerDoesNotStrand(c: Settings, w: World, r: RunId, run: ParseRun)
    requires ParseInv(c, w) && !Stranded(w) && w.doc.status == Parsing && r in w.parses && w.parses[r] == run
    requires run.Answered?
    ensures !Stranded(PersistStep(w, r, run.snapshot, run.content, run.response))
  {
    var v := PersistStep(w, r, run.snapshot, run.content, run.response);
    PersistEffect(w, r, run.snapshot, run.content, run.response);
    PersistCloses(w.doc, run.snapshot, run.response);
    OwnerStays(c, w, v, r);
  }

  lemma PersistCloses(d: Doc, s: Parse.Snapshot, response: Parse.Response)
    ensures Parse.Persist(d, s, response).parse.token == d.parse.token
    ensures Parse.OwnsAttempt(d, s) ==> Parse.Persist(d, s, response).status != Parsing
  {
    PersistMoves(d, s, response);
  }

  lemma OwnerStays(c: Settings, w: World, v: World, r: RunId)
    requires ParseInv(c, w) && !Stranded(w) && w.doc.status == Parsing
    requires v.doc.parse.token == w.doc.parse.token
    requires v.doc.status == Parsing && Owner(w, r) ==> r in v.parses && v.parses[r].snapshot == w.parses[r].snapshot
    requires forall q :: q in w.parses && q != r ==> q in v.parses && v.parses[q] == w.parses[q]
    ensures !Stranded(v)
  {
    assert !Unowned(w);
    var q :| q in w.parses && Some(w.parses[q].snapshot.token) == w.doc.parse.token;
    if v.doc.status == Parsing {
      assert Owner(w, q) && Owner(v, q);
    }
  }

  lemma StepsThatLeaveItOwned(c: Settings, w: World, r: RunId, i: ParseStep)
    requires ParseInv(c, w) && !Stranded(w) && !EndsUnrecorded(i) && ParseNext(c, w, r, i).Some?
    ensures !Stranded(ParseNext(c, w, r, i).value)
  {
    if w.doc.status != Parsing {
      NothingStrandsBeforeParsing(c, w, r, i);
    } else if i.Persist? {
      AnAnswerDoesNotStrand(c, w, r, w.parses[r]);
    } else {
      OwnerStays(c, w, ParseNext(c, w, r, i).value, r);
    }
  }

  lemma OwnedElsewhere(c: Settings, w: World, v: World)
    requires ParseInv(c, w) && !Stranded(w) && SameParsePart(w, v)
    requires v.doc.status == Parsing ==> w.doc.status == Parsing
    ensures !Stranded(v)
  {
  }

  lemma OwnedInPromotion(c: Settings, w: World, r: RunId, i: PromoteStep)
    requires ParseInv(c, w) && !Stranded(w) && PromoteNext(c, w, r, i).Some?
    ensures !Stranded(PromoteNext(c, w, r, i).value)
  {
    PromoteEffect(c, w, r, i);
    OwnedElsewhere(c, w, PromoteNext(c, w, r, i).value);
  }

  lemma OwnedWhileScanning(c: Settings, w: World, s: Step)
    requires ParseInv(c, w) && !Stranded(w) && (s.Intake? || s.Scanner?) && Next(c, w, s).Some?
    ensures !Stranded(Next(c, w, s).value)
  {
    match s
    case Intake(i) => IntakeEffect(w, i);
    case Scanner(i) => ScanEffect(c, w, i);
    OwnedElsewhere(c, w, Next(c, w, s).value);
  }

  lemma OwnedInRecovery(c: Settings, w: World, i: RecoverStep)
    requires ParseInv(c, w) && !Stranded(w) && RecoverNext(w, i).Some?
    ensures !Stranded(RecoverNext(w, i).value)
  {
    RecoverEffect(w, i);
    OwnedElsewhere(c, w, RecoverNext(w, i).value);
  }

  lemma OwnedElsewhereStep(c: Settings, w: World, s: Step)
    requires ParseInv(c, w) && !Stranded(w) && !s.Parser? && Next(c, w, s).Some?
    ensures !Stranded(Next(c, w, s).value)
  {
    match s
    case Intake(_) => OwnedWhileScanning(c, w, s);
    case Scanner(_) => OwnedWhileScanning(c, w, s);
    case Promoter(r, i) => OwnedInPromotion(c, w, r, i);
    case Recover(i) => OwnedInRecovery(c, w, i);
    case Tamper(i) => OwnedElsewhere(c, w, TamperNext(w, i));
  }

  /** One step strands a document if and only if the attempt that owns it ends with it, unrecorded. */
  lemma AStepStrandsExactlyWhen(c: Settings, w: World, s: Step)
    requires ParseInv(c, w) && !Stranded(w) && Next(c, w, s).Some?
    ensures Stranded(Next(c, w, s).value) <==> LosesTheOwner(w, s)
  {
    if !s.Parser? {
      OwnedElsewhereStep(c, w, s);
    } else if !EndsUnrecorded(s.parse) {
      StepsThatLeaveItOwned(c, w, s.parser, s.parse);
    } else if w.doc.status == Parsing {
      AnUnrecordedEndStrands(c, w, s.parser, s.parse);
    } else {
      assert Next(c, w, s).value.doc == w.doc;
    }
  }

  lemma StrandsOrWasStranded(c: Settings, w: World, s: Step, v: World)
    requires ParseInv(c, w) && Next(c, w, s) == Some(v)
    ensures Stranded(v) <==> Stranded(w) || LosesTheOwner(w, s)
  {
    if Stranded(w) {
      StrandedStep(c, w, s);
    } else {
      AStepStrandsExactlyWhen(c, w, s);
    }
  }

  /**
   * In every run, a document is stranded if and only if the attempt that owned it ended unrecorded: it
   * crashed, or a write of its own failed.
   */
  lemma {:induction false} StrandedExactlyWhenItsOwnerRecordedNothing(c: Settings, upload: Bytes, steps: seq<Step>)
    requires Exec(c, Init(c, upload), steps).Some?
    ensures Stranded(Exec(c, Init(c, upload), steps).value) <==> Happened(c, Init(c, upload), steps, LosesTheOwner)
    decreases |steps|
  {
    if steps != [] {
      var before := steps[..|steps| - 1];
      StrandedExactlyWhenItsOwnerRecordedNothing(c, upload, before);
      ParseInvAlways(c, upload, before);
      StrandsOrWasStranded(c, Exec(c, Init(c, upload), before).value, steps[|steps| - 1],
                           Exec(c, Init(c, upload), steps).value);
    }
  }
}
