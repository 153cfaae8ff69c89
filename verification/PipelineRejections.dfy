/** Which documents a run rejects after a scan, and that it never takes them back. */
module PipelineRejections {
  import opened Basics
  import opened IngestionState
  import Scan = MalwareScan
  import opened CleanPromotion
  import opened Pipeline
  import opened PipelineHistory
  import opened PipelineRuns

  lemma RejectedByTheScanner(c: Settings, w: World, i: ScanStep)
    requires Rejected(w.doc.status) && ScanNext(c, w, i).Some?
    ensures ScanNext(c, w, i).value.doc.status == w.doc.status && ScanNext(c, w, i).value.doc.audit == w.doc.audit
  {
    ScanEffect(c, w, i);
  }

  lemma RejectedStep(c: Settings, w: World, s: Step)
    requires Rejected(w.doc.status) && Next(c, w, s).Some?
    ensures Next(c, w, s).value.doc.status == w.doc.status && Next(c, w, s).value.doc.audit == w.doc.audit
  {
    match s
    case Intake(i) => IntakeEffect(w, i);
    case Scanner(i) => RejectedByTheScanner(c, w, i);
    case Promoter(r, i) => PromoteEffect(c, w, r, i);
    case Recover(i) => RecoverEffect(w, i);
    case Parser(r, i) => ParseEffect(c, w, r, i);
    case Tamper(_) =>
  }

  /** Nothing ever takes a rejected document back, nor adds to its trail. */
  lemma {:induction false} RejectionIsFinal(c: Settings, w: World, steps: seq<Step>)
    requires Rejected(w.doc.status) && Exec(c, w, steps).Some?
    ensures Exec(c, w, steps).value.doc.status == w.doc.status && Exec(c, w, steps).value.doc.audit == w.doc.audit
    decreases |steps|
  {
    if steps != [] {
      RejectionIsFinal(c, w, steps[..|steps| - 1]);
      RejectedStep(c, Exec(c, w, steps[..|steps| - 1]).value, steps[|steps| - 1]);
    }
  }

  /** A scan ends with this step, and what it met is malware. */
  predicate EndsOnMalware(c: Settings, w: World, s: Step) {
    s.Scanner? && s.scan.EndScan? && Scan.FindsMalware(c.scan, w.doc, s.scan.seen)
  }

  predicate EndsOnAViolation(c: Settings, w: World, s: Step) {
    s.Scanner? && s.scan.EndScan? && Scan.FindsViolation(c.scan, w.doc, s.scan.seen)
  }

  lemma AScanStepRejects(c: Settings, w: World, i: ScanStep)
    requires !Rejected(w.doc.status) && ScanNext(c, w, i).Some?
    ensures var v := ScanNext(c, w, i).value;
            && (v.doc.status == RejectedMalware <==> EndsOnMalware(c, w, Scanner(i)))
            && (v.doc.status == RejectedContentPolicy <==> EndsOnAViolation(c, w, Scanner(i)))
  {
    if i.EndScan? {
      Scan.DecidesExactlyWithin(c.scan, w.doc, i.seen);
    }
  }

  lemma NothingElseRejects(c: Settings, w: World, s: Step)
    requires !Rejected(w.doc.status) && !s.Intake? && !s.Scanner? && Next(c, w, s).Some?
    ensures !Rejected(Next(c, w, s).value.doc.status)
  {
    match s
    case Promoter(r, i) => PromoteEffect(c, w, r, i);
    case Recover(i) => RecoverEffect(w, i);
    case Parser(r, i) => ParseEffect(c, w, r, i);
    case Tamper(_) =>
  }

  lemma AStepRejectsExactlyWhen(c: Settings, w: World, s: Step)
    requires !Rejected(w.doc.status) && Next(c, w, s).Some?
    ensures var v := Next(c, w, s).value;
            && (v.doc.status == RejectedMalware <==> EndsOnMalware(c, w, s))
            && (v.doc.status == RejectedContentPolicy <==> EndsOnAViolation(c, w, s))
  {
    if s.Scanner? {
      AScanStepRejects(c, w, s.scan);
    } else if s.Intake? {
      IntakeEffect(w, s.intake);
    } else {
      NothingElseRejects(c, w, s);
    }
  }

  lemma NoScanAfterARejection(c: Settings, w: World, s: Step)
    requires Rejected(w.doc.status) && Next(c, w, s).Some?
    ensures !EndsOnMalware(c, w, s) && !EndsOnAViolation(c, w, s)
  {
  }

  /**
   * In every run a document is rejected as malware if and only if some scan ended on a finding, and for
   * its content if and only if some scan ended on a violation; the first such scan was its last.
   */
  lemma {:induction false} RejectedExactlyWhenFound(c: Settings, upload: Bytes, steps: seq<Step>)
    requires Exec(c, Init(c, upload), steps).Some?
    ensures var status := Exec(c, Init(c, upload), steps).value.doc.status;
            && (status == RejectedMalware <==> Happened(c, Init(c, upload), steps, (w, s) => EndsOnMalware(c, w, s)))
            && (status == RejectedContentPolicy <==>
                  Happened(c, Init(c, upload), steps, (w, s) => EndsOnAViolation(c, w, s)))
    decreases |steps|
  {
    if steps != [] {
      var before, last := steps[..|steps| - 1], steps[|steps| - 1];
      var w := Exec(c, Init(c, upload), before).value;
      RejectedExactlyWhenFound(c, upload, before);
      if Rejected(w.doc.status) {
        RejectedStep(c, w, last);
        NoScanAfterARejection(c, w, last);
      } else {
        AStepRejectsExactlyWhen(c, w, last);
      }
    }
  }
}
