/**
 * The ingestion lifecycle of one uploaded document: the row, its audit trail, and the
 * single function every status change goes through.
 */
module IngestionState {
  import opened Basics

  datatype Status =
    | Quarantined | Validating | Scanning
    | RejectedType | RejectedMalware | RejectedContentPolicy | ScanFailed
    | CleanPendingPromotion | Promoting | PromotionFailed | Clean
    | Parsing | ParseFailed | Completed | LegacyUnverified

  predicate Permitted(s: Status, t: Status) {
    match s
    case Quarantined => t == Validating
    case Validating => t == Scanning || t == RejectedType
    case Scanning => t == CleanPendingPromotion || t == RejectedMalware || t == RejectedContentPolicy || t == ScanFailed
    case ScanFailed => t == Scanning
    case RejectedType => false
    case RejectedMalware => false
    case RejectedContentPolicy => false
    case CleanPendingPromotion => t == Promoting
    case Promoting => t == Clean || t == PromotionFailed
    case PromotionFailed => t == Promoting
    case Clean => t == Parsing
    case Parsing => t == Completed || t == ParseFailed
    case ParseFailed => t == Parsing
    case Completed => false
    case LegacyUnverified => t == Validating
  }

  predicate Rejected(s: Status) {
    s == RejectedType || s == RejectedMalware || s == RejectedContentPolicy
  }

  datatype AuditEvent = AuditEvent(before: Status, after: Status, reason: Option<string>)

  /** `file_path` first names the quarantined upload and later the promoted file. */
  datatype FilePath = InQuarantine | InCleanStorage(id: Uuid)

  datatype ContentType = Undetected | Pdf | Docx

  datatype Page = Page(number: int, content: string, kind: string, locator: string, contentDigest: Digest)

  datatype SourceColumns = SourceColumns(path: FilePath, digest: Option<Digest>, size: Option<nat>,
                                         contentType: ContentType)

  datatype ScanColumns = ScanColumns(count: nat, snapshot: Option<Digest>, status: Option<string>,
                                     policy: Option<string>)

  datatype PromotionColumns = PromotionColumns(count: nat, cleanId: Option<Uuid>, cleanupPending: bool)

  datatype ParseColumns = ParseColumns(count: nat, token: Option<Uuid>, error: Option<string>)

  /** The columns of a document row the lifecycle reads or writes, with its pages and audit rows. */
  datatype Doc = Doc(
    status: Status,
    reason: Option<string>,
    summary: Option<string>,
    source: SourceColumns,
    scan: ScanColumns,
    promotion: PromotionColumns,
    parse: ParseColumns,
    pages: seq<Page>,
    audit: seq<AuditEvent>)

  /** `None` is the IngestionStateError; a same-state call changes nothing, not even the audit rows. */
  function Move(d: Doc, to: Status, reason: Option<string>, summary: Option<string>): Option<Doc> {
    if d.status == to then Some(d)
    else if !Permitted(d.status, to) then None
    else Some(d.(status := to,
                 reason := if reason.Some? then reason else d.reason,
                 summary := if summary.Some? then summary else d.summary,
                 audit := d.audit + [AuditEvent(d.status, to, reason)]))
  }

  /** A document row as the program holds it; related columns share a field. */
  class DocumentRow {
    var status: Status
    var reason: Option<string>
    var summary: Option<string>
    var source: SourceColumns
    var scan: ScanColumns
    var promotion: PromotionColumns
    var parse: ParseColumns
    var pages: seq<Page>
    var audit: seq<AuditEvent>

    ghost function Row(): Doc
      reads this
    {
      Doc(status, reason, summary, source, scan, promotion, parse, pages, audit)
    }

    /** `transition`: the only place that assigns `status`. */
    method Transition(to: Status, newReason: Option<string>, newSummary: Option<string>) returns (ok: bool)
      modifies this
      ensures ok == Move(old(Row()), to, newReason, newSummary).Some?
      ensures Row() == if ok then Move(old(Row()), to, newReason, newSummary).value else old(Row())
    {
      var current := status;
      if current == to {
        return true;
      }
      if !Permitted(current, to) {
        return false;
      }
      status := to;
      if newReason.Some? {
        reason := newReason;
      }
      if newSummary.Some? {
        summary := newSummary;
      }
      audit := audit + [AuditEvent(current, to, newReason)];
      return true;
    }
  }

  /** What every audit trail of an uploaded document is: a permitted walk that ends at the row's status. */
  ghost predicate ValidTrail(audit: seq<AuditEvent>, status: Status)
    decreases |audit|
  {
    if audit == [] then status == Quarantined
    else
      var last := audit[|audit| - 1];
      last.after == status && Permitted(last.before, last.after) && ValidTrail(audit[..|audit| - 1], last.before)
  }

  ghost predicate Lawful(d: Doc) {
    ValidTrail(d.audit, d.status)
  }

  lemma MoveKeepsTrail(d: Doc, to: Status, reason: Option<string>, summary: Option<string>)
    requires Lawful(d)
    ensures Move(d, to, reason, summary).Some? ==> Lawful(Move(d, to, reason, summary).value)
  {
    var after := Move(d, to, reason, summary);
    if after.Some? && d.status != to {
      assert after.value.audit[..|after.value.audit| - 1] == d.audit;
    }
  }

  /** A trail restricted to its first events is a trail of the status it had reached by then. */
  lemma {:induction false} TrailPrefix(audit: seq<AuditEvent>, status: Status, k: nat)
    requires ValidTrail(audit, status) && k < |audit|
    ensures ValidTrail(audit[..k], audit[k].before)
    ensures Permitted(audit[k].before, audit[k].after)
    decreases |audit|
  {
    var shorter := audit[..|audit| - 1];
    if k < |audit| - 1 {
      TrailPrefix(shorter, audit[|audit| - 1].before, k);
      assert shorter[..k] == audit[..k];
    }
  }

  /** The stages an upload must have entered, in this order, to stand at a status. */
  function Ladder(s: Status): seq<Status> {
    match s
    case Quarantined => []
    case Validating => [Validating]
    case RejectedType => [Validating]
    case Scanning => [Validating, Scanning]
    case ScanFailed => [Validating, Scanning]
    case RejectedMalware => [Validating, Scanning]
    case RejectedContentPolicy => [Validating, Scanning]
    case CleanPendingPromotion => [Validating, Scanning, CleanPendingPromotion]
    case Promoting => [Validating, Scanning, CleanPendingPromotion, Promoting]
    case PromotionFailed => [Validating, Scanning, CleanPendingPromotion, Promoting]
    case Clean => [Validating, Scanning, CleanPendingPromotion, Promoting, Clean]
    case Parsing => [Validating, Scanning, CleanPendingPromotion, Promoting, Clean, Parsing]
    case ParseFailed => [Validating, Scanning, CleanPendingPromotion, Promoting, Clean, Parsing]
    case Completed => [Validating, Scanning, CleanPendingPromotion, Promoting, Clean, Parsing, Completed]
    case LegacyUnverified => []
  }

  /** `stages` is entered in order, possibly with other events between. */
  ghost predicate EntersInOrder(audit: seq<AuditEvent>, stages: seq<Status>)
    decreases |audit|
  {
    if stages == [] then true
    else if audit == [] then false
    else if && audit[|audit| - 1].after == stages[|stages| - 1]
            && EntersInOrder(audit[..|audit| - 1], stages[..|stages| - 1])
    then true
    else EntersInOrder(audit[..|audit| - 1], stages)
  }

  /** No status is reached by a shortcut: every stage below it was entered first, in order. */
  lemma {:induction false} NoStageIsSkipped(audit: seq<AuditEvent>, status: Status)
    requires ValidTrail(audit, status)
    ensures EntersInOrder(audit, Ladder(status))
    decreases |audit|
  {
    if audit != [] {
      var last := audit[|audit| - 1];
      var before := audit[..|audit| - 1];
      NoStageIsSkipped(before, last.before);
      var below, here := Ladder(last.before), Ladder(status);
      assert here == below || here == below + [status];
      if here != below {
        assert here[..|here| - 1] == below;
      }
    }
  }

  function Entries(audit: seq<AuditEvent>, into: Status): nat {
    if audit == [] then 0
    else Entries(audit[..|audit| - 1], into) + if audit[|audit| - 1].after == into then 1 else 0
  }

  /** How far along a status is; a permitted move never goes back. */
  function Rank(s: Status): nat {
    match s
    case Quarantined => 0
    case LegacyUnverified => 0
    case Validating => 1
    case RejectedType => 2
    case Scanning => 2
    case ScanFailed => 2
    case RejectedMalware => 3
    case RejectedContentPolicy => 3
    case CleanPendingPromotion => 3
    case Promoting => 4
    case PromotionFailed => 4
    case Clean => 5
    case Parsing => 6
    case ParseFailed => 6
    case Completed => 7
  }

  /** A document is cleared at most once in its life, whatever is retried: CLEAN is never entered twice. */
  lemma {:induction false} ClearedAtMostOnce(audit: seq<AuditEvent>, status: Status)
    requires ValidTrail(audit, status)
    ensures Entries(audit, Clean) <= 1
    ensures Entries(audit, Clean) == 1 <==> Rank(status) >= 5
    ensures Entries(audit, Completed) == (if status == Completed then 1 else 0)
    decreases |audit|
  {
    if audit != [] {
      ClearedAtMostOnce(audit[..|audit| - 1], audit[|audit| - 1].before);
    }
  }

  /** Before parsing no parse has failed. */
  lemma {:induction false} NoFailureBeforeParsing(audit: seq<AuditEvent>, status: Status)
    requires ValidTrail(audit, status) && Rank(status) < 6
    ensures Entries(audit, ParseFailed) == 0
    decreases |audit|
  {
    if audit != [] {
      NoFailureBeforeParsing(audit[..|audit| - 1], audit[|audit| - 1].before);
    }
  }

  /** Once some event entered a rejected state or COMPLETED, that event is the last of the trail. */
  lemma {:induction false} TerminalEventIsLast(audit: seq<AuditEvent>, status: Status, k: nat)
    requires ValidTrail(audit, status) && k < |audit|
    requires Rejected(audit[k].after) || audit[k].after == Completed
    ensures k == |audit| - 1 && status == audit[k].after
    decreases |audit|
  {
    if k < |audit| - 1 {
      TerminalEventIsLast(audit[..|audit| - 1], audit[|audit| - 1].before, k);
      assert false;
    }
  }

  // The transition table, read as a line of stages with its ways out.

  /** The number of a stage; the other statuses are ways out of a stage, or lead to the first. */
  function StageNumber(s: Status): Option<nat> {
    match s
    case Quarantined => Some(0)
    case Validating => Some(1)
    case Scanning => Some(2)
    case CleanPendingPromotion => Some(3)
    case Promoting => Some(4)
    case Clean => Some(5)
    case Parsing => Some(6)
    case Completed => Some(7)
    case _ => None
  }

  predicate Follows(t: Status, s: Status) {
    StageNumber(s).Some? && StageNumber(t).Some? && StageNumber(t).value == StageNumber(s).value + 1
  }

  /** Where a stage that failed waits to be tried again. */
  predicate WaitsFor(s: Status, stage: Status) {
    (s == ScanFailed && stage == Scanning) || (s == PromotionFailed && stage == Promoting)
    || (s == ParseFailed && stage == Parsing)
  }

  /** Where a stage that rejects leaves a document for good. */
  predicate EndsAfter(s: Status, stage: Status) {
    (s == RejectedType && stage == Validating)
    || ((s == RejectedMalware || s == RejectedContentPolicy) && stage == Scanning)
  }

  /**
   * A move is permitted exactly to the next stage, from a stage to where it waits after a failure and back,
   * from a stage to its rejections, and from the legacy status to the first check.
   */
  lemma PermittedExactlyWhen(s: Status, t: Status)
    ensures Permitted(s, t) <==>
            || Follows(t, s) || WaitsFor(t, s) || WaitsFor(s, t) || EndsAfter(t, s)
            || (s == LegacyUnverified && t == Validating)
  {
  }

  /** A status is rejected exactly if it is not COMPLETED and nothing leads out of it. */
  lemma RejectedExactlyWhenStuck(s: Status)
    ensures Rejected(s) <==> s != Completed && forall t :: !Permitted(s, t)
  {
    if !Rejected(s) && s != Completed {
      var next := match s
        case Quarantined => Validating
        case Validating => Scanning
        case Scanning => CleanPendingPromotion
        case ScanFailed => Scanning
        case CleanPendingPromotion => Promoting
        case Promoting => Clean
        case PromotionFailed => Promoting
        case Clean => Parsing
        case Parsing => Completed
        case ParseFailed => Parsing
        case _ => Validating;
      assert Permitted(s, next);
    }
  }

  /**
   * A status change happens exactly where it is permitted; it leaves one audit row, replaces reason and
   * summary only where it brings its own, and touches nothing else.
   */
  lemma MovesExactlyWhen(d: Doc, to: Status, reason: Option<string>, summary: Option<string>)
    ensures var e := Move(d, to, reason, summary);
            && (e.Some? <==> d.status == to || Permitted(d.status, to))
            && (d.status == to ==> e == Some(d))
            && (d.status != to && e.Some? ==>
                  && e.value.status == to && e.value.audit == d.audit + [AuditEvent(d.status, to, reason)]
                  && (reason.Some? ==> e.value.reason == reason) && (reason.None? ==> e.value.reason == d.reason)
                  && (summary.Some? ==> e.value.summary == summary) && (summary.None? ==> e.value.summary == d.summary)
                  && e.value.source == d.source && e.value.scan == d.scan && e.value.promotion == d.promotion
                  && e.value.parse == d.parse && e.value.pages == d.pages)
  {
  }
}
