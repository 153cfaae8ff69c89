/** The retry loop around a scan attempt: inline without a queue, scheduled with one. */
module ScanRetries {
  import opened Basics
  import opened IngestionState
  import opened CleanPromotion
  import opened MalwareScan

  /** The row after one or more attempts, and whether the last of them raised. */
  datatype Turn = Turn(doc: Doc, raised: bool)

  /** One attempt on a row in SCANNING; `world` answers the attempt that is charged as number n with `world(n)`. */
  function Turns(cfg: ScanSettings, world: nat -> Observation): Doc -> Turn {
    (d: Doc) => Turn(Attempt(cfg, d, world(d.scan.count + 1)), Escapes(cfg, d, world(d.scan.count + 1)))
  }

  /** Every attempt is counted, decides or fails, and leaves the file columns alone. */
  ghost predicate Settles(turn: Doc -> Turn) {
    forall d: Doc :: d.status == Scanning ==>
                  && turn(d).doc.status in {ScanFailed, RejectedMalware, RejectedContentPolicy, CleanPendingPromotion}
                  && turn(d).doc.scan.count == d.scan.count + 1 && turn(d).doc.source == d.source
  }

  lemma TurnsSettle(cfg: ScanSettings, world: nat -> Observation)
    ensures Settles(Turns(cfg, world))
  {
    forall d: Doc | d.status == Scanning
      ensures var after := Turns(cfg, world)(d).doc;
              && after.status in {ScanFailed, RejectedMalware, RejectedContentPolicy, CleanPendingPromotion}
              && after.scan.count == d.scan.count + 1 && after.source == d.source
    {
      AttemptSettles(cfg, d, world(d.scan.count + 1));
    }
  }

  predicate MayScan(s: Status) {
    s == Scanning || s == ScanFailed
  }

  lemma RearmedIsScanning(cfg: ScanSettings, d: Doc)
    requires MayScan(d.status) && Rearm(cfg, d).Some?
    ensures var armed := Rearm(cfg, d).value;
            armed.status == Scanning && armed.scan == d.scan && armed.source == d.source
  {
  }

  predicate Retries(cfg: ScanSettings, t: Turn) {
    !t.raised && t.doc.status == ScanFailed && t.doc.scan.count < cfg.maxAttempts
  }

  /** Attempt after attempt, up to the first that raises, decides or comes to the cap. */
  function ScanLoop(cfg: ScanSettings, d: Doc, turn: Doc -> Turn): Turn
    requires MayScan(d.status) && Settles(turn)
    decreases cfg.maxAttempts - d.scan.count
  {
    if Rearm(cfg, d).None? then Turn(d, false)
    else
      RearmedIsScanning(cfg, d);
      var t := turn(Rearm(cfg, d).value);
      if Retries(cfg, t) then ScanLoop(cfg, t.doc, turn) else t
  }

  /** What the end of the loop hands on. */
  function Deliver(cfg: ScanSettings, end: Turn, files: Files, source: Option<Bytes>,
                   world: nat -> Observation): Scanned {
    if end.raised || end.doc.status != CleanPendingPromotion then Scanned(end.doc, files, source, end.raised)
    else HandOff(cfg, end.doc, files, source, world(end.doc.scan.count).handoff)
  }

  /** `run_scan_sync`, from any status. */
  function SyncScan(cfg: ScanSettings, d: Doc, files: Files, source: Option<Bytes>,
                    world: nat -> Observation): Scanned {
    if !MayScan(d.status) then Scanned(d, files, source, false)
    else
      TurnsSettle(cfg, world);
      Deliver(cfg, ScanLoop(cfg, d, Turns(cfg, world)), files, source, world)
  }

  lemma OnlyFailuresAreLeftFailed(cfg: ScanSettings, end: Turn, files: Files, source: Option<Bytes>,
                                  world: nat -> Observation)
    requires Deliver(cfg, end, files, source, world).doc.status == ScanFailed
    ensures Deliver(cfg, end, files, source, world) == Scanned(end.doc, files, source, end.raised)
  {
    if end.doc.status == CleanPendingPromotion && !end.raised {
      HandOffSettles(cfg, end.doc, files, source, world(end.doc.scan.count).handoff);
    }
  }

  lemma ScanningIsATurn(cfg: ScanSettings, d: Doc, files: Files, source: Option<Bytes>, world: nat -> Observation)
    requires d.status == Scanning
    ensures ScanAndHandOff(cfg, d, files, source, world(d.scan.count + 1))
            == Deliver(cfg, Turns(cfg, world)(d), files, source, world)
  {
    AttemptSettles(cfg, d, world(d.scan.count + 1));
    AttemptThenHandOff(cfg, d, files, source, world(d.scan.count + 1));
  }

  method ScanAndDeliver(cfg: ScanSettings, row: DocumentRow, store: CleanStore, quarantine: Quarantine,
                        world: nat -> Observation)
    returns (raised: bool)
    requires row.status == Scanning
    modifies row, store, quarantine
    ensures Scanned(row.Row(), store.files, quarantine.file, raised)
            == Deliver(cfg, Turns(cfg, world)(old(row.Row())), old(store.files), old(quarantine.file), world)
  {
    ghost var d, files, source := row.Row(), store.files, quarantine.file;
    raised := RunScan(cfg, row, store, quarantine, world(row.scan.count + 1));
    ScanningIsATurn(cfg, d, files, source, world);
  }

  lemma TheLoopAfterATurn(cfg: ScanSettings, d: Doc, turn: Doc -> Turn)
    requires MayScan(d.status) && Rearm(cfg, d).Some? && Settles(turn)
    ensures var t := turn(Rearm(cfg, d).value);
            && (Retries(cfg, t) ==> t.doc.scan.count == d.scan.count + 1)
            && ScanLoop(cfg, d, turn) == if Retries(cfg, t) then ScanLoop(cfg, t.doc, turn) else t
  {
    RearmedIsScanning(cfg, d);
  }

  /** After one attempt either the rest of the loop is still to come, or what was handed on is the end. */
  lemma AfterATurn(cfg: ScanSettings, d: Doc, files: Files, source: Option<Bytes>, world: nat -> Observation, t: Turn,
                   r: Scanned)
    requires MayScan(d.status) && Rearm(cfg, d).Some? && t == Turns(cfg, world)(Rearm(cfg, d).value)
    requires r == Deliver(cfg, t, files, source, world)
    ensures Retries(cfg, Turn(r.doc, r.raised)) ==> r.doc.scan.count == d.scan.count + 1
    ensures SyncScan(cfg, d, files, source, world)
            == if Retries(cfg, Turn(r.doc, r.raised)) then SyncScan(cfg, r.doc, r.files, r.source, world) else r
  {
    TurnsSettle(cfg, world);
    TheLoopAfterATurn(cfg, d, Turns(cfg, world));
    if r.doc.status == ScanFailed {
      OnlyFailuresAreLeftFailed(cfg, t, files, source, world);
    }
  }

  /** One turn of the loop, by what is left of the loop after it. */
  method TakeATurn(cfg: ScanSettings, row: DocumentRow, store: CleanStore, quarantine: Quarantine,
                   world: nat -> Observation)
    returns (again: bool, raised: bool)
    requires MayScan(row.status)
    modifies row, store, quarantine
    ensures var r := Scanned(row.Row(), store.files, quarantine.file, raised);
            && (again ==> !raised && old(row.scan.count) < row.scan.count < cfg.maxAttempts && MayScan(row.status))
            && SyncScan(cfg, old(row.Row()), old(store.files), old(quarantine.file), world)
               == if again then SyncScan(cfg, r.doc, r.files, r.source, world) else r
  {
    ghost var d, files, source := row.Row(), store.files, quarantine.file;
    var proceed := PrepareScanAttempt(cfg, row);
    if !proceed {
      return false, false;
    }
    RearmedIsScanning(cfg, d);
    ghost var t := Turns(cfg, world)(row.Row());
    raised := ScanAndDeliver(cfg, row, store, quarantine, world);
    AfterATurn(cfg, d, files, source, world, t, Scanned(row.Row(), store.files, quarantine.file, raised));
    again := !raised && row.status == ScanFailed && row.scan.count < cfg.maxAttempts;
  }

  /** `run_scan_sync`, which reaches itself again through `enqueue_scan_retry`. */
  method RunScanSync(cfg: ScanSettings, row: DocumentRow, store: CleanStore, quarantine: Quarantine,
                     world: nat -> Observation)
    returns (raised: bool)
    modifies row, store, quarantine
    ensures Scanned(row.Row(), store.files, quarantine.file, raised)
            == SyncScan(cfg, old(row.Row()), old(store.files), old(quarantine.file), world)
    decreases cfg.maxAttempts - row.scan.count, 1
  {
    if !MayScan(row.status) {
      // `run_scan` looks at the status again and does nothing.
      return false;
    }
    var again;
    again, raised := TakeATurn(cfg, row, store, quarantine, world);
    if again {
      var delay;
      raised, delay := EnqueueScanRetry(cfg, row, store, quarantine, world, row.scan.count + 1, RunNow);
    }
  }

  /**
   * With a queue the retry is a job for later, which may be refused; without one it runs at once. On a
   * running event loop a refusal is only logged, without one it is raised.
   */
  datatype Delivery = RunNow | Deferred(backoff: Backoff, jitter: real, refused: bool, onLoop: bool)

  /** Exponential backoff with a ceiling, in seconds. */
  datatype Backoff = Backoff(first: real, ceiling: real)

  function Doubled(x: real, n: nat): real {
    if n == 0 then x else 2.0 * Doubled(x, n - 1)
  }

  function Delay(b: Backoff, attempt: nat): real
    requires attempt >= 1
  {
    var delay := Doubled(b.first, attempt - 1);
    if delay <= b.ceiling then delay else b.ceiling
  }

  function Jittered(delay: real, jitter: real): real {
    delay * (0.5 + jitter)
  }

  method EnqueueScanRetry(cfg: ScanSettings, row: DocumentRow, store: CleanStore, quarantine: Quarantine,
                          world: nat -> Observation, attempt: nat, delivery: Delivery)
    returns (raised: bool, delay: Option<real>)
    requires attempt >= 1
    modifies row, store, quarantine
    ensures Scanned(row.Row(), store.files, quarantine.file, raised) ==
            if delivery.RunNow? then SyncScan(cfg, old(row.Row()), old(store.files), old(quarantine.file), world)
            else Scanned(old(row.Row()), old(store.files), old(quarantine.file), delivery.refused && !delivery.onLoop)
    ensures delay == if delivery.RunNow? || delivery.refused then None
                     else Some(Jittered(Delay(delivery.backoff, attempt), delivery.jitter))
    decreases cfg.maxAttempts - row.scan.count, 2
  {
    match delivery
    case RunNow =>
      raised := RunScanSync(cfg, row, store, quarantine, world);
      delay := None;
    case Deferred(backoff, jitter, refused, onLoop) =>
      raised := refused && !onLoop;
      delay := if refused then None else Some(Jittered(Delay(backoff, attempt), jitter));
  }

  lemma JitterIsBounded(delay: real, jitter: real)
    requires delay > 0.0 && 0.0 <= jitter < 1.0
    ensures 0.5 * delay <= Jittered(delay, jitter) < 1.5 * delay
    ensures Jittered(delay, jitter) - Jittered(delay, 0.0) == jitter * delay
  {
    assert 0.0 <= delay * jitter;
    assert 0.0 < delay * (1.0 - jitter);
  }

  lemma {:induction false} DoublingGrows(x: real, n: nat)
    requires x > 0.0
    ensures x <= Doubled(x, n)
  {
    if n > 0 {
      DoublingGrows(x, n - 1);
    }
  }

  /**
   * Delays never shrink from one attempt to the next, at most double, and with jitter stay below one and
   * a half ceilings.
   */
  lemma DelaysGrowUpToTheCeiling(b: Backoff, attempt: nat, jitter: real)
    requires b.first > 0.0 && b.ceiling > 0.0 && attempt >= 1 && 0.0 <= jitter < 1.0
    ensures Delay(b, attempt) <= Delay(b, attempt + 1) <= 2.0 * Delay(b, attempt)
    ensures Delay(b, 1) == (if b.first < b.ceiling then b.first else b.ceiling)
    ensures Delay(b, attempt + 1)
            == (if 2.0 * Delay(b, attempt) < b.ceiling then 2.0 * Delay(b, attempt) else b.ceiling)
    ensures 0.5 * Delay(b, 1) <= Jittered(Delay(b, attempt), jitter) < 1.5 * b.ceiling
  {
    DoublingGrows(b.first, attempt - 1);
    var delay := Delay(b, attempt);
    assert 0.0 < delay <= b.ceiling;
    JitterIsBounded(delay, jitter);
  }

  /** The attempt the loop ends with. */
  lemma {:induction false} TheLastAttempt(cfg: ScanSettings, d: Doc, turn: Doc -> Turn) returns (last: Doc)
    requires MayScan(d.status) && d.scan.count < cfg.maxAttempts && Settles(turn)
    ensures var end := ScanLoop(cfg, d, turn);
            && d.scan.count < end.doc.scan.count <= cfg.maxAttempts
            && last.status == Scanning && last.scan.count + 1 == end.doc.scan.count && last.source == d.source
            && end == turn(last)
            && (end.doc.status == ScanFailed && !end.raised ==> end.doc.scan.count == cfg.maxAttempts)
    decreases cfg.maxAttempts - d.scan.count
  {
    var armed := Rearm(cfg, d).value;
    RearmedIsScanning(cfg, d);
    if Retries(cfg, turn(armed)) {
      last := TheLastAttempt(cfg, turn(armed).doc, turn);
    } else {
      last := armed;
    }
  }

  /** A synchronous scan ends as its last attempt does, handed on if it passed. */
  lemma TheLastAttemptDecides(cfg: ScanSettings, d: Doc, files: Files, source: Option<Bytes>, world: nat -> Observation)
    returns (last: Doc)
    requires MayScan(d.status) && d.scan.count < cfg.maxAttempts
    ensures last.status == Scanning && last.source == d.source && d.scan.count <= last.scan.count < cfg.maxAttempts
    ensures SyncScan(cfg, d, files, source, world)
            == ScanAndHandOff(cfg, last, files, source, world(last.scan.count + 1))
    ensures Turns(cfg, world)(last).doc.status == ScanFailed && !Turns(cfg, world)(last).raised ==>
              last.scan.count + 1 == cfg.maxAttempts
  {
    TurnsSettle(cfg, world);
    last := TheLastAttempt(cfg, d, Turns(cfg, world));
    ScanningIsATurn(cfg, last, files, source, world);
  }

  lemma OneAttemptEnds(cfg: ScanSettings, d: Doc, files: Files, source: Option<Bytes>, o: Observation)
    requires d.status == Scanning
    ensures var r := ScanAndHandOff(cfg, d, files, source, o);
            && r.doc.scan.count == d.scan.count + 1
            && (r.raised <==> Escapes(cfg, d, o) || (r.doc.status == Promoting && o.handoff.Inline?))
            && (r.doc.status == ScanFailed ==>
                  Attempt(cfg, d, o).status == ScanFailed && r.raised == Escapes(cfg, d, o))
            && (r.doc.status == CleanPendingPromotion ==>
                  o.handoff.Queued? || o.raises.AfterDecision? || d.source.size.None?)
  {
    AttemptSettles(cfg, d, o);
    AttemptThenHandOff(cfg, d, files, source, o);
    if Attempt(cfg, d, o).status == CleanPendingPromotion {
      PassesExactlyWhenEveryCheckPasses(cfg, d, o);
      HandOffSettles(cfg, Attempt(cfg, d, o), files, source, o.handoff);
    }
  }

  /**
   * A synchronous scan gives up in SCAN_FAILED below the cap only when an attempt raised, and never
   * passes the cap. It raises exactly when its last attempt does, or the promotion that follows. Without
   * a queue a document is not left waiting for promotion unless an exception came between (or its size
   * was never recorded). `o` is what the last attempt met.
   */
  predicate EndsWell(cfg: ScanSettings, d: Doc, o: Observation, r: Scanned) {
    && d.scan.count < r.doc.scan.count <= cfg.maxAttempts
    && (r.doc.status == ScanFailed && !r.raised ==> r.doc.scan.count == cfg.maxAttempts)
    && (r.raised <==> Escapes(cfg, d, o) || (r.doc.status == Promoting && o.handoff.Inline?))
    && (r.doc.status == CleanPendingPromotion ==> o.handoff.Queued? || o.raises.AfterDecision? || d.source.size.None?)
  }

  lemma TheLastAttemptEndsWell(cfg: ScanSettings, d: Doc, last: Doc, files: Files, source: Option<Bytes>,
                               world: nat -> Observation, r: Scanned)
    requires last.status == Scanning && last.source == d.source && d.scan.count <= last.scan.count < cfg.maxAttempts
    requires Turns(cfg, world)(last).doc.status == ScanFailed && !Turns(cfg, world)(last).raised ==>
               last.scan.count + 1 == cfg.maxAttempts
    requires r == ScanAndHandOff(cfg, last, files, source, world(last.scan.count + 1))
    ensures EndsWell(cfg, d, world(r.doc.scan.count), r)
  {
    OneAttemptEnds(cfg, last, files, source, world(last.scan.count + 1));
    SameVerdict(cfg, d, last, world(last.scan.count + 1));
  }

  /** Started below the cap, a handled failure is retried until the cap. */
  lemma RetriesUntilTheCap(cfg: ScanSettings, d: Doc, files: Files, source: Option<Bytes>, world: nat -> Observation)
    requires MayScan(d.status) && d.scan.count < cfg.maxAttempts
    ensures var r := SyncScan(cfg, d, files, source, world); EndsWell(cfg, d, world(r.doc.scan.count), r)
  {
    var last := TheLastAttemptDecides(cfg, d, files, source, world);
    TheLastAttemptEndsWell(cfg, d, last, files, source, world, SyncScan(cfg, d, files, source, world));
  }

  /**
   * The attempts the loop makes before its last one all failed and did not raise: it stops at the first
   * decisive one.
   */
  lemma {:induction false} EarlierAttemptsFailed(cfg: ScanSettings, d: Doc, turn: Doc -> Turn, n: nat) returns (e: Doc)
    requires MayScan(d.status) && d.scan.count < cfg.maxAttempts && Settles(turn)
    requires d.scan.count < n < ScanLoop(cfg, d, turn).doc.scan.count
    ensures e.status == Scanning && e.scan.count + 1 == n && e.source == d.source && Retries(cfg, turn(e))
    decreases cfg.maxAttempts - d.scan.count
  {
    var armed := Rearm(cfg, d).value;
    RearmedIsScanning(cfg, d);
    var t := turn(armed);
    if n == t.doc.scan.count {
      e := armed;
    } else {
      e := EarlierAttemptsFailed(cfg, t.doc, turn, n);
    }
  }

  lemma DeliveredCount(cfg: ScanSettings, end: Turn, files: Files, source: Option<Bytes>, world: nat -> Observation)
    ensures Deliver(cfg, end, files, source, world).doc.scan == end.doc.scan
  {
    if !end.raised && end.doc.status == CleanPendingPromotion {
      HandOffSettles(cfg, end.doc, files, source, world(end.doc.scan.count).handoff);
    }
  }

  lemma AFailedTurn(cfg: ScanSettings, d: Doc, e: Doc, world: nat -> Observation)
    requires e.status == Scanning && e.source == d.source && Retries(cfg, Turns(cfg, world)(e))
    ensures Judge(cfg, d, world(e.scan.count + 1)).Failed? && !Escapes(cfg, d, world(e.scan.count + 1))
  {
    AttemptSettles(cfg, e, world(e.scan.count + 1));
    SameVerdict(cfg, d, e, world(e.scan.count + 1));
  }

  lemma StopsAtTheFirstDecision(cfg: ScanSettings, d: Doc, files: Files, source: Option<Bytes>,
                                world: nat -> Observation, n: nat)
    requires MayScan(d.status) && d.scan.count < cfg.maxAttempts
    requires d.scan.count < n < SyncScan(cfg, d, files, source, world).doc.scan.count
    ensures Judge(cfg, d, world(n)).Failed? && !Escapes(cfg, d, world(n))
  {
    TurnsSettle(cfg, world);
    DeliveredCount(cfg, ScanLoop(cfg, d, Turns(cfg, world)), files, source, world);
    var e := EarlierAttemptsFailed(cfg, d, Turns(cfg, world), n);
    AFailedTurn(cfg, d, e, world);
  }
}
