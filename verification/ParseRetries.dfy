/** Parse attempts one after the other: failing, recorded, and taken up again under the next token. */
module ParseRetries {
  import opened Basics
  import opened IngestionState
  import Scan = MalwareScan
  import opened CleanPromotion
  import Parse = DocumentParsing
  import opened Pipeline
  import opened PipelineRuns

  /** What attempt number `n` fixes; its token is its number. */
  function AttemptNumber(c: Settings, upload: Bytes, n: nat): Parse.Snapshot {
    Parse.Snapshot(n, InCleanStorage(0), c.scan.hash(upload), |upload|, n)
  }

  /** The promoted file is in place and its row unharmed; `n` attempts have begun. */
  ghost predicate Kept(c: Settings, upload: Bytes, w: World, n: nat) {
    && w.doc.promotion.cleanId == Some(0) && w.doc.parse.count == n && w.lock.None?
    && (forall id :: id in w.used ==> id <= n)
    && w.doc.source.digest == Some(c.scan.hash(upload)) && w.doc.source.size == Some(|upload|)
    && Final(0) in w.files && w.files[Final(0)] == upload
  }

  /** `n` attempts have failed, each recorded, and none is under way. */
  ghost predicate Waiting(c: Settings, upload: Bytes, w: World, n: nat) {
    && Kept(c, upload, w, n) && w.parses == map[] && Entries(w.doc.audit, ParseFailed) == n
    && w.doc.status == if n == 0 then Clean else ParseFailed
  }

  /** Attempt number `n` has the document, the ones before it failed. */
  ghost predicate UnderParse(c: Settings, upload: Bytes, w: World, n: nat, run: ParseRun) {
    && n > 0 && Kept(c, upload, w, n) && Entries(w.doc.audit, ParseFailed) == n - 1
    && w.doc.status == Parsing && w.doc.parse.token == Some(n) && n in w.used
    && w.parses == map[0 := run] && run.snapshot == AttemptNumber(c, upload, n)
  }

  lemma OneMoreEntry(audit: seq<AuditEvent>, e: AuditEvent)
    ensures Entries(audit + [e], ParseFailed) == Entries(audit, ParseFailed) + if e.after == ParseFailed then 1 else 0
  {
    assert (audit + [e])[..|audit|] == audit;
  }

  lemma Beginning(c: Settings, w: World, token: Uuid, doc: Doc, snapshot: Parse.Snapshot)
    requires w.parses == map[] && token !in w.used && w.lock.None?
    requires Parse.Prepare(w.doc, c.parseCap, token) == (doc, Some(snapshot))
    ensures Next(c, w, Parser(0, Begin(token)))
            == Some(w.(doc := doc, used := w.used + {token}, parses := map[0 := Reading(snapshot)]))
  {
  }

  lemma ParseBegun(c: Settings, upload: Bytes, w: World, n: nat) returns (v: World)
    requires Waiting(c, upload, w, n) && |upload| > 0 && c.parseCap > n
    ensures Next(c, w, Parser(0, Begin(n + 1))) == Some(v)
    ensures UnderParse(c, upload, v, n + 1, Reading(AttemptNumber(c, upload, n + 1)))
  {
    var (doc, snapshot) := Parse.Prepare(w.doc, c.parseCap, n + 1);
    Parse.PreparesExactlyWhen(w.doc, c.parseCap, n + 1);
    OneMoreEntry(w.doc.audit, AuditEvent(w.doc.status, Parsing, None));
    Beginning(c, w, n + 1, doc, snapshot.value);
    v := w.(doc := doc, used := w.used + {n + 1}, parses := map[0 := Reading(snapshot.value)]);
  }

  lemma CleanRead(c: Settings, upload: Bytes, w: World, n: nat) returns (v: World)
    requires UnderParse(c, upload, w, n, Reading(AttemptNumber(c, upload, n)))
    ensures Next(c, w, Parser(0, ReadClean)) == Some(v)
    ensures UnderParse(c, upload, v, n, Sent(AttemptNumber(c, upload, n), upload))
  {
    v := Next(c, w, Parser(0, ReadClean)).value;
  }

  lemma Replied(c: Settings, upload: Bytes, w: World, n: nat, response: Parse.Response) returns (v: World)
    requires UnderParse(c, upload, w, n, Sent(AttemptNumber(c, upload, n), upload)) && Parse.Acceptable(response)
    ensures Next(c, w, Parser(0, Respond(response))) == Some(v)
    ensures UnderParse(c, upload, v, n, Answered(AttemptNumber(c, upload, n), upload, response))
  {
    v := Next(c, w, Parser(0, Respond(response))).value;
  }

  lemma Unanswered(c: Settings, upload: Bytes, w: World, n: nat) returns (v: World)
    requires UnderParse(c, upload, w, n, Sent(AttemptNumber(c, upload, n), upload))
    ensures Next(c, w, Parser(0, NoAnswer("PARSER_UNAVAILABLE"))) == Some(v)
    ensures UnderParse(c, upload, v, n, Failing(AttemptNumber(c, upload, n), "PARSER_UNAVAILABLE"))
  {
    v := Next(c, w, Parser(0, NoAnswer("PARSER_UNAVAILABLE"))).value;
  }

  lemma FailureRecorded(c: Settings, upload: Bytes, w: World, n: nat) returns (v: World)
    requires UnderParse(c, upload, w, n, Failing(AttemptNumber(c, upload, n), "PARSER_UNAVAILABLE"))
    ensures Next(c, w, Parser(0, RecordFail)) == Some(v) && Waiting(c, upload, v, n)
  {
    var code := "PARSER_UNAVAILABLE";
    Parse.FailsExactlyWhen(w.doc, AttemptNumber(c, upload, n), code, code);
    OneMoreEntry(w.doc.audit, AuditEvent(Parsing, ParseFailed, Some(code)));
    v := Next(c, w, Parser(0, RecordFail)).value;
  }

  lemma Persisted(c: Settings, upload: Bytes, w: World, n: nat, response: Parse.Response) returns (v: World)
    requires UnderParse(c, upload, w, n, Answered(AttemptNumber(c, upload, n), upload, response))
    ensures Next(c, w, Parser(0, Persist)) == Some(v)
    ensures v.doc.status == Completed && v.doc.pages == Parse.PagesOf(response.units) && v.doc.parse.count == n
    ensures Entries(v.doc.audit, ParseFailed) == n - 1
  {
    Parse.PersistsExactlyWhen(w.doc, AttemptNumber(c, upload, n), response);
    OneMoreEntry(w.doc.audit, AuditEvent(Parsing, Completed, None));
    v := Next(c, w, Parser(0, Persist)).value;
    assert v.doc.pages == Parse.PagesOf(response.units);
  }

  lemma ReachesSent(c: Settings, upload: Bytes, w: World, n: nat) returns (steps: seq<Step>, v: World)
    requires Waiting(c, upload, w, n) && |upload| > 0 && c.parseCap > n
    ensures Runs(c, w, steps, v) && Untampered(steps)
    ensures UnderParse(c, upload, v, n + 1, Sent(AttemptNumber(c, upload, n + 1), upload))
  {
    var begun := ParseBegun(c, upload, w, n);
    v := CleanRead(c, upload, begun, n + 1);
    steps := TwoSteps(c, w, Parser(0, Begin(n + 1)), begun, Parser(0, ReadClean), v);
  }

  lemma OneMoreFailure(c: Settings, upload: Bytes, w: World, n: nat) returns (steps: seq<Step>, v: World)
    requires Waiting(c, upload, w, n) && |upload| > 0 && c.parseCap > n
    ensures Runs(c, w, steps, v) && Untampered(steps) && Waiting(c, upload, v, n + 1)
  {
    var sent;
    steps, sent := ReachesSent(c, upload, w, n);
    var failing := Unanswered(c, upload, sent, n + 1);
    v := FailureRecorded(c, upload, failing, n + 1);
    steps := Extended(c, w, steps, sent, Parser(0, NoAnswer("PARSER_UNAVAILABLE")), failing);
    steps := Extended(c, w, steps, failing, Parser(0, RecordFail), v);
  }

  lemma {:induction false} FailingOften(c: Settings, upload: Bytes, w: World, n: nat)
    returns (steps: seq<Step>, v: World)
    requires Waiting(c, upload, w, 0) && |upload| > 0 && c.parseCap >= n
    ensures Runs(c, w, steps, v) && Untampered(steps) && Waiting(c, upload, v, n)
    decreases n
  {
    if n == 0 {
      steps, v := [], w;
    } else {
      var before, x := FailingOften(c, upload, w, n - 1);
      var more;
      more, v := OneMoreFailure(c, upload, x, n - 1);
      steps := Onward(c, w, before, x, more, v);
    }
  }
}
