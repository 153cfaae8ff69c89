/** The three phases of a parse attempt and the checks made on what the parser service returns. */
module DocumentParsing {
  import opened Basics
  import opened IngestionState

  const MAX_UNITS := 500
  const MAX_TOTAL_CHARS := 2_000_000
  const PROTOCOL_VERSION := "1.0"
  const PARSER_NAME := "rfp-isolated-parser"

  datatype Unit = Unit(sequence: int, kind: string, locator: string, content: string, contentDigest: Digest)

  datatype Response = Response(protocol: string, parser: string, units: seq<Unit>, totalUnits: int, totalChars: int)

  ghost predicate Numbered(units: seq<Unit>) {
    forall i :: 0 <= i < |units| ==> units[i].sequence == i + 1
  }

  ghost predicate DistinctLocators(units: seq<Unit>) {
    forall i, j :: 0 <= i < j < |units| ==> units[i].locator != units[j].locator
  }

  predicate WithinLimits(r: Response) {
    r.totalUnits <= MAX_UNITS && |r.units| <= MAX_UNITS && r.totalChars <= MAX_TOTAL_CHARS
  }

  predicate RightProtocol(r: Response) {
    r.protocol == PROTOCOL_VERSION && r.parser == PARSER_NAME
  }

  ghost predicate Acceptable(r: Response) {
    RightProtocol(r) && WithinLimits(r) && Numbered(r.units) && DistinctLocators(r.units)
  }

  /** `validate_parser_response`: accepts exactly the acceptable responses, and the code says which check failed. */
  method ValidateParserResponse(r: Response) returns (result: Result<Response, string>)
    ensures result.Ok? <==> Acceptable(r)
    ensures result.Ok? ==> result.value == r
    ensures result.Err? ==>
              result.error == if !RightProtocol(r) then "PARSER_PROTOCOL_ERROR"
                              else if !WithinLimits(r) then "PARSER_OUTPUT_LIMIT"
                              else "PARSER_RESPONSE_INVALID"
  {
    if r.protocol != PROTOCOL_VERSION || r.parser != PARSER_NAME {
      return Err("PARSER_PROTOCOL_ERROR");
    }
    if r.totalUnits > MAX_UNITS || |r.units| > MAX_UNITS || r.totalChars > MAX_TOTAL_CHARS {
      return Err("PARSER_OUTPUT_LIMIT");
    }
    var seenLocators: set<string> := {};
    var expectedSequence := 1;
    for i := 0 to |r.units|
      invariant expectedSequence == i + 1
      invariant seenLocators == set k | 0 <= k < i :: r.units[k].locator
      invariant Numbered(r.units[..i]) && DistinctLocators(r.units[..i])
    {
      if r.units[i].sequence != expectedSequence {
        return Err("PARSER_RESPONSE_INVALID");
      }
      expectedSequence := expectedSequence + 1;
      if r.units[i].locator in seenLocators {
        ghost var k :| 0 <= k < i && r.units[k].locator == r.units[i].locator;
        assert !DistinctLocators(r.units);
        return Err("PARSER_RESPONSE_INVALID");
      }
      seenLocators := seenLocators + {r.units[i].locator};
    }
    assert r.units[..|r.units|] == r.units;
    return Ok(r);
  }

  /** What phase A fixes for the rest of the attempt. */
  datatype Snapshot = Snapshot(token: Uuid, source: FilePath, digest: Digest, size: nat, count: nat)

  function CleanSource(d: Doc): FilePath {
    if d.promotion.cleanId.Some? then InCleanStorage(d.promotion.cleanId.value) else d.source.path
  }

  predicate Parsable(d: Doc, cap: nat) {
    && (d.status == Clean || d.status == ParseFailed)
    && d.parse.count < cap
    && d.source.digest.Some? && d.source.size.Some? && d.source.size.value != 0
  }

  function Prepare(d: Doc, cap: nat, token: Uuid): (Doc, Option<Snapshot>) {
    if !Parsable(d, cap) then (d, None)
    else
      var started := d.(parse := d.parse.(count := d.parse.count + 1, token := Some(token)));
      (Move(started, Parsing, None, None).value,
       Some(Snapshot(token, CleanSource(d), d.source.digest.value, d.source.size.value, d.parse.count + 1)))
  }

  /** The concurrency guard of both closing phases. */
  predicate OwnsAttempt(d: Doc, s: Snapshot) {
    d.status == Parsing && d.parse.token == Some(s.token)
  }

  function Fail(d: Doc, s: Snapshot, code: string, summary: string): Doc {
    if !OwnsAttempt(d, s) then d
    else Move(d.(parse := d.parse.(error := Some(code)), summary := Some(summary)), ParseFailed, Some(code), None).value
  }

  function PageOf(u: Unit): Page {
    Page(u.sequence, u.content, u.kind, u.locator, u.contentDigest)
  }

  function PagesOf(units: seq<Unit>): seq<Page> {
    seq(|units|, i requires 0 <= i < |units| => PageOf(units[i]))
  }

  function Persist(d: Doc, s: Snapshot, r: Response): Doc {
    if !OwnsAttempt(d, s) then d
    else if CleanSource(d) != s.source || d.source.digest != Some(s.digest) then
      Fail(d, s, "PARSER_INPUT_CHANGED", "Clean document metadata changed during parsing")
    else Move(d.(parse := d.parse.(error := None), pages := PagesOf(r.units)), Completed, None, None).value
  }

  /** Where the promoted file is looked for: under its identifier, or at the path of a row that has none. */
  predicate IsCleanSource(d: Doc, path: FilePath) {
    match d.promotion.cleanId
    case Some(id) => path == InCleanStorage(id)
    case None => path == d.source.path
  }

  /** The row but for the columns that parsing may write. */
  ghost predicate OnlyParsed(d: Doc, e: Doc) {
    e.source == d.source && e.scan == d.scan && e.promotion == d.promotion
  }

  /**
   * An attempt is taken exactly from CLEAN or PARSE_FAILED, below the cap, with a digest and a size other
   * than 0; it is charged, gets the new token, and fixes what the later phases compare. Otherwise the row
   * is left alone.
   */
  lemma PreparesExactlyWhen(d: Doc, cap: nat, token: Uuid)
    ensures var (e, snapshot) := Prepare(d, cap, token);
            && (snapshot.Some? <==>
                  && d.status in {Clean, ParseFailed} && d.parse.count < cap
                  && d.source.digest.Some? && d.source.size.Some? && d.source.size != Some(0))
            && (snapshot.None? ==> e == d)
            && (snapshot.Some? ==>
                  && e.status == Parsing && e.parse == d.parse.(count := d.parse.count + 1, token := Some(token))
                  && e.audit == d.audit + [AuditEvent(d.status, Parsing, None)]
                  && OnlyParsed(d, e) && e.pages == d.pages && e.reason == d.reason && e.summary == d.summary
                  && snapshot.value.token == token && IsCleanSource(d, snapshot.value.source)
                  && Some(snapshot.value.digest) == d.source.digest && Some(snapshot.value.size) == d.source.size
                  && snapshot.value.count == d.parse.count + 1)
  {
  }

  /**
   * Closing an attempt: it completes exactly if the row is still PARSING under its token and its source is
   * the one it started from; fails as PARSER_INPUT_CHANGED if only the latter is not so; and otherwise
   * leaves the row alone.
   */
  lemma PersistsExactlyWhen(d: Doc, s: Snapshot, r: Response)
    ensures var e := Persist(d, s, r);
            var owned := d.status == Parsing && d.parse.token == Some(s.token);
            var same := IsCleanSource(d, s.source) && d.source.digest == Some(s.digest);
            && (!owned ==> e == d)
            && (owned && same ==>
                  && e.status == Completed && e.parse == d.parse.(error := None) && |e.pages| == |r.units|
                  && (forall i :: 0 <= i < |r.units| ==>
                        var u := r.units[i];
                        e.pages[i] == Page(u.sequence, u.content, u.kind, u.locator, u.contentDigest))
                  && e.audit == d.audit + [AuditEvent(Parsing, Completed, None)]
                  && OnlyParsed(d, e) && e.reason == d.reason && e.summary == d.summary)
            && (owned && !same ==>
                  && e.status == ParseFailed && e.reason == Some("PARSER_INPUT_CHANGED")
                  && e.parse == d.parse.(error := Some("PARSER_INPUT_CHANGED")) && e.pages == d.pages
                  && e.audit == d.audit + [AuditEvent(Parsing, ParseFailed, Some("PARSER_INPUT_CHANGED"))]
                  && OnlyParsed(d, e))
  {
  }

  /** A failure is recorded, under its code, exactly by the attempt whose token the row stores while it is PARSING. */
  lemma FailsExactlyWhen(d: Doc, s: Snapshot, code: string, summary: string)
    ensures var e := Fail(d, s, code, summary);
            if d.status == Parsing && d.parse.token == Some(s.token) then
              && e.status == ParseFailed && e.reason == Some(code) && e.summary == Some(summary)
              && e.parse == d.parse.(error := Some(code)) && e.pages == d.pages
              && e.audit == d.audit + [AuditEvent(Parsing, ParseFailed, Some(code))] && OnlyParsed(d, e)
            else e == d
  {
  }

  method PrepareParseAttempt(row: DocumentRow, cap: nat, token: Uuid) returns (snapshot: Option<Snapshot>)
    modifies row
    ensures (row.Row(), snapshot) == Prepare(old(row.Row()), cap, token)
  {
    if row.status != Clean && row.status != ParseFailed {
      return None;
    }
    if row.parse.count >= cap {
      return None;
    }
    var source := if row.promotion.cleanId.Some? then InCleanStorage(row.promotion.cleanId.value) else row.source.path;
    if row.source.digest.None? || row.source.size.None? || row.source.size.value == 0 {
      return None;
    }
    row.parse := row.parse.(count := row.parse.count + 1, token := Some(token));
    var _ := row.Transition(Parsing, None, None);
    return Some(Snapshot(token, source, row.source.digest.value, row.source.size.value, row.parse.count));
  }

  method FailParseAttempt(row: DocumentRow, s: Snapshot, code: string, summary: string)
    modifies row
    ensures row.Row() == Fail(old(row.Row()), s, code, summary)
  {
    if row.status != Parsing || row.parse.token != Some(s.token) {
      return;
    }
    row.parse := row.parse.(error := Some(code));
    row.summary := Some(summary);
    var _ := row.Transition(ParseFailed, Some(code), None);
  }

  method PersistParseResults(row: DocumentRow, s: Snapshot, r: Response)
    modifies row
    ensures row.Row() == Persist(old(row.Row()), s, r)
  {
    if row.status != Parsing || row.parse.token != Some(s.token) {
      return;
    }
    var source := if row.promotion.cleanId.Some? then InCleanStorage(row.promotion.cleanId.value) else row.source.path;
    if source != s.source || row.source.digest != Some(s.digest) {
      FailParseAttempt(row, s, "PARSER_INPUT_CHANGED", "Clean document metadata changed during parsing");
      return;
    }
    var newPages: seq<Page> := [];
    for i := 0 to |r.units|
      invariant newPages == PagesOf(r.units)[..i]
    {
      newPages := newPages + [PageOf(r.units[i])];
    }
    row.pages := newPages;
    row.parse := row.parse.(error := None);
    var _ := row.Transition(Completed, None, None);
  }

  /**
   * The document is replaced page for page: n units become pages 1..n, each carrying its own unit, under
   * distinct locators.
   */
  lemma CompletedPagesAreTheUnits(d: Doc, s: Snapshot, r: Response)
    requires Acceptable(r)
    requires d.status != Completed && Persist(d, s, r).status == Completed
    ensures d.status == Parsing && d.parse.token == Some(s.token)
    ensures var pages := Persist(d, s, r).pages;
            && |pages| == |r.units|
            && (forall i :: 0 <= i < |pages| ==> pages[i].number == i + 1
                                                 && pages[i].content == r.units[i].content
                                                 && pages[i].locator == r.units[i].locator
                                                 && pages[i].contentDigest == r.units[i].contentDigest)
            && (forall i, j :: 0 <= i < j < |pages| ==> pages[i].locator != pages[j].locator)
  {
  }

  /** The limits and names of the protocol, in numbers and letters. */
  lemma AcceptableExactlyWhen(r: Response)
    ensures Acceptable(r) <==>
            && r.protocol == "1.0" && r.parser == "rfp-isolated-parser"
            && |r.units| <= 500 && r.totalUnits <= 500 && r.totalChars <= 2000000
            && (forall i :: 0 <= i < |r.units| ==> r.units[i].sequence == i + 1)
            && (forall i, j :: 0 <= i < j < |r.units| ==> r.units[i].locator != r.units[j].locator)
  {
  }
}
