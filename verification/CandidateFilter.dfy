/** The validation loop of the extraction's last phase, against a declarative reading of what it accepts. */
module CandidateFilter {
  import opened Basics
  import opened PythonText
  import opened SnapshotEncoding

  const MAX_EVIDENCE := 4000
  const MAX_REQUIREMENT := 2000
  const KEY_TEXT := 100

  /** One proposal of the extractor. */
  datatype CandidateUnit = CandidateUnit(sequence: int, start: int, end: int, text: string,
                                         requirementType: Option<string>, confidence: Option<real>,
                                         uncertainty: Option<string>)

  datatype Issue =
    | UnknownSourceUnit | InvalidSpan | EmptyEvidence | EvidenceTooLong | RequirementTextBounds
    | DuplicateCandidate | ControlCharacters

  /** The columns of a candidate the machine fills in, and nobody rewrites afterwards. */
  datatype Proposal = Proposal(page: Uuid, pageDigest: string, kind: string, locator: string, start: int, end: int,
                               evidence: string, evidenceDigest: Digest, text: string,
                               requirementType: Option<string>, confidence: Option<real>, uncertainty: Option<string>)

  datatype NewCandidate = NewCandidate(id: Uuid, proposal: Proposal)

  datatype NewTask = NewTask(candidate: Uuid, locator: string)

  /** `{p.page_number: p for p in pages}` looked up; a later page would win. */
  function PageFor(pages: seq<PageRow>, sequence: int): Option<PageRow>
    decreases |pages|
  {
    if pages == [] then None
    else if pages[|pages| - 1].number == sequence then Some(pages[|pages| - 1])
    else PageFor(pages[..|pages| - 1], sequence)
  }

  function PagesBySequence(pages: seq<PageRow>): (m: map<int, PageRow>)
    ensures forall s :: s in m <==> PageFor(pages, s).Some?
    ensures forall s :: s in m ==> PageFor(pages, s) == Some(m[s])
    decreases |pages|
  {
    if pages == [] then map[]
    else PagesBySequence(pages[..|pages| - 1])[pages[|pages| - 1].number := pages[|pages| - 1]]
  }

  predicate InRange(content: string, u: CandidateUnit) {
    0 <= u.start < u.end <= |content|
  }

  /** The page exists, the span lies in it, the slice says something, and both texts keep their bounds. */
  predicate Sound(pages: seq<PageRow>, u: CandidateUnit) {
    var page := PageFor(pages, u.sequence);
    && page.Some? && InRange(page.value.content, u)
    && !Blank(page.value.content[u.start..u.end]) && u.end - u.start <= MAX_EVIDENCE
    && 0 < |Strip(u.text)| <= MAX_REQUIREMENT
  }

  type Key = (int, int, int, string)

  function KeyText(u: CandidateUnit): string {
    var text := Strip(u.text);
    text[..Min(KEY_TEXT, |text|)]
  }

  function KeyOf(u: CandidateUnit): Key {
    (u.sequence, u.start, u.end, KeyText(u))
  }

  predicate Printable(pages: seq<PageRow>, u: CandidateUnit)
    requires Sound(pages, u)
  {
    !HasControl(Strip(u.text)) && !HasControl(PageFor(pages, u.sequence).value.content[u.start..u.end])
  }

  ghost predicate FirstOfItsKey(pages: seq<PageRow>, units: seq<CandidateUnit>, i: nat)
    requires i < |units|
  {
    forall j :: 0 <= j < i && Sound(pages, units[j]) ==> KeyOf(units[j]) != KeyOf(units[i])
  }

  ghost predicate Accepted(pages: seq<PageRow>, units: seq<CandidateUnit>, i: nat)
    requires i < |units|
  {
    Sound(pages, units[i]) && FirstOfItsKey(pages, units, i) && Printable(pages, units[i])
  }

  ghost function Select(wanted: nat -> bool, n: nat): seq<nat> {
    if n == 0 then [] else Select(wanted, n - 1) + if wanted(n - 1) then [n - 1] else []
  }

  ghost function Acceptance(pages: seq<PageRow>, units: seq<CandidateUnit>): nat -> bool {
    (i: nat) => i < |units| && Accepted(pages, units, i)
  }

  /** The accepted positions among the first n, in input order. */
  ghost function Chosen(pages: seq<PageRow>, units: seq<CandidateUnit>, n: nat): seq<nat>
    requires n <= |units|
  {
    Select(Acceptance(pages, units), n)
  }

  function ProposalOf(hash: string -> Digest, pages: seq<PageRow>, u: CandidateUnit): Proposal
    requires Sound(pages, u)
  {
    var page := PageFor(pages, u.sequence).value;
    var evidence := page.content[u.start..u.end];
    Proposal(page.id, OrEmpty(page.digest), OrEmpty(page.kind), OrEmpty(page.locator), u.start, u.end,
             evidence, hash(evidence), Strip(u.text), u.requirementType, u.confidence, u.uncertainty)
  }

  /** Which check an unaccepted unit fails first. */
  ghost function Reason(pages: seq<PageRow>, units: seq<CandidateUnit>, i: nat): Option<Issue>
    requires i < |units|
  {
    var u := units[i];
    var page := PageFor(pages, u.sequence);
    if page.None? then Some(UnknownSourceUnit)
    else if !InRange(page.value.content, u) then Some(InvalidSpan)
    else if Blank(page.value.content[u.start..u.end]) then Some(EmptyEvidence)
    else if u.end - u.start > MAX_EVIDENCE then Some(EvidenceTooLong)
    else if !(0 < |Strip(u.text)| <= MAX_REQUIREMENT) then Some(RequirementTextBounds)
    else if !FirstOfItsKey(pages, units, i) then Some(DuplicateCandidate)
    else if !Printable(pages, u) then Some(ControlCharacters)
    else None
  }

  ghost function Tally(pages: seq<PageRow>, units: seq<CandidateUnit>, n: nat, issue: Issue): nat
    requires n <= |units|
  {
    if n == 0 then 0
    else Tally(pages, units, n - 1, issue) + if Reason(pages, units, n - 1) == Some(issue) then 1 else 0
  }

  function Count(counts: map<Issue, nat>, issue: Issue): nat {
    if issue in counts then counts[issue] else 0
  }

  function Total(counts: map<Issue, nat>): nat {
    Count(counts, UnknownSourceUnit) + Count(counts, InvalidSpan) + Count(counts, EmptyEvidence)
    + Count(counts, EvidenceTooLong)
    + Count(counts, RequirementTextBounds) + Count(counts, DuplicateCandidate) + Count(counts, ControlCharacters)
  }

  function Skip(counts: map<Issue, nat>, issue: Issue): map<Issue, nat> {
    counts[issue := Count(counts, issue) + 1]
  }

  /** The keys the loop has seen: those of the sound units, accepted or not. */
  ghost predicate SeenAre(pages: seq<PageRow>, units: seq<CandidateUnit>, n: nat, seen: set<Key>)
    requires n <= |units|
  {
    && (forall j :: 0 <= j < n && Sound(pages, units[j]) ==> KeyOf(units[j]) in seen)
    && (forall k :: k in seen ==> exists j :: 0 <= j < n && Sound(pages, units[j]) && KeyOf(units[j]) == k)
  }

  ghost predicate RowsAre(hash: string -> Digest, pages: seq<PageRow>, units: seq<CandidateUnit>, n: nat,
                          newId: nat -> Uuid, rows: seq<NewCandidate>)
    requires n <= |units|
  {
    var chosen := Chosen(pages, units, n);
    |rows| == |chosen|
    && forall k :: 0 <= k < |rows| ==> chosen[k] < |units| && Sound(pages, units[chosen[k]])
                                       && rows[k] == NewCandidate(newId(k), ProposalOf(hash, pages, units[chosen[k]]))
  }

  ghost predicate TasksAre(rows: seq<NewCandidate>, tasks: seq<NewTask>) {
    |tasks| == |rows| && forall k :: 0 <= k < |rows| ==> tasks[k] == NewTask(rows[k].id, rows[k].proposal.locator)
  }

  ghost predicate CountsAre(pages: seq<PageRow>, units: seq<CandidateUnit>, n: nat, counts: map<Issue, nat>)
    requires n <= |units|
  {
    forall issue :: Count(counts, issue) == Tally(pages, units, n, issue)
  }

  /** The checks up to the duplicate test; `Err` names the one that fails. */
  method CheckUnit(pageBySequence: map<int, PageRow>, u: CandidateUnit, ghost pages: seq<PageRow>)
    returns (result: Result<PageRow, Issue>)
    requires pageBySequence == PagesBySequence(pages)
    ensures result.Ok? <==> Sound(pages, u)
    ensures result.Ok? ==> PageFor(pages, u.sequence) == Some(result.value)
    ensures result.Err? ==> Reason(pages, [u], 0) == Some(result.error)
  {
    if u.sequence !in pageBySequence {
      return Err(UnknownSourceUnit);
    }
    var page := pageBySequence[u.sequence];
    if u.start < 0 || u.end > |page.content| || u.end <= u.start {
      return Err(InvalidSpan);
    }
    var evidence := page.content[u.start..u.end];
    StripIsEmptyForBlanks(evidence);
    if Strip(evidence) == "" {
      return Err(EmptyEvidence);
    }
    if |evidence| > MAX_EVIDENCE {
      return Err(EvidenceTooLong);
    }
    if Strip(u.text) == "" || |Strip(u.text)| > MAX_REQUIREMENT {
      return Err(RequirementTextBounds);
    }
    return Ok(page);
  }

  lemma EarlyReason(pages: seq<PageRow>, units: seq<CandidateUnit>, i: nat)
    requires i < |units| && !Sound(pages, units[i])
    ensures Reason(pages, units, i) == Reason(pages, [units[i]], 0)
  {
  }

  lemma SeenGrows(pages: seq<PageRow>, units: seq<CandidateUnit>, i: nat, seen: set<Key>)
    requires i < |units| && SeenAre(pages, units, i, seen)
    ensures SeenAre(pages, units, i + 1, if Sound(pages, units[i]) then seen + {KeyOf(units[i])} else seen)
    ensures Sound(pages, units[i]) ==> (KeyOf(units[i]) in seen <==> !FirstOfItsKey(pages, units, i))
  {
  }

  /** What the loop has produced after n units. */
  ghost predicate Progress(hash: string -> Digest, pages: seq<PageRow>, units: seq<CandidateUnit>, n: nat,
                           newId: nat -> Uuid, rows: seq<NewCandidate>, tasks: seq<NewTask>, counts: map<Issue, nat>)
    requires n <= |units|
  {
    RowsAre(hash, pages, units, n, newId, rows) && TasksAre(rows, tasks) && CountsAre(pages, units, n, counts)
  }

  lemma SkippingProgresses(hash: string -> Digest, pages: seq<PageRow>, units: seq<CandidateUnit>, i: nat,
                           newId: nat -> Uuid, rows: seq<NewCandidate>, tasks: seq<NewTask>, counts: map<Issue, nat>,
                           issue: Issue)
    requires i < |units| && Progress(hash, pages, units, i, newId, rows, tasks, counts)
    requires Reason(pages, units, i) == Some(issue)
    ensures Progress(hash, pages, units, i + 1, newId, rows, tasks, Skip(counts, issue))
  {
    NoReasonMeansAccepted(pages, units, i);
    assert Chosen(pages, units, i + 1) == Chosen(pages, units, i);
    forall other ensures Count(Skip(counts, issue), other) == Tally(pages, units, i + 1, other) {
      assert Count(counts, other) == Tally(pages, units, i, other);
    }
  }

  lemma AcceptingAddsARow(hash: string -> Digest, pages: seq<PageRow>, units: seq<CandidateUnit>, i: nat,
                          newId: nat -> Uuid, rows: seq<NewCandidate>, row: NewCandidate)
    requires i < |units| && RowsAre(hash, pages, units, i, newId, rows)
    requires Accepted(pages, units, i) && row == NewCandidate(newId(|rows|), ProposalOf(hash, pages, units[i]))
    ensures RowsAre(hash, pages, units, i + 1, newId, rows + [row])
  {
    assert Acceptance(pages, units)(i);
    assert Chosen(pages, units, i + 1) == Chosen(pages, units, i) + [i];
  }

  lemma AcceptingCountsNothing(pages: seq<PageRow>, units: seq<CandidateUnit>, i: nat, counts: map<Issue, nat>)
    requires i < |units| && CountsAre(pages, units, i, counts) && Reason(pages, units, i).None?
    ensures CountsAre(pages, units, i + 1, counts)
  {
    forall other ensures Count(counts, other) == Tally(pages, units, i + 1, other) {
      assert Count(counts, other) == Tally(pages, units, i, other);
    }
  }

  lemma AcceptingProgresses(hash: string -> Digest, pages: seq<PageRow>, units: seq<CandidateUnit>, i: nat,
                            newId: nat -> Uuid, rows: seq<NewCandidate>, tasks: seq<NewTask>, counts: map<Issue, nat>,
                            row: NewCandidate)
    requires i < |units| && Progress(hash, pages, units, i, newId, rows, tasks, counts)
    requires Accepted(pages, units, i) && row == NewCandidate(newId(|rows|), ProposalOf(hash, pages, units[i]))
    ensures Progress(hash, pages, units, i + 1, newId, rows + [row], tasks + [NewTask(row.id, row.proposal.locator)],
                     counts)
  {
    NoReasonMeansAccepted(pages, units, i);
    AcceptingAddsARow(hash, pages, units, i, newId, rows, row);
    AcceptingCountsNothing(pages, units, i, counts);
  }

  /**
   * The loop of `_persist_candidates`: exactly the accepted units, in order, with one task each, and
   * every rejection counted.
   */
  method Filter(hash: string -> Digest, pages: seq<PageRow>, units: seq<CandidateUnit>, newId: nat -> Uuid)
    returns (rows: seq<NewCandidate>, tasks: seq<NewTask>, counts: map<Issue, nat>)
    ensures RowsAre(hash, pages, units, |units|, newId, rows)
    ensures TasksAre(rows, tasks)
    ensures CountsAre(pages, units, |units|, counts)
  {
    var pageBySequence := PagesBySequence(pages);
    var seen: set<Key> := {};
    rows, tasks, counts := [], [], map[];
    for i := 0 to |units|
      invariant SeenAre(pages, units, i, seen)
      invariant Progress(hash, pages, units, i, newId, rows, tasks, counts)
    {
      var u := units[i];
      var checked := CheckUnit(pageBySequence, u, pages);
      SeenGrows(pages, units, i, seen);
      if checked.Err? {
        EarlyReason(pages, units, i);
        SkippingProgresses(hash, pages, units, i, newId, rows, tasks, counts, checked.error);
        counts := Skip(counts, checked.error);
        continue;
      }
      var page := checked.value;
      var text := Strip(u.text);
      var key := (u.sequence, u.start, u.end, text[..Min(KEY_TEXT, |text|)]);
      if key in seen {
        SkippingProgresses(hash, pages, units, i, newId, rows, tasks, counts, DuplicateCandidate);
        counts := Skip(counts, DuplicateCandidate);
        continue;
      }
      seen := seen + {key};
      var evidence := page.content[u.start..u.end];
      if HasControl(text) || HasControl(evidence) {
        SkippingProgresses(hash, pages, units, i, newId, rows, tasks, counts, ControlCharacters);
        counts := Skip(counts, ControlCharacters);
        continue;
      }
      var proposal := Proposal(page.id, OrEmpty(page.digest), OrEmpty(page.kind), OrEmpty(page.locator), u.start, u.end,
                               evidence, hash(evidence), text, u.requirementType, u.confidence, u.uncertainty);
      var row := NewCandidate(newId(|rows|), proposal);
      AcceptingProgresses(hash, pages, units, i, newId, rows, tasks, counts, row);
      rows := rows + [row];
      tasks := tasks + [NewTask(row.id, OrEmpty(page.locator))];
    }
  }

  lemma {:induction false} Selected(wanted: nat -> bool, n: nat)
    ensures forall k :: 0 <= k < |Select(wanted, n)| ==> Select(wanted, n)[k] < n && wanted(Select(wanted, n)[k])
    ensures forall i :: 0 <= i < n && wanted(i) ==> i in Select(wanted, n)
    ensures forall j, k :: 0 <= j < k < |Select(wanted, n)| ==> Select(wanted, n)[j] < Select(wanted, n)[k]
  {
    if n > 0 {
      Selected(wanted, n - 1);
    }
  }

  /** The chosen positions are exactly the accepted ones, in increasing order. */
  lemma ChosenAreTheAccepted(pages: seq<PageRow>, units: seq<CandidateUnit>, n: nat)
    requires n <= |units|
    ensures forall k :: 0 <= k < |Chosen(pages, units, n)| ==>
              Chosen(pages, units, n)[k] < n && Accepted(pages, units, Chosen(pages, units, n)[k])
    ensures forall i :: 0 <= i < n && Accepted(pages, units, i) ==> i in Chosen(pages, units, n)
    ensures forall j, k :: 0 <= j < k < |Chosen(pages, units, n)| ==>
              Chosen(pages, units, n)[j] < Chosen(pages, units, n)[k]
  {
    Selected(Acceptance(pages, units), n);
    forall i | 0 <= i < n && Accepted(pages, units, i) ensures i in Chosen(pages, units, n) {
      assert Acceptance(pages, units)(i);
    }
  }

  /** A unit is accepted exactly when no check has a reason against it. */
  lemma NoReasonMeansAccepted(pages: seq<PageRow>, units: seq<CandidateUnit>, i: nat)
    requires i < |units|
    ensures Reason(pages, units, i).None? <==> Accepted(pages, units, i)
  {
  }

  /** Received = accepted + every skip, each unit counted once. */
  lemma {:induction false} EveryUnitIsAccountedFor(pages: seq<PageRow>, units: seq<CandidateUnit>, n: nat,
                                                   counts: map<Issue, nat>)
    requires n <= |units| && CountsAre(pages, units, n, counts)
    ensures n == |Chosen(pages, units, n)| + Total(counts)
  {
    TalliesAddUp(pages, units, n);
  }

  ghost function Tallies(pages: seq<PageRow>, units: seq<CandidateUnit>, n: nat): nat
    requires n <= |units|
  {
    Tally(pages, units, n, UnknownSourceUnit) + Tally(pages, units, n, InvalidSpan)
    + Tally(pages, units, n, EmptyEvidence)
    + Tally(pages, units, n, EvidenceTooLong) + Tally(pages, units, n, RequirementTextBounds)
    + Tally(pages, units, n, DuplicateCandidate) + Tally(pages, units, n, ControlCharacters)
  }

  lemma {:induction false} TalliesAddUp(pages: seq<PageRow>, units: seq<CandidateUnit>, n: nat)
    requires n <= |units|
    ensures n == |Chosen(pages, units, n)| + Tallies(pages, units, n)
  {
    if n > 0 {
      TalliesAddUp(pages, units, n - 1);
      NoReasonMeansAccepted(pages, units, n - 1);
      var reason := Reason(pages, units, n - 1);
      assert Tallies(pages, units, n) == Tallies(pages, units, n - 1) + if reason.Some? then 1 else 0;
    }
  }

  /**
   * Of the sound units that share a key only the first can be accepted, and it is unless it holds
   * control characters.
   */
  lemma {:induction false} OneSurvivorPerKey(pages: seq<PageRow>, units: seq<CandidateUnit>, i: nat)
    returns (first: nat)
    requires i < |units| && Sound(pages, units[i])
    ensures first <= i && Sound(pages, units[first]) && KeyOf(units[first]) == KeyOf(units[i])
    ensures Accepted(pages, units, first) <==> Printable(pages, units[first])
    ensures Accepted(pages, units, i) ==> first == i
  {
    if FirstOfItsKey(pages, units, i) {
      first := i;
    } else {
      var j :| 0 <= j < i && Sound(pages, units[j]) && KeyOf(units[j]) == KeyOf(units[i]);
      first := OneSurvivorPerKey(pages, units, j);
    }
  }

  ghost function Survivors(pages: seq<PageRow>, units: seq<CandidateUnit>): seq<CandidateUnit> {
    ChosenAreTheAccepted(pages, units, |units|);
    var chosen := Chosen(pages, units, |units|);
    seq(|chosen|, k requires 0 <= k < |chosen| => units[chosen[k]])
  }

  /** Filtering what survived drops nothing more. */
  lemma FilteringTwiceIsFilteringOnce(pages: seq<PageRow>, units: seq<CandidateUnit>, k: nat)
    requires k < |Survivors(pages, units)|
    ensures Accepted(pages, Survivors(pages, units), k)
  {
    ChosenAreTheAccepted(pages, units, |units|);
    var chosen := Chosen(pages, units, |units|);
    assert Accepted(pages, units, chosen[k]);
    forall j | 0 <= j < k ensures KeyOf(Survivors(pages, units)[j]) != KeyOf(Survivors(pages, units)[k]) {
      assert Accepted(pages, units, chosen[j]);
    }
  }

  // The checks one by one.

  lemma {:induction false} PageForIsTheLast(pages: seq<PageRow>, sequence: int)
    ensures PageFor(pages, sequence).None? <==> forall k :: 0 <= k < |pages| ==> pages[k].number != sequence
    ensures forall k :: 0 <= k < |pages| && pages[k].number == sequence
                        && (forall j :: k < j < |pages| ==> pages[j].number != sequence)
                        ==> PageFor(pages, sequence) == Some(pages[k])
    decreases |pages|
  {
    if pages != [] {
      PageForIsTheLast(pages[..|pages| - 1], sequence);
    }
  }

  function ContentFor(pages: seq<PageRow>, u: CandidateUnit): string {
    var page := PageFor(pages, u.sequence);
    if page.Some? then page.value.content else ""
  }

  function Quoted(pages: seq<PageRow>, u: CandidateUnit): string {
    var content := ContentFor(pages, u);
    if 0 <= u.start <= u.end <= |content| then content[u.start..u.end] else ""
  }

  /** What a unit must get past before it is compared with the units before it. */
  ghost function OwnHurdles(pages: seq<PageRow>, u: CandidateUnit): seq<Hurdle<Issue>> {
    var quoted, text := Quoted(pages, u), Strip(u.text);
    [ Hurdle(exists k :: 0 <= k < |pages| && pages[k].number == u.sequence, UnknownSourceUnit),
      Hurdle(0 <= u.start < u.end <= |ContentFor(pages, u)|, InvalidSpan),
      Hurdle(exists k :: 0 <= k < |quoted| && !IsSpace(quoted[k]), EmptyEvidence),
      Hurdle(u.end - u.start <= 4000, EvidenceTooLong),
      Hurdle(0 < |text| <= 2000, RequirementTextBounds)]
  }

  /** The same span of the same page, and texts that start alike. */
  predicate Alike(u: CandidateUnit, v: CandidateUnit) {
    && u.sequence == v.sequence && u.start == v.start && u.end == v.end
    && Strip(u.text)[..Min(100, |Strip(u.text)|)] == Strip(v.text)[..Min(100, |Strip(v.text)|)]
  }

  ghost function UnitHurdles(pages: seq<PageRow>, units: seq<CandidateUnit>, i: nat): seq<Hurdle<Issue>>
    requires i < |units|
  {
    OwnHurdles(pages, units[i]) +
    [ Hurdle(forall j :: 0 <= j < i && AllCleared(OwnHurdles(pages, units[j])) ==> !Alike(units[j], units[i]),
             DuplicateCandidate),
      Hurdle((forall k :: 0 <= k < |Strip(units[i].text)| ==> !IsDisallowed(Strip(units[i].text)[k]))
             && (forall k :: 0 <= k < |Quoted(pages, units[i])| ==> !IsDisallowed(Quoted(pages, units[i])[k])),
             ControlCharacters)]
  }

  lemma SoundWhenCleared(pages: seq<PageRow>, u: CandidateUnit)
    ensures Sound(pages, u) <==> AllCleared(OwnHurdles(pages, u))
  {
    PageForIsTheLast(pages, u.sequence);
    var h := OwnHurdles(pages, u);
    if AllCleared(h) {
      assert h[0].cleared && h[1].cleared && h[2].cleared && h[3].cleared && h[4].cleared;
    }
    if Sound(pages, u) {
      var quoted := Quoted(pages, u);
      assert quoted == PageFor(pages, u.sequence).value.content[u.start..u.end];
      assert !Blank(quoted);
      assert h[2].cleared;
    }
  }

  lemma FirstWhenNoneIsAlike(pages: seq<PageRow>, units: seq<CandidateUnit>, i: nat)
    requires i < |units|
    ensures FirstOfItsKey(pages, units, i) <==>
            forall j :: 0 <= j < i && AllCleared(OwnHurdles(pages, units[j])) ==> !Alike(units[j], units[i])
  {
    forall j | 0 <= j < i
      ensures Sound(pages, units[j]) <==> AllCleared(OwnHurdles(pages, units[j]))
      ensures KeyOf(units[j]) == KeyOf(units[i]) <==> Alike(units[j], units[i])
    {
      SoundWhenCleared(pages, units[j]);
    }
  }

  lemma NothingQuotedIsBlank(pages: seq<PageRow>, u: CandidateUnit)
    requires PageFor(pages, u.sequence).Some? && InRange(PageFor(pages, u.sequence).value.content, u)
    ensures var quoted := Quoted(pages, u);
            && quoted == PageFor(pages, u.sequence).value.content[u.start..u.end]
            && (Blank(quoted) <==> !exists k :: 0 <= k < |quoted| && !IsSpace(quoted[k]))
  {
  }

  lemma OwnReason(pages: seq<PageRow>, units: seq<CandidateUnit>, i: nat, k: nat)
    requires i < |units| && FirstMissed(OwnHurdles(pages, units[i]), k)
    ensures Reason(pages, units, i) == Some(OwnHurdles(pages, units[i])[k].code)
  {
    var u, h := units[i], OwnHurdles(pages, units[i]);
    PageForIsTheLast(pages, u.sequence);
    assert (k > 0 ==> h[0].cleared) && (k > 1 ==> h[1].cleared) && (k > 2 ==> h[2].cleared) && (k > 3 ==> h[3].cleared);
    if k > 1 {
      NothingQuotedIsBlank(pages, u);
    }
  }

  lemma LateReason(pages: seq<PageRow>, units: seq<CandidateUnit>, i: nat, k: nat)
    requires i < |units| && FirstMissed(UnitHurdles(pages, units, i), k) && k >= 5
    ensures Reason(pages, units, i) == Some(UnitHurdles(pages, units, i)[k].code)
  {
    var h := UnitHurdles(pages, units, i);
    assert forall n :: 0 <= n < 5 ==> h[n] == OwnHurdles(pages, units[i])[n];
    assert AllCleared(OwnHurdles(pages, units[i]));
    SoundWhenCleared(pages, units[i]);
    FirstWhenNoneIsAlike(pages, units, i);
    assert k > 5 ==> h[5].cleared;
  }

  lemma ClearedIsAccepted(pages: seq<PageRow>, units: seq<CandidateUnit>, i: nat)
    requires i < |units| && AllCleared(UnitHurdles(pages, units, i))
    ensures Accepted(pages, units, i)
  {
    var h, own := UnitHurdles(pages, units, i), OwnHurdles(pages, units[i]);
    forall n | 0 <= n < 5 ensures own[n].cleared {
      assert h[n] == own[n];
    }
    SoundWhenCleared(pages, units[i]);
    FirstWhenNoneIsAlike(pages, units, i);
    assert h[6].cleared && h[5].cleared;
    assert Quoted(pages, units[i]) == PageFor(pages, units[i].sequence).value.content[units[i].start..units[i].end];
  }

  /** A unit is accepted exactly if it gets past every check, and rejected for the first it does not. */
  lemma JudgedByItsHurdles(pages: seq<PageRow>, units: seq<CandidateUnit>, i: nat)
    requires i < |units|
    ensures var h := UnitHurdles(pages, units, i);
            && (Accepted(pages, units, i) <==> AllCleared(h))
            && (forall k: nat :: FirstMissed(h, k) ==> Reason(pages, units, i) == Some(h[k].code))
  {
    var h := UnitHurdles(pages, units, i);
    NoReasonMeansAccepted(pages, units, i);
    if AllCleared(h) {
      ClearedIsAccepted(pages, units, i);
    } else {
      var k := SomeIsFirstMissed(h);
      if k < 5 {
        forall n | 0 <= n <= k ensures OwnHurdles(pages, units[i])[n] == h[n] {
        }
        OwnReason(pages, units, i, k);
      } else {
        LateReason(pages, units, i, k);
      }
    }
  }

  /** An accepted unit is written as it came, but for the white space around its text, with what it quotes. */
  lemma WrittenAsItCame(hash: string -> Digest, pages: seq<PageRow>, u: CandidateUnit)
    requires Sound(pages, u)
    ensures var p, page := ProposalOf(hash, pages, u), PageFor(pages, u.sequence).value;
            && p.page == page.id && p.start == u.start && p.end == u.end
            && p.evidence == page.content[u.start..u.end] && p.evidenceDigest == hash(p.evidence)
            && p.text == Strip(u.text)
            && p.requirementType == u.requirementType && p.confidence == u.confidence && p.uncertainty == u.uncertainty
            && (page.digest.Some? ==> p.pageDigest == page.digest.value) && (page.digest.None? ==> p.pageDigest == "")
            && (page.kind.Some? ==> p.kind == page.kind.value) && (page.kind.None? ==> p.kind == "")
            && (page.locator.Some? ==> p.locator == page.locator.value) && (page.locator.None? ==> p.locator == "")
  {
  }

  ghost function RejectedFor(pages: seq<PageRow>, units: seq<CandidateUnit>, n: nat, issue: Issue): set<nat>
    requires n <= |units|
  {
    set i: nat | i < n && Reason(pages, units, i) == Some(issue)
  }

  lemma OneMoreRejected(pages: seq<PageRow>, units: seq<CandidateUnit>, n: nat, issue: Issue)
    requires n < |units|
    ensures n !in RejectedFor(pages, units, n, issue)
    ensures RejectedFor(pages, units, n + 1, issue)
            == RejectedFor(pages, units, n, issue) + if Reason(pages, units, n) == Some(issue) then {n} else {}
  {
  }

  /** A tally is the number of units rejected for that reason. */
  lemma {:induction false} TallyIsTheNumber(pages: seq<PageRow>, units: seq<CandidateUnit>, n: nat, issue: Issue)
    requires n <= |units|
    ensures Tally(pages, units, n, issue) == |RejectedFor(pages, units, n, issue)|
  {
    if n > 0 {
      TallyIsTheNumber(pages, units, n - 1, issue);
      OneMoreRejected(pages, units, n - 1, issue);
    }
  }
}
