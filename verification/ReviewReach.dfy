/** A history that does happen: from one page over a completed run and one review to a requirement. */
module ReviewReach {
  import opened Basics
  import opened PythonText
  import opened SnapshotEncoding
  import opened CandidateFilter
  import opened ReviewDatabase
  import opened ReviewHistory
  import opened ReviewRuns
  import opened ReviewGuarantees

  lemma Longer(env: Env, s: System, steps: seq<Step>, t: System, i: Step) returns (longer: seq<Step>)
    requires Exec(env, s, steps) == Some(t) && Enabled(env, t, i)
    ensures Exec(env, s, longer) == Some(Effect(env, t, i)) && longer == steps + [i]
  {
    longer := steps + [i];
    assert longer[..|steps|] == steps;
  }

  /** A requirement text that the filter leaves as it is. */
  predicate Usable(env: Env, text: string) {
    && text != "" && Trimmed(text) && !HasControl(text) && |text| <= MAX_REQUIREMENT
    && env.rendering.hash(text) != "" && env.maxUnits >= 1 && |text| <= env.maxChars
  }

  /** A document of one page, numbered 1, that holds the text and its digest. */
  function OnePage(env: Env, text: string): seq<PageRow> {
    [PageRow(0, 1, None, None, Some(env.rendering.hash(text)), text)]
  }

  /** The extractor proposes the whole page. */
  function WholePage(text: string): CandidateUnit {
    CandidateUnit(1, 0, |text|, text, None, None, None)
  }

  function WholeProposal(env: Env, text: string): Proposal {
    Proposal(0, env.rendering.hash(text), "", "", 0, |text|, text, env.rendering.hash(text), text, None, None, None)
  }

  lemma TheWholePageIsSound(env: Env, text: string)
    requires Usable(env, text)
    ensures Sound(OnePage(env, text), WholePage(text)) && Printable(OnePage(env, text), WholePage(text))
    ensures ProposalOf(env.rendering.hash, OnePage(env, text), WholePage(text)) == WholeProposal(env, text)
  {
    assert text[0..|text|] == text;
    StrippedStays(text);
  }

  /** What the filter makes of it. */
  function WholeExtract(env: Env, text: string, candidate: Uuid): Extracted {
    Extracted([NewCandidate(candidate, WholeProposal(env, text))], map[])
  }

  lemma TheWholePageIsExtracted(env: Env, text: string, candidate: Uuid)
    requires Usable(env, text)
    ensures IsExtracted(env, OnePage(env, text), [WholePage(text)], (k: nat) => candidate,
                        WholeExtract(env, text, candidate))
  {
    var pages, units := OnePage(env, text), [WholePage(text)];
    TheWholePageIsSound(env, text);
    assert Accepted(pages, units, 0);
    assert Chosen(pages, units, 0) == [] && Chosen(pages, units, 1) == [0];
    forall issue: Issue ensures Count(map[], issue) == Tally(pages, units, 1, issue) {
      assert Tally(pages, units, 0, issue) == 0 && Reason(pages, units, 0).None?;
    }
  }

  /** Before: a project of the organization, and nothing extracted yet. After: a reviewer and the document. */
  ghost predicate Prepared(env: Env, text: string, s: System, project: Uuid, reviewer: Uuid, document: Uuid) {
    && Initial(s) && project in s.db.projects
    && reviewer in s.db.users && s.db.users[reviewer] == User(s.db.projects[project], true, true)
    && document in s.db.documents && s.db.documents[document] == Document(project, true, OnePage(env, text))
  }

  lemma Preparing(env: Env, text: string, s: System, project: Uuid, reviewer: Uuid, document: Uuid)
    returns (steps: seq<Step>, t: System)
    requires Initial(s) && project in s.db.projects && document !in s.db.documents
    ensures Exec(env, s, steps) == Some(t) && Prepared(env, text, t, project, reviewer, document)
  {
    var account := PutUser(reviewer, Some(User(s.db.projects[project], true, true)));
    var upload := PutDocument(document, Document(project, true, OnePage(env, text)));
    steps := Longer(env, s, [], s, account);
    var mid := Effect(env, s, account);
    steps := Longer(env, s, steps, mid, upload);
    t := Effect(env, mid, upload);
  }

  /** The call `run` is in flight over the page. */
  ghost predicate InFlight(env: Env, text: string, s: System, project: Uuid, reviewer: Uuid, document: Uuid,
                           run: Uuid) {
    && s.db.candidates == map[] && s.db.tasks == map[] && s.db.requirements == []
    && project in s.db.projects && reviewer in s.db.users
    && s.db.users[reviewer] == User(s.db.projects[project], true, true)
    && document in s.db.documents && s.db.documents[document] == Document(project, true, OnePage(env, text))
    && s.db.runs.Keys == {run} && run in s.calls && CallFits(s.db, run, s.calls[run])
    && s.calls[run].document == document && s.calls[run].org == s.db.projects[project]
    && s.calls[run].project == project
    && s.calls[run].snapshot == Snapshot(env.rendering, OnePage(env, text))
  }

  lemma Starting(env: Env, text: string, s: System, project: Uuid, reviewer: Uuid, document: Uuid, run: Uuid)
    requires Usable(env, text) && Prepared(env, text, s, project, reviewer, document)
    ensures var i := Begin(document, s.db.projects[project], run, 0);
            Enabled(env, s, i) && InFlight(env, text, Effect(env, s, i), project, reviewer, document, run)
  {
    SortingOrderedPages(OnePage(env, text));
    assert TotalChars(OnePage(env, text)) == |text|;
  }

  function Finishing(env: Env, text: string, run: Uuid, candidate: Uuid): Step {
    Finish(run, [WholePage(text)], (k: nat) => candidate, WholeExtract(env, text, candidate), false)
  }

  lemma TheCallCommits(env: Env, text: string, s: System, project: Uuid, reviewer: Uuid, document: Uuid, run: Uuid,
                       candidate: Uuid)
    requires Usable(env, text) && InFlight(env, text, s, project, reviewer, document, run)
    ensures Enabled(env, s, Finishing(env, text, run, candidate)) && Commits(env, s.db, s.calls[run])
  {
    SortingOrderedPages(OnePage(env, text));
    TheWholePageIsExtracted(env, text, candidate);
  }

  /** Any usable text leads to a call in flight whose last phase commits. */
  lemma ReachesACommit(env: Env, text: string, s: System, project: Uuid, reviewer: Uuid, document: Uuid, run: Uuid,
                       candidate: Uuid)
    returns (steps: seq<Step>, t: System)
    requires Usable(env, text) && Initial(s) && project in s.db.projects && document !in s.db.documents
    ensures Exec(env, s, steps) == Some(t) && ReviewInv(env, t)
    ensures InFlight(env, text, t, project, reviewer, document, run)
    ensures Enabled(env, t, Finishing(env, text, run, candidate)) && Commits(env, t.db, t.calls[run])
  {
    var prepared;
    steps, prepared := Preparing(env, text, s, project, reviewer, document);
    Starting(env, text, prepared, project, reviewer, document, run);
    var i := Begin(document, prepared.db.projects[project], run, 0);
    steps := Longer(env, s, steps, prepared, i);
    t := Effect(env, prepared, i);
    TheCallCommits(env, text, t, project, reviewer, document, run, candidate);
    InvAlways(env, s, steps);
  }

  /** The proposal is open, on the page as it was extracted. */
  ghost predicate Reviewable(env: Env, text: string, db: Db, project: Uuid, reviewer: Uuid, document: Uuid, run: Uuid,
                             candidate: Uuid) {
    && project in db.projects && reviewer in db.users && db.users[reviewer] == User(db.projects[project], true, true)
    && document in db.documents && db.documents[document] == Document(project, true, OnePage(env, text))
    && run in db.runs && db.runs[run].document == document && db.runs[run].org == db.projects[project]
    && candidate in db.candidates && candidate in db.tasks && db.requirements == []
    && db.candidates[candidate] == Candidate(db.projects[project], project, run, document, WholeProposal(env, text),
                                             Proposed, Review(None, None, None))
    && db.tasks[candidate] == Task(db.projects[project], "", Open, None)
  }

  lemma Committing(env: Env, text: string, s: System, project: Uuid, reviewer: Uuid, document: Uuid, run: Uuid,
                   candidate: Uuid)
    requires Usable(env, text) && InFlight(env, text, s, project, reviewer, document, run)
    requires Commits(env, s.db, s.calls[run])
    ensures Reviewable(env, text, Effect(env, s, Finishing(env, text, run, candidate)).db, project, reviewer, document,
                       run, candidate)
  {
    var call, rows := s.calls[run], WholeExtract(env, text, candidate).rows;
    assert StaleIds(s.db, call) == {};
    assert rows[..0] == [] && rows[..|rows| - 1] == [];
  }

  function Approval(db: Db, project: Uuid, reviewer: Uuid, candidate: Uuid): Request
    requires project in db.projects
  {
    Request(candidate, reviewer, db.projects[project], Approve, None, None)
  }

  lemma TheSourceStillStands(env: Env, text: string, db: Db, project: Uuid, reviewer: Uuid, document: Uuid, run: Uuid,
                             candidate: Uuid)
    requires Usable(env, text) && Reviewable(env, text, db, project, reviewer, document, run, candidate)
    ensures Drift(env, db, db.candidates[candidate]).None?
  {
    assert text[0..|text|] == text;
  }

  lemma Approving(env: Env, text: string, db: Db, project: Uuid, reviewer: Uuid, document: Uuid, run: Uuid,
                  candidate: Uuid, id: Uuid)
    requires Usable(env, text) && Reviewable(env, text, db, project, reviewer, document, run, candidate)
    ensures Decide(env, db, Approval(db, project, reviewer, candidate), id, false).0.requirements
            == [Requirement(id, project, document, candidate, text, "", None)]
  {
    TheSourceStillStands(env, text, db, project, reviewer, document, run, candidate);
  }

  /**
   * In any database without extraction rows, any usable text of a new document becomes a requirement: a
   * reviewer and the document appear, a call runs to its end over the page, and the proposal is approved.
   */
  lemma AnyTextCanBecomeARequirement(env: Env, text: string, s: System, project: Uuid, document: Uuid)
    returns (steps: seq<Step>)
    requires Usable(env, text) && Initial(s) && project in s.db.projects && document !in s.db.documents
    ensures Exec(env, s, steps).Some?
    ensures var db := Exec(env, s, steps).value.db;
            |db.requirements| == 1 && db.requirements[0].text == text && db.requirements[0].document == document
  {
    var reviewer, run, candidate, id := 0, 0, 0, 0;
    var t;
    steps, t := ReachesACommit(env, text, s, project, reviewer, document, run, candidate);
    steps := Longer(env, s, steps, t, Finishing(env, text, run, candidate));
    Committing(env, text, t, project, reviewer, document, run, candidate);
    var written := Effect(env, t, Finishing(env, text, run, candidate));
    Approving(env, text, written.db, project, reviewer, document, run, candidate, id);
    steps := Longer(env, s, steps, written, Rule(Approval(written.db, project, reviewer, candidate), id, false));
  }
}
