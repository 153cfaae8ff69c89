/** At most one RFP document of a project is active, although uploads and lifecycle steps interleave freely. */
module ActiveRfp {
  import opened Basics
  import opened IngestionState

  datatype Rfp = Rfp(project: Uuid, status: Status)

  predicate Active(d: Rfp) {
    !Rejected(d.status)
  }

  /** Where an `upload_rfp_document` call stands inside its transaction. */
  datatype Upload = Entered(project: Uuid) | Cleared(project: Uuid)

  /** `locks` holds the project rows locked by an upload; they are released when its transaction ends. */
  datatype World = World(rfps: map<Uuid, Rfp>, uploads: map<Uuid, Upload>, locks: map<Uuid, Uuid>)

  datatype Step =
    | Enter(upload: Uuid, project: Uuid)
    | Check(checked: Uuid)
    | Insert(inserted: Uuid, newId: Uuid)
    | Abort(aborted: Uuid)
    | Advance(document: Uuid, to: Status)

  ghost predicate HasActive(w: World, project: Uuid) {
    exists d :: d in w.rfps && w.rfps[d].project == project && Active(w.rfps[d])
  }

  function Leave(w: World, u: Uuid): World
    requires u in w.uploads
  {
    var project := w.uploads[u].project;
    w.(uploads := w.uploads - {u},
       locks := if project in w.locks && w.locks[project] == u then w.locks - {project} else w.locks)
  }

  /** `locking` is false on SQLite, where the row lock is skipped. */
  ghost function Next(locking: bool, w: World, s: Step): Option<World> {
    match s
    case Enter(u, project) =>
      if u in w.uploads || (locking && project in w.locks) then None
      else Some(w.(uploads := w.uploads[u := Entered(project)],
                   locks := if locking then w.locks[project := u] else w.locks))
    case Check(u) =>
      if u !in w.uploads || !w.uploads[u].Entered? then None
      else if HasActive(w, w.uploads[u].project) then Some(Leave(w, u))
      else Some(w.(uploads := w.uploads[u := Cleared(w.uploads[u].project)]))
    case Insert(u, id) =>
      if u !in w.uploads || !w.uploads[u].Cleared? || id in w.rfps then None
      else Some(Leave(w, u).(rfps := w.rfps[id := Rfp(w.uploads[u].project, Quarantined)]))
    case Abort(u) => if u !in w.uploads then None else Some(Leave(w, u))
    case Advance(d, to) =>
      if d !in w.rfps || !Permitted(w.rfps[d].status, to) then None
      else Some(w.(rfps := w.rfps[d := w.rfps[d].(status := to)]))
  }

  const START := World(map[], map[], map[])

  ghost function Exec(locking: bool, steps: seq<Step>): Option<World>
    decreases |steps|
  {
    if steps == [] then Some(START)
    else
      var before := Exec(locking, steps[..|steps| - 1]);
      if before.None? then None else Next(locking, before.value, steps[|steps| - 1])
  }

  ghost predicate OneActive(w: World) {
    forall d, e :: d in w.rfps && e in w.rfps && d != e && w.rfps[d].project == w.rfps[e].project
                   ==> !Active(w.rfps[d]) || !Active(w.rfps[e])
  }

  /**
   * An upload in flight holds its project's lock, and one that was cleared still faces a project without
   * an active RFP.
   */
  ghost predicate LockInv(w: World) {
    && OneActive(w)
    && (forall u :: u in w.uploads ==> w.uploads[u].project in w.locks && w.locks[w.uploads[u].project] == u)
    && (forall u :: u in w.uploads && w.uploads[u].Cleared? ==> !HasActive(w, w.uploads[u].project))
  }

  lemma RejectionIsAbsorbing(s: Status, to: Status)
    requires Permitted(s, to)
    ensures !Rejected(s)
  {
  }

  lemma LeavingKeepsLocks(w: World, u: Uuid)
    requires LockInv(w) && u in w.uploads
    ensures LockInv(Leave(w, u))
  {
    var v := Leave(w, u);
    forall x | x in v.uploads ensures v.uploads[x].project in v.locks && v.locks[v.uploads[x].project] == x {
      assert w.locks[w.uploads[x].project] == x && w.locks[w.uploads[u].project] == u;
    }
    forall x | x in v.uploads && v.uploads[x].Cleared? ensures !HasActive(v, v.uploads[x].project) {
      assert !HasActive(w, w.uploads[x].project);
    }
  }

  lemma InsertKeepsLocks(w: World, u: Uuid, id: Uuid)
    requires LockInv(w) && Next(true, w, Insert(u, id)).Some?
    ensures LockInv(Next(true, w, Insert(u, id)).value)
  {
    var project := w.uploads[u].project;
    var v := Next(true, w, Insert(u, id)).value;
    LeavingKeepsLocks(w, u);
    assert !HasActive(w, project);
    forall d | d in w.rfps && w.rfps[d].project == project ensures !Active(w.rfps[d]) {
    }
    forall x | x in v.uploads && v.uploads[x].Cleared? ensures !HasActive(v, v.uploads[x].project) {
      assert !HasActive(w, w.uploads[x].project);
      assert w.locks[w.uploads[x].project] == x && w.locks[project] == u;
    }
  }

  lemma AdvanceKeepsLocks(w: World, d: Uuid, to: Status)
    requires LockInv(w) && Next(true, w, Advance(d, to)).Some?
    ensures LockInv(Next(true, w, Advance(d, to)).value)
  {
    var v := Next(true, w, Advance(d, to)).value;
    RejectionIsAbsorbing(w.rfps[d].status, to);
    forall x | x in v.uploads && v.uploads[x].Cleared? ensures !HasActive(v, v.uploads[x].project) {
      assert !HasActive(w, w.uploads[x].project);
    }
  }

  lemma NextKeepsLocks(w: World, s: Step)
    requires LockInv(w) && Next(true, w, s).Some?
    ensures LockInv(Next(true, w, s).value)
  {
    match s
    case Enter(u, project) =>
      var v := Next(true, w, s).value;
      forall x | x in v.uploads && v.uploads[x].Cleared? ensures !HasActive(v, v.uploads[x].project) {
        assert !HasActive(w, w.uploads[x].project);
      }
    case Check(u) =>
      if HasActive(w, w.uploads[u].project) {
        LeavingKeepsLocks(w, u);
      } else {
        var v := Next(true, w, s).value;
        forall x | x in v.uploads && v.uploads[x].Cleared? ensures !HasActive(v, v.uploads[x].project) {
          assert !HasActive(w, w.uploads[x].project);
        }
      }
    case Insert(u, id) => InsertKeepsLocks(w, u, id);
    case Abort(u) => LeavingKeepsLocks(w, u);
    case Advance(d, to) => AdvanceKeepsLocks(w, d, to);
  }

  lemma {:induction false} LocksAlways(steps: seq<Step>)
    requires Exec(true, steps).Some?
    ensures LockInv(Exec(true, steps).value)
    decreases |steps|
  {
    if steps != [] {
      LocksAlways(steps[..|steps| - 1]);
      NextKeepsLocks(Exec(true, steps[..|steps| - 1]).value, steps[|steps| - 1]);
    }
  }

  /** With the project row locked until the insert commits, no interleaving leaves two active RFPs in a project. */
  lemma AtMostOneActiveRfp(steps: seq<Step>)
    requires Exec(true, steps).Some?
    ensures OneActive(Exec(true, steps).value)
  {
    LocksAlways(steps);
  }

  lemma StepOf(locking: bool, before: seq<Step>, s: Step)
    requires Exec(locking, before).Some?
    ensures Exec(locking, before + [s]) == Next(locking, Exec(locking, before).value, s)
  {
    assert (before + [s])[..|before|] == before;
  }

  /** Without the lock the check alone is not enough: two uploads of one project both pass it. */
  lemma WithoutTheLockTwoUploadsBothPass(project: Uuid) returns (steps: seq<Step>)
    ensures Exec(false, steps).Some? && !OneActive(Exec(false, steps).value)
  {
    StepOf(false, [], Enter(0, project));
    var s1 := [] + [Enter(0, project)];
    StepOf(false, s1, Enter(1, project));
    var s2 := s1 + [Enter(1, project)];
    StepOf(false, s2, Check(0));
    var s3 := s2 + [Check(0)];
    StepOf(false, s3, Check(1));
    var s4 := s3 + [Check(1)];
    StepOf(false, s4, Insert(0, 0));
    var s5 := s4 + [Insert(0, 0)];
    StepOf(false, s5, Insert(1, 1));
    steps := s5 + [Insert(1, 1)];
    var w := Exec(false, steps).value;
    assert 0 in w.rfps && 1 in w.rfps && w.rfps[0] == w.rfps[1] == Rfp(project, Quarantined);
  }

  // Finding the active document.

  datatype Candidate = Candidate(id: Uuid, status: Status)

  /** `_first_active_rfp`. */
  method FirstActive(candidates: seq<Candidate>) returns (found: Option<Candidate>)
    ensures found.Some? ==>
              exists i :: 0 <= i < |candidates| && candidates[i] == found.value && !Rejected(found.value.status)
                                        && forall j :: 0 <= j < i ==> Rejected(candidates[j].status)
    ensures found.None? ==> forall i :: 0 <= i < |candidates| ==> Rejected(candidates[i].status)
  {
    for i := 0 to |candidates|
      invariant forall j :: 0 <= j < i ==> Rejected(candidates[j].status)
    {
      if !Rejected(candidates[i].status) {
        return Some(candidates[i]);
      }
    }
    return None;
  }

  /** The rows of a project in some order, as a query returns them. */
  ghost predicate Lists(w: World, project: Uuid, candidates: seq<Candidate>) {
    && (forall i :: 0 <= i < |candidates| ==>
          candidates[i].id in w.rfps && w.rfps[candidates[i].id] == Rfp(project, candidates[i].status))
    && (forall d :: d in w.rfps && w.rfps[d].project == project ==> Candidate(d, w.rfps[d].status) in candidates)
  }

  /**
   * `get_project_document` finds the active document whatever order the rows come in, and finds none
   * exactly when there is none.
   */
  method GetProjectDocument(ghost steps: seq<Step>, project: Uuid, candidates: seq<Candidate>)
    returns (found: Option<Candidate>)
    requires Exec(true, steps).Some? && Lists(Exec(true, steps).value, project, candidates)
    ensures found.Some? <==> HasActive(Exec(true, steps).value, project)
    ensures var rfps := Exec(true, steps).value.rfps;
            forall d :: d in rfps && rfps[d].project == project && Active(rfps[d]) ==>
              found == Some(Candidate(d, rfps[d].status))
  {
    LocksAlways(steps);
    ghost var w := Exec(true, steps).value;
    found := FirstActive(candidates);
    forall d | d in w.rfps && w.rfps[d].project == project && Active(w.rfps[d])
      ensures found == Some(Candidate(d, w.rfps[d].status))
    {
      assert Candidate(d, w.rfps[d].status) in candidates;
    }
  }

  /**
   * An upload that finds its project unlocked is stored exactly if the project has no active document:
   * a rejected one does not stand in the way, any other does.
   */
  lemma StoredExactlyWhenNoneIsActive(steps: seq<Step>, u: Uuid, project: Uuid, id: Uuid)
    requires Exec(true, steps).Some?
    requires var w := Exec(true, steps).value; u !in w.uploads && project !in w.locks && id !in w.rfps
    ensures Exec(true, steps + [Enter(u, project)] + [Check(u)] + [Insert(u, id)]).Some? <==>
            forall d :: d in Exec(true, steps).value.rfps && Exec(true, steps).value.rfps[d].project == project ==>
              Exec(true, steps).value.rfps[d].status in {RejectedType, RejectedMalware, RejectedContentPolicy}
  {
    var w := Exec(true, steps).value;
    StepOf(true, steps, Enter(u, project));
    StepOf(true, steps + [Enter(u, project)], Check(u));
    var checked := steps + [Enter(u, project)] + [Check(u)];
    if HasActive(w, project) {
      assert u !in Exec(true, checked).value.uploads;
    }
    StepOf(true, checked, Insert(u, id));
  }
}
