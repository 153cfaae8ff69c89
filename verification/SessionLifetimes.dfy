/** What sessions promise over any sequence of requests and revocations. */
module SessionLifetimes {
  import opened Basics
  import opened Sessions

  datatype Event = Visit(request: Request) | Revoke(user: string, when: real)

  function Time(e: Event): real {
    if e.Visit? then e.request.at else e.when
  }

  /** The store, every id ever drawn, and the time of the last event. */
  datatype World = World(store: Store, issued: set<Id>, now: real)

  ghost predicate Enabled(w: World, e: Event) {
    && w.now <= Time(e)
    && (e.Visit? ==> e.request.at <= e.request.after && e.request.newId !in w.issued && IsValidId(e.request.newId))
  }

  function After(cfg: Config, w: World, e: Event): World {
    match e
    case Visit(q) => World(Dispatch(cfg, w.store, q).0, w.issued + {q.newId}, q.after)
    case Revoke(user, when) => World(RevokeAll(w.store, user), w.issued, when)
  }

  ghost function Exec(cfg: Config, w: World, events: seq<Event>): Option<World>
    decreases |events|
  {
    if events == [] then Some(w)
    else
      var before := Exec(cfg, w, events[..|events| - 1]);
      if before.None? || !Enabled(before.value, events[|events| - 1]) then None
      else Some(After(cfg, before.value, events[|events| - 1]))
  }

  function Init(now: real): World {
    World(Store(map[], map[]), {}, now)
  }

  /**
   * Stored ids were drawn, a record with a user is in that user's index, and only such a record carries
   * a login time.
   */
  ghost predicate SessionInv(w: World) {
    forall id :: id in w.store.records ==> RecordFits(w, id)
  }

  ghost predicate RecordFits(w: World, id: Id)
    requires id in w.store.records
  {
    var r := w.store.records[id];
    && id in w.issued
    && (r.user.Some? ==> id in Indexed(w.store, r.user.value) && r.authenticatedAt.Some?)
    && (r.user.None? ==> r.authenticatedAt.None?)
  }

  lemma ResolvingKeeps(cfg: Config, s: Store, cookie: Option<Id>, now: real)
    ensures var (after, found) := Resolve(cfg, s, cookie, now);
            && after.records.Keys <= s.records.Keys
            && (forall id :: id in after.records ==> after.records[id] == s.records[id])
            && (forall id, u :: id in after.records && id in Indexed(s, u) ==> id in Indexed(after, u))
            && (found.Some? ==>
                  && cookie == Some(found.value.id) && found.value.id in s.records
                  && s.records[found.value.id] == found.value.record
                  && WellFormed(found.value.record) && !Expired(cfg, found.value.record, now) && after == s)
            && (forall id :: id in s.records && id !in after.records ==>
                  cookie == Some(id) && found.None? && (!WellFormed(s.records[id]) || Expired(cfg, s.records[id], now)))
  {
  }

  lemma EndingKeepsInv(w: World, found: Option<Resolved>, v: World)
    requires SessionInv(w) && UserOf(found).Some? && v.store == EndSession(w.store, found) && w.issued <= v.issued
    ensures SessionInv(v)
  {
    forall id | id in v.store.records ensures RecordFits(v, id) {
      assert RecordFits(w, id);
    }
  }

  lemma StartingKeepsInv(cfg: Config, w: World, found: Option<Resolved>, r: Record, q: Request, v: World)
    requires SessionInv(w) && r.user.Some? && v.store == StartSession(cfg, w.store, found, r, q).0
    requires v.issued == w.issued + {q.newId}
    ensures SessionInv(v)
  {
    forall id | id in v.store.records ensures RecordFits(v, id) {
      if id != q.newId { assert RecordFits(w, id); }
    }
  }

  lemma KeepingKeepsInv(cfg: Config, w: World, found: Option<Resolved>, r: Record, q: Request, v: World)
    requires SessionInv(w) && v.store == KeepSession(cfg, w.store, found, r, q).0 && v.issued == w.issued + {q.newId}
    requires found.Some? ==> found.value.id in w.issued
    requires r.user.Some? <==> r.authenticatedAt.Some?
    ensures SessionInv(v)
  {
    var target := if found.Some? then found.value.id else q.newId;
    forall id | id in v.store.records ensures RecordFits(v, id) {
      if id != target { assert RecordFits(w, id); }
    }
  }

  lemma ResolvingKeepsInv(cfg: Config, w: World, cookie: Option<Id>, now: real)
    requires SessionInv(w)
    ensures SessionInv(w.(store := Resolve(cfg, w.store, cookie, now).0))
  {
    ResolvingKeeps(cfg, w.store, cookie, now);
    var v := w.(store := Resolve(cfg, w.store, cookie, now).0);
    forall id | id in v.store.records ensures RecordFits(v, id) {
      assert RecordFits(w, id);
    }
  }

  lemma VisitKeepsInv(cfg: Config, w: World, q: Request)
    requires SessionInv(w) && !q.exempt
    ensures SessionInv(After(cfg, w, Visit(q)))
  {
    var v := After(cfg, w, Visit(q));
    var (store, found) := Resolve(cfg, w.store, q.cookie, q.at);
    ResolvingKeeps(cfg, w.store, q.cookie, q.at);
    ResolvingKeepsInv(cfg, w, q.cookie, q.at);
    var mid := w.(store := store);
    if found.Some? {
      assert RecordFits(w, found.value.id);
    }
    var r := Touched(found, q);
    if UserOf(found).Some? && r.user.None? {
      EndingKeepsInv(mid, found, v);
    } else if UserOf(found).None? && r.user.Some? {
      StartingKeepsInv(cfg, mid, found, r, q, v);
    } else {
      KeepingKeepsInv(cfg, mid, found, r, q, v);
    }
  }

  lemma EventKeepsInv(cfg: Config, w: World, e: Event)
    requires SessionInv(w)
    ensures SessionInv(After(cfg, w, e))
  {
    var v := After(cfg, w, e);
    if e.Visit? && !e.request.exempt {
      VisitKeepsInv(cfg, w, e.request);
    } else {
      forall id | id in v.store.records ensures RecordFits(v, id) {
        assert RecordFits(w, id);
      }
    }
  }

  lemma {:induction false} InvAlways(cfg: Config, now: real, events: seq<Event>)
    requires Exec(cfg, Init(now), events).Some?
    ensures SessionInv(Exec(cfg, Init(now), events).value)
    decreases |events|
  {
    if events != [] {
      InvAlways(cfg, now, events[..|events| - 1]);
      EventKeepsInv(cfg, Exec(cfg, Init(now), events[..|events| - 1]).value, events[|events| - 1]);
    }
  }

  // Death.

  /** The id would resolve to a session at this time. */
  predicate Alive(cfg: Config, s: Store, id: Id, t: real) {
    id in s.records && WellFormed(s.records[id]) && !Expired(cfg, s.records[id], t)
  }

  /** A visit writes only the session it resolved or a fresh one, and a resolved one keeps its anchor. */
  lemma VisitWrites(cfg: Config, s: Store, q: Request)
    ensures var (after, reply) := Dispatch(cfg, s, q);
            && (forall id :: id in after.records && id != q.newId ==> id in s.records)
            && (forall id :: id in after.records && id != q.newId && after.records[id] != s.records[id] ==>
                  && q.cookie == Some(id) && Alive(cfg, s, id, q.at)
                  && after.records[id].authenticatedAt == s.records[id].authenticatedAt
                  && after.records[id].created == s.records[id].created)
  {
    ResolvingKeeps(cfg, s, q.cookie, q.at);
  }

  lemma VisitKeepsDead(cfg: Config, s: Store, q: Request, id: Id, t: real)
    requires id != q.newId && t <= q.at <= q.after && !Alive(cfg, s, id, t)
    ensures forall later :: later >= t ==> !Alive(cfg, Dispatch(cfg, s, q).0, id, later)
  {
    VisitWrites(cfg, s, q);
  }

  /**
   * An id that no longer resolves never resolves again, whatever requests and revocations follow:
   * logged out, expired, rotated away at login or revoked, it is dead for good.
   */
  lemma {:induction false} DeadIdsStayDead(cfg: Config, w: World, events: seq<Event>, id: Id, t: real)
    requires id in w.issued && !Alive(cfg, w.store, id, w.now)
    requires Exec(cfg, w, events).Some? && t >= Exec(cfg, w, events).value.now
    ensures !Alive(cfg, Exec(cfg, w, events).value.store, id, t)
    ensures id in Exec(cfg, w, events).value.issued
    decreases |events|
  {
    if events != [] {
      var mid, e := Exec(cfg, w, events[..|events| - 1]).value, events[|events| - 1];
      DeadIdsStayDead(cfg, w, events[..|events| - 1], id, mid.now);
      DeadStep(cfg, mid, e, id, t);
    }
  }

  lemma DeadStep(cfg: Config, w: World, e: Event, id: Id, t: real)
    requires id in w.issued && !Alive(cfg, w.store, id, w.now) && Enabled(w, e) && t >= After(cfg, w, e).now
    ensures !Alive(cfg, After(cfg, w, e).store, id, t)
  {
    if e.Visit? {
      VisitKeepsDead(cfg, w.store, e.request, id, w.now);
    }
  }

  /**
   * What kills an id: logging out, a login that rotates it away, an expired visit, and revoking the user
   * it is indexed for.
   */
  lemma WhatEndsASession(cfg: Config, s: Store, q: Request)
    requires !q.exempt && q.cookie.Some? && IsValidId(q.cookie.value) && q.newId != q.cookie.value
    ensures var (after, reply) := Dispatch(cfg, s, q);
            var id := q.cookie.value;
            && (reply.session == Some(id) <==> Alive(cfg, s, id, q.at))
            && (id !in after.records <==>
                  || !Alive(cfg, s, id, q.at)
                  || (reply.servedAs.Some? && q.route.user.None?)
                  || (reply.servedAs.None? && q.route.user.Some?))
  {
    ResolvingKeeps(cfg, s, q.cookie, q.at);
  }

  /** The session id changes at a request exactly when it begins anonymous and ends logged in. */
  lemma RotatedExactlyAtLogin(cfg: Config, s: Store, q: Request)
    requires !q.exempt && Dispatch(cfg, s, q).1.session.Some? && q.newId != Dispatch(cfg, s, q).1.session.value
    ensures var reply := Dispatch(cfg, s, q).1;
            reply.cookie == SetCookie(q.newId) <==> reply.servedAs.None? && q.route.user.Some?
  {
  }

  /** Revoking removes the indexed records and their index only, and in a reachable store leaves none of the user. */
  lemma RevokingLeavesNoRecordOfTheUser(cfg: Config, now: real, events: seq<Event>, user: string)
    requires Exec(cfg, Init(now), events).Some?
    ensures var s := Exec(cfg, Init(now), events).value.store;
            var after := RevokeAll(s, user);
            && (forall id :: id in after.records ==> after.records[id].user != Some(user))
            && (forall id :: id in after.records <==> id in s.records && id !in Indexed(s, user))
            && (forall id :: id in after.records ==> after.records[id] == s.records[id])
            && (forall other :: other in after.index <==> other in s.index && other != user)
            && (forall other :: other in after.index ==> after.index[other] == s.index[other])
  {
    InvAlways(cfg, now, events);
    var w := Exec(cfg, Init(now), events).value;
    forall id | id in RevokeAll(w.store, user).records ensures w.store.records[id].user != Some(user) {
      assert RecordFits(w, id);
    }
  }

  // Lifetimes.

  /** A login time never moves while its id lives. */
  lemma {:induction false} LoginTimeNeverMoves(cfg: Config, w: World, events: seq<Event>, id: Id)
    requires id in w.issued && Exec(cfg, w, events).Some? && id in Exec(cfg, w, events).value.store.records
    ensures id in w.store.records && id in Exec(cfg, w, events).value.issued
    ensures Exec(cfg, w, events).value.store.records[id].authenticatedAt == w.store.records[id].authenticatedAt
    ensures Exec(cfg, w, events).value.store.records[id].created == w.store.records[id].created
    decreases |events|
  {
    if events != [] {
      var mid, e := Exec(cfg, w, events[..|events| - 1]).value, events[|events| - 1];
      IssuedStays(cfg, w, events[..|events| - 1], id);
      if e.Visit? {
        VisitWrites(cfg, mid.store, e.request);
      }
      LoginTimeNeverMoves(cfg, w, events[..|events| - 1], id);
    }
  }

  lemma {:induction false} IssuedStays(cfg: Config, w: World, events: seq<Event>, id: Id)
    requires id in w.issued && Exec(cfg, w, events).Some?
    ensures id in Exec(cfg, w, events).value.issued
    decreases |events|
  {
    if events != [] {
      IssuedStays(cfg, w, events[..|events| - 1], id);
    }
  }

  /**
   * However busy a session is kept: a request is served as a user only within the absolute timeout of
   * the login that created its id, and within the idle timeout of the last activity.
   */
  lemma ServedOnlyWithinItsLifetime(cfg: Config, w: World, events: seq<Event>, id: Id, q: Request)
    requires SessionInv(w) && id in w.issued && id in w.store.records && w.store.records[id].authenticatedAt.Some?
    requires Exec(cfg, w, events).Some? && Enabled(Exec(cfg, w, events).value, Visit(q))
    requires Dispatch(cfg, Exec(cfg, w, events).value.store, q).1.session == Some(id)
    requires Dispatch(cfg, Exec(cfg, w, events).value.store, q).1.servedAs.Some?
    ensures q.at - w.store.records[id].authenticatedAt.value <= cfg.absolute as real
    ensures q.at - Exec(cfg, w, events).value.store.records[id].lastActivity <= cfg.idle as real
  {
    var v := Exec(cfg, w, events).value;
    ResolvingKeeps(cfg, v.store, q.cookie, q.at);
    LoginTimeNeverMoves(cfg, w, events, id);
  }

  lemma TruncIsBelow(x: real)
    ensures x >= 0.0 ==> 0 <= Trunc(x) && Trunc(x) as real <= x
    ensures x < 0.0 ==> Trunc(x) <= 0
  {
  }

  /**
   * Every saved TTL is the idle timeout or the whole seconds that are left of the absolute lifetime,
   * whichever is less, and at least a second.
   */
  lemma SavedTtlIsBounded(cfg: Config, s: Store, q: Request)
    requires Dispatch(cfg, s, q).1.saved.Some?
    ensures var saved := Dispatch(cfg, s, q).1.saved.value;
            var remaining := cfg.absolute as real - (q.after - Anchor(saved.record));
            && 1 <= saved.ttl <= Max(1, cfg.idle)
            && (saved.ttl as real <= remaining || saved.ttl == 1)
            && (saved.ttl == cfg.idle || saved.ttl == 1 || remaining < (saved.ttl + 1) as real)
            && (saved.ttl == 1 ==> cfg.idle <= 1 || remaining < 2.0)
            && saved.id in Dispatch(cfg, s, q).0.records && Dispatch(cfg, s, q).0.records[saved.id] == saved.record
  {
    var saved := Dispatch(cfg, s, q).1.saved.value;
    TruncIsBelow(cfg.absolute as real - (q.after - Anchor(saved.record)));
  }
}
