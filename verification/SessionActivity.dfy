/**
 * What the recorded times mean: they are those of the requests themselves, so that a session that is
 * used lives and one that is not does not.
 */
module SessionActivity {
  import opened Basics
  import opened Sessions
  import opened SessionLifetimes

  /** The request found this session, or left it behind as a new one. */
  predicate Touches(reply: Reply, id: Id) {
    reply.session == Some(id) || reply.cookie == SetCookie(id)
  }

  /** When the last request that touched the id was resolved. */
  ghost function LastVisit(cfg: Config, w: World, events: seq<Event>, id: Id): Option<real>
    decreases |events|
  {
    if events == [] then None
    else
      var before, last := Exec(cfg, w, events[..|events| - 1]), events[|events| - 1];
      if before.Some? && last.Visit? && Touches(Dispatch(cfg, before.value.store, last.request).1, id) then
        Some(last.request.at)
      else LastVisit(cfg, w, events[..|events| - 1], id)
  }

  /** When the id was drawn: at the end of the request that logged in with it, or on an anonymous visit. */
  ghost function Began(cfg: Config, w: World, events: seq<Event>, id: Id): Option<real>
    decreases |events|
  {
    if events == [] then None
    else
      var before, last := Exec(cfg, w, events[..|events| - 1]), events[|events| - 1];
      if before.Some? && last.Visit? && last.request.newId == id
         && Dispatch(cfg, before.value.store, last.request).1.cookie == SetCookie(id) then
        Some(if last.request.route.user.Some? then last.request.after else last.request.at)
      else Began(cfg, w, events[..|events| - 1], id)
  }

  lemma TouchedRecords(cfg: Config, s: Store, q: Request, id: Id)
    requires id in Dispatch(cfg, s, q).0.records
    ensures var (after, reply) := Dispatch(cfg, s, q);
            if Touches(reply, id) then after.records[id].lastActivity == q.at
            else id in s.records && after.records[id] == s.records[id]
  {
    ResolvingKeeps(cfg, s, q.cookie, q.at);
  }

  lemma AnchoredRecords(cfg: Config, w: World, q: Request, id: Id)
    requires SessionInv(w) && q.newId !in w.issued && id in Dispatch(cfg, w.store, q).0.records
    ensures var (after, reply) := Dispatch(cfg, w.store, q);
            if id == q.newId then
              && reply.cookie == SetCookie(id)
              && Anchor(after.records[id]) == if q.route.user.Some? then q.after else q.at
            else id in w.store.records && Anchor(after.records[id]) == Anchor(w.store.records[id])
  {
    ResolvingKeeps(cfg, w.store, q.cookie, q.at);
    assert q.newId in w.store.records ==> RecordFits(w, q.newId);
    if q.cookie.Some? && q.cookie.value in w.store.records {
      assert RecordFits(w, q.cookie.value);
    }
  }

  /**
   * In every run a stored record carries the time of the last request that touched its id and, as what
   * its absolute lifetime is measured from, the time the id was drawn.
   */
  lemma {:induction false} TimesAreThoseOfTheRequests(cfg: Config, now: real, events: seq<Event>, id: Id)
    requires Exec(cfg, Init(now), events).Some? && id in Exec(cfg, Init(now), events).value.store.records
    ensures var r := Exec(cfg, Init(now), events).value.store.records[id];
            && LastVisit(cfg, Init(now), events, id) == Some(r.lastActivity)
            && Began(cfg, Init(now), events, id) == Some(Anchor(r))
    decreases |events|
  {
    if events != [] {
      var before, last := events[..|events| - 1], events[|events| - 1];
      var w := Exec(cfg, Init(now), before).value;
      if last.Visit? {
        InvAlways(cfg, now, before);
        TouchedRecords(cfg, w.store, last.request, id);
        AnchoredRecords(cfg, w, last.request, id);
      }
      if id in w.store.records {
        TimesAreThoseOfTheRequests(cfg, now, before, id);
      }
    }
  }

  /**
   * After any events a request finds its session only within the idle timeout of the last request that
   * touched it, and within the absolute timeout of the one that drew its id.
   */
  lemma FoundOnlyWhileUsed(cfg: Config, now: real, events: seq<Event>, q: Request)
    requires Exec(cfg, Init(now), events).Some?
    requires Dispatch(cfg, Exec(cfg, Init(now), events).value.store, q).1.session.Some?
    ensures var id := Dispatch(cfg, Exec(cfg, Init(now), events).value.store, q).1.session.value;
            && LastVisit(cfg, Init(now), events, id).Some? && Began(cfg, Init(now), events, id).Some?
            && q.at - LastVisit(cfg, Init(now), events, id).value <= cfg.idle as real
            && q.at - Began(cfg, Init(now), events, id).value <= cfg.absolute as real
  {
    var s := Exec(cfg, Init(now), events).value.store;
    ResolvingKeeps(cfg, s, q.cookie, q.at);
    TimesAreThoseOfTheRequests(cfg, now, events, Dispatch(cfg, s, q).1.session.value);
  }

  // A busy session lives.

  /** No index names an id that was never drawn. */
  ghost predicate OnlyIssuedIndexed(w: World) {
    forall user, id :: id in Indexed(w.store, user) ==> id in w.issued
  }

  lemma VisitIndexes(cfg: Config, s: Store, q: Request, user: string, id: Id)
    requires id in Indexed(Dispatch(cfg, s, q).0, user)
    ensures id in Indexed(s, user) || id == q.newId || (q.cookie == Some(id) && id in s.records)
  {
    ResolvingKeeps(cfg, s, q.cookie, q.at);
  }

  lemma EventIndexesIssued(cfg: Config, w: World, e: Event)
    requires SessionInv(w) && OnlyIssuedIndexed(w)
    ensures OnlyIssuedIndexed(After(cfg, w, e))
  {
    if e.Visit? {
      forall user, id | id in Indexed(After(cfg, w, e).store, user) ensures id in After(cfg, w, e).issued {
        VisitIndexes(cfg, w.store, e.request, user, id);
        assert id in w.store.records ==> RecordFits(w, id);
      }
    } else {
      forall user, id | id in Indexed(After(cfg, w, e).store, user) ensures id in w.issued {
        assert id in Indexed(w.store, user);
      }
    }
  }

  lemma {:induction false} OnlyIssuedAlways(cfg: Config, now: real, events: seq<Event>)
    requires Exec(cfg, Init(now), events).Some?
    ensures OnlyIssuedIndexed(Exec(cfg, Init(now), events).value)
    decreases |events|
  {
    if events != [] {
      var w := Exec(cfg, Init(now), events[..|events| - 1]).value;
      OnlyIssuedAlways(cfg, now, events[..|events| - 1]);
      InvAlways(cfg, now, events[..|events| - 1]);
      EventIndexesIssued(cfg, w, events[|events| - 1]);
    }
  }

  predicate Under(e: Event, id: Id) {
    e.Visit? && !e.request.exempt && e.request.cookie == Some(id)
  }

  /** The last time the cookie came back, or the time it was given out. */
  function LastUnder(events: seq<Event>, id: Id, given: real): real {
    if events == [] then given
    else if Under(events[|events| - 1], id) then events[|events| - 1].request.at
    else LastUnder(events[..|events| - 1], id, given)
  }

  /** The cookie comes back in time, nobody logs out with it, and nobody revokes the user. */
  predicate Keeps(cfg: Config, e: Event, id: Id, user: string, last: real) {
    match e
    case Visit(q) =>
      Under(e, id) ==> q.route.user == Some(user) && q.route.org.Some? && q.at - last <= cfg.idle as real
    case Revoke(revoked, _) => revoked != user
  }

  ghost predicate KeptBusy(cfg: Config, events: seq<Event>, id: Id, user: string, given: real) {
    forall i :: 0 <= i < |events| ==> Keeps(cfg, events[i], id, user, LastUnder(events[..i], id, given))
  }

  /** The session of the user, last used at `last`, and indexed for nobody else. */
  ghost predicate Lives(w: World, id: Id, user: string, began: real, last: real) {
    && id in w.issued && IsValidId(id) && id in w.store.records
    && w.store.records[id].user == Some(user) && w.store.records[id].org.Some?
    && w.store.records[id].authenticatedAt == Some(began) && w.store.records[id].lastActivity == last
    && forall other :: other != user ==> id !in Indexed(w.store, other)
  }

  lemma ServedWhileItLives(cfg: Config, w: World, q: Request, id: Id, user: string, began: real, last: real)
    requires Lives(w, id, user, began, last) && Under(Visit(q), id)
    requires q.at - last <= cfg.idle as real && q.at - began <= cfg.absolute as real
    ensures Resolve(cfg, w.store, q.cookie, q.at) == (w.store, Some(Resolved(id, w.store.records[id])))
    ensures Dispatch(cfg, w.store, q).1.session == Some(id) && Dispatch(cfg, w.store, q).1.servedAs == Some(user)
  {
  }

  lemma UsingKeepsItAlive(cfg: Config, w: World, q: Request, id: Id, user: string, began: real, last: real)
    requires Lives(w, id, user, began, last) && Under(Visit(q), id)
    requires Keeps(cfg, Visit(q), id, user, last) && q.at - began <= cfg.absolute as real
    ensures Lives(After(cfg, w, Visit(q)), id, user, began, q.at)
  {
    ServedWhileItLives(cfg, w, q, id, user, began, last);
    forall other | other != user ensures id !in Indexed(After(cfg, w, Visit(q)).store, other) {
      assert Indexed(After(cfg, w, Visit(q)).store, other) == Indexed(w.store, other);
    }
  }

  lemma OthersLeaveItAlone(cfg: Config, w: World, q: Request, id: Id, user: string, began: real, last: real)
    requires Lives(w, id, user, began, last) && !Under(Visit(q), id) && q.newId != id
    ensures Lives(After(cfg, w, Visit(q)), id, user, began, last)
  {
    ResolvingKeeps(cfg, w.store, q.cookie, q.at);
    forall other | other != user ensures id !in Indexed(Dispatch(cfg, w.store, q).0, other) {
      if !q.exempt && id in Indexed(Dispatch(cfg, w.store, q).0, other) {
        VisitIndexes(cfg, w.store, q, other, id);
      }
    }
  }

  lemma AnEventKeepsItAlive(cfg: Config, w: World, e: Event, id: Id, user: string, began: real, last: real)
    requires Lives(w, id, user, began, last) && Enabled(w, e) && Keeps(cfg, e, id, user, last)
    requires Under(e, id) ==> e.request.at - began <= cfg.absolute as real
    ensures Lives(After(cfg, w, e), id, user, began, if Under(e, id) then e.request.at else last)
  {
    match e
    case Visit(q) =>
      if Under(e, id) {
        UsingKeepsItAlive(cfg, w, q, id, user, began, last);
      } else {
        OthersLeaveItAlone(cfg, w, q, id, user, began, last);
      }
    case Revoke(revoked, _) =>
      assert id !in Indexed(w.store, revoked);
      forall other | other != user ensures id !in Indexed(After(cfg, w, e).store, other) {
        assert Indexed(After(cfg, w, e).store, other) <= Indexed(w.store, other);
      }
  }

  lemma {:induction false} BusyKeepsItAlive(cfg: Config, w: World, events: seq<Event>, id: Id, user: string,
                                            began: real, given: real)
    requires Lives(w, id, user, began, given) && Exec(cfg, w, events).Some? && KeptBusy(cfg, events, id, user, given)
    requires Exec(cfg, w, events).value.now - began <= cfg.absolute as real
    ensures Lives(Exec(cfg, w, events).value, id, user, began, LastUnder(events, id, given))
    decreases |events|
  {
    if events != [] {
      var before, last := events[..|events| - 1], events[|events| - 1];
      var x := Exec(cfg, w, before).value;
      assert x.now <= Time(last) <= After(cfg, x, last).now;
      forall i | 0 <= i < |before| ensures Keeps(cfg, before[i], id, user, LastUnder(before[..i], id, given)) {
        assert before[..i] == events[..i];
        assert Keeps(cfg, events[i], id, user, LastUnder(events[..i], id, given));
      }
      BusyKeepsItAlive(cfg, w, before, id, user, began, given);
      assert Keeps(cfg, events[|before|], id, user, LastUnder(before, id, given));
      AnEventKeepsItAlive(cfg, x, last, id, user, began, LastUnder(before, id, given));
    }
  }

  lemma LoggingInBringsItToLife(cfg: Config, w: World, login: Request)
    requires OnlyIssuedIndexed(w) && Enabled(w, Visit(login)) && !login.exempt
    requires login.route.user.Some? && login.route.org.Some? && Dispatch(cfg, w.store, login).1.servedAs.None?
    ensures Lives(After(cfg, w, Visit(login)), login.newId, login.route.user.value, login.after, login.at)
  {
    ResolvingKeeps(cfg, w.store, login.cookie, login.at);
    var user, id := login.route.user.value, login.newId;
    var resolved := Resolve(cfg, w.store, login.cookie, login.at).0;
    forall other | other != user ensures id !in Indexed(Dispatch(cfg, w.store, login).0, other) {
      assert Indexed(resolved, other) <= Indexed(w.store, other);
    }
  }

  /**
   * A session that is used lives: whatever others do after a login, as long as its cookie comes back at most
   * the idle timeout apart, leaves user and organization in place, the user is not revoked and the absolute
   * timeout has not passed since the login, the next request with it is served as that user.
   */
  lemma ABusySessionLives(cfg: Config, now: real, before: seq<Event>, login: Request, events: seq<Event>, q: Request)
    requires Exec(cfg, Init(now), before).Some? && Enabled(Exec(cfg, Init(now), before).value, Visit(login))
    requires !login.exempt && login.route.user.Some? && login.route.org.Some?
    requires Dispatch(cfg, Exec(cfg, Init(now), before).value.store, login).1.servedAs.None?
    requires var v := After(cfg, Exec(cfg, Init(now), before).value, Visit(login));
             Exec(cfg, v, events).Some? && Enabled(Exec(cfg, v, events).value, Visit(q))
    requires KeptBusy(cfg, events, login.newId, login.route.user.value, login.at) && Under(Visit(q), login.newId)
    requires q.at - LastUnder(events, login.newId, login.at) <= cfg.idle as real
    requires q.at - login.after <= cfg.absolute as real
    ensures var v := After(cfg, Exec(cfg, Init(now), before).value, Visit(login));
            var reply := Dispatch(cfg, Exec(cfg, v, events).value.store, q).1;
            reply.session == Some(login.newId) && reply.servedAs == login.route.user
  {
    var w, id, user := Exec(cfg, Init(now), before).value, login.newId, login.route.user.value;
    OnlyIssuedAlways(cfg, now, before);
    LoggingInBringsItToLife(cfg, w, login);
    var v := After(cfg, w, Visit(login));
    BusyKeepsItAlive(cfg, v, events, id, user, login.after, login.at);
    ServedWhileItLives(cfg, Exec(cfg, v, events).value, q, id, user, login.after, LastUnder(events, id, login.at));
  }

  // What one request leaves behind.

  /**
   * The record a request saves: identity and token as the route left them, a fresh token only where there
   * is none, the session it found otherwise unchanged but for its activity, and a login stamped at its end.
   */
  lemma WhatARequestLeaves(cfg: Config, s: Store, q: Request)
    ensures var (after, reply) := Dispatch(cfg, s, q);
            var found := if reply.session.Some? then Some(s.records[reply.session.value]) else None;
            && (q.exempt ==> after == s && reply == Reply(None, None, NoCookie, None))
            && (reply.session.Some? ==>
                  reply.session == q.cookie && reply.session.value in s.records
                  && reply.servedAs == s.records[reply.session.value].user)
            && (reply.session.None? ==> reply.servedAs.None?)
            && (!q.exempt && reply.servedAs.Some? && q.route.user.None? ==>
                  reply.cookie == DeleteCookie && reply.saved.None? && reply.session.value !in after.records
                  && reply.session.value !in Indexed(after, reply.servedAs.value))
            && (!q.exempt && !(reply.servedAs.Some? && q.route.user.None?) ==>
                  && reply.saved.Some?
                  && var logsIn, saved := reply.servedAs.None? && q.route.user.Some?, reply.saved.value;
                  && saved.id == (if reply.session.Some? && !logsIn then reply.session.value else q.newId)
                  && reply.cookie == SetCookie(saved.id)
                  && saved.id in after.records && after.records[saved.id] == saved.record
                  && saved.record.user == q.route.user && saved.record.org == q.route.org
                  && saved.record.csrf == (if q.route.csrf.Some? then q.route.csrf else Some(q.newCsrf))
                  && saved.record.lastActivity == q.at
                  && saved.record.created == (if reply.session.Some? then s.records[reply.session.value].created
                                              else q.at)
                  && saved.record.authenticatedAt == (if logsIn then Some(q.after)
                                                      else if reply.session.Some? then
                                                        s.records[reply.session.value].authenticatedAt
                                                      else None)
                  && (q.route.user.Some? ==> saved.id in Indexed(after, q.route.user.value))
                  && (reply.session.Some? && logsIn && reply.session.value != q.newId ==>
                        reply.session.value !in after.records))
  {
    ResolvingKeeps(cfg, s, q.cookie, q.at);
  }

  /** By code point: the letters, the digits, the hyphen and the underscore of US-ASCII. */
  predicate UrlSafe(c: char) {
    65 <= c as int <= 90 || 97 <= c as int <= 122 || 48 <= c as int <= 57 || c as int == 45 || c as int == 95
  }

  /** An id of 43 url-safe characters, the last of which may be a newline. */
  ghost predicate MayBeAnId(id: Id) {
    && |id| == 43 && (forall i :: 0 <= i < 42 ==> UrlSafe(id[i])) && (UrlSafe(id[42]) || id[42] == '\n')
  }

  /** Identity, organization and login time come together or not at all. */
  predicate Whole(r: Record) {
    r.user.Some? == r.org.Some? == r.authenticatedAt.Some?
  }

  /** Neither timeout has passed; the absolute one runs from the login, or from the creation without one. */
  predicate InTime(cfg: Config, r: Record, now: real) {
    && now - r.lastActivity <= cfg.idle as real
    && now - (if r.authenticatedAt.Some? then r.authenticatedAt.value else r.created) <= cfg.absolute as real
  }

  /**
   * A cookie finds its session exactly if it may be an id and names a whole record in time, and changes
   * nothing then. One that names any other record removes it, and an outdated one of a user also from the
   * user's index.
   */
  lemma FoundExactlyWhen(cfg: Config, s: Store, cookie: Option<Id>, now: real)
    ensures var (after, found) := Resolve(cfg, s, cookie, now);
            var named := cookie.Some? && MayBeAnId(cookie.value) && cookie.value in s.records;
            && (found.Some? <==> named && Whole(s.records[cookie.value]) && InTime(cfg, s.records[cookie.value], now))
            && (found.Some? ==> after == s && found.value == Resolved(cookie.value, s.records[cookie.value]))
            && (!named ==> after == s)
            && (named && found.None? ==>
                  var id, r := cookie.value, s.records[cookie.value];
                  && after.records == s.records - {id}
                  && (if Whole(r) && r.user.Some? && r.user.value != "" && r.user.value in s.index then
                        after.index == s.index[r.user.value := s.index[r.user.value] - {id}]
                      else after.index == s.index))
  {
    assert forall c :: InCharset(c) <==> UrlSafe(c);
  }
}
