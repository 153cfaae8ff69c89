/**
 * Server-side sessions: the store with its user index, and how the middleware resolves, rotates, saves
 * and ends a session around one request.
 */
module Sessions {
  import opened Basics

  const ID_LENGTH := 43

  type Id = string

  datatype Record = Record(created: real, lastActivity: real, csrf: Option<string>, user: Option<string>,
                           org: Option<string>, authenticatedAt: Option<real>)

  /** A stored record is read back only if its identity fields are set together. */
  predicate WellFormed(r: Record) {
    (r.user.Some? && r.org.Some? && r.authenticatedAt.Some?) || (r.user.None? && r.org.None? && r.authenticatedAt.None?)
  }

  datatype Store = Store(records: map<Id, Record>, index: map<string, set<Id>>)

  function Indexed(s: Store, user: string): set<Id> {
    if user in s.index then s.index[user] else {}
  }

  /** A malformed record is deleted by reading it. */
  function Read(s: Store, id: Id): (Store, Option<Record>) {
    if id !in s.records then (s, None)
    else if !WellFormed(s.records[id]) then (Delete(s, id), None)
    else (s, Some(s.records[id]))
  }

  function Save(s: Store, id: Id, r: Record, ttl: int): Store {
    if ttl <= 0 then Delete(s, id) else s.(records := s.records[id := r])
  }

  function Delete(s: Store, id: Id): Store {
    s.(records := s.records - {id})
  }

  function Register(s: Store, user: string, id: Id): Store {
    s.(index := s.index[user := Indexed(s, user) + {id}])
  }

  function Unregister(s: Store, user: string, id: Id): Store {
    if user in s.index then s.(index := s.index[user := s.index[user] - {id}]) else s
  }

  function RevokeAll(s: Store, user: string): Store {
    Store(s.records - Indexed(s, user), s.index - {user})
  }

  class InMemorySessionStore {
    var records: map<Id, Record>
    var index: map<string, set<Id>>

    ghost function State(): Store
      reads this
    {
      Store(records, index)
    }

    constructor ()
      ensures State() == Store(map[], map[])
    {
      records, index := map[], map[];
    }

    method Get(id: Id) returns (record: Option<Record>)
      modifies this
      ensures (State(), record) == Read(old(State()), id)
    {
      if id !in records {
        return None;
      }
      var stored := records[id];
      if !WellFormed(stored) {
        records := records - {id};
        return None;
      }
      return Some(stored);
    }

    method Put(id: Id, record: Record, ttl: int)
      modifies this
      ensures State() == Save(old(State()), id, record, ttl)
    {
      if ttl <= 0 {
        records := records - {id};
        return;
      }
      records := records[id := record];
    }

    method Remove(id: Id)
      modifies this
      ensures State() == Delete(old(State()), id)
    {
      records := records - {id};
    }

    method RegisterForUser(user: string, id: Id)
      modifies this
      ensures State() == Register(old(State()), user, id)
    {
      if user !in index {
        index := index[user := {}];
      }
      index := index[user := index[user] + {id}];
      assert index == old(index)[user := Indexed(old(State()), user) + {id}];
    }

    method UnregisterForUser(user: string, id: Id)
      modifies this
      ensures State() == Unregister(old(State()), user, id)
    {
      if user in index {
        index := index[user := index[user] - {id}];
      }
    }

    /** `dict.pop` with a default. */
    method Pop(id: Id) returns (present: bool)
      modifies this`records
      ensures present == (id in old(records))
      ensures records == old(records) - {id}
    {
      present := id in records;
      records := records - {id};
    }

    /** Removes every indexed record and counts those that were still stored. */
    method RevokeAllForUser(user: string) returns (count: nat)
      modifies this
      ensures State() == RevokeAll(old(State()), user)
      ensures count == StillStored(Indexed(old(State()), user), old(records).Keys)
    {
      var members := if user in index then index[user] else {};
      index := index - {user};
      count := PopAll(members);
    }

    method PopAll(members: set<Id>) returns (count: nat)
      modifies this`records
      ensures records == old(records) - members
      ensures count == StillStored(members, old(records).Keys)
    {
      count := 0;
      var remaining := members;
      ghost var done: set<Id> := {};
      while remaining != {}
        invariant done + remaining == members && done !! remaining
        invariant records == old(records) - done
        invariant count == StillStored(done, old(records).Keys)
        decreases remaining
      {
        var id :| id in remaining;
        OneMoreDone(done, id, old(records).Keys);
        var present := Pop(id);
        if present {
          count := count + 1;
        }
        remaining := remaining - {id};
        done := done + {id};
      }
      assert done == members;
    }
  }

  function StillStored(ids: set<Id>, keys: set<Id>): nat {
    |ids * keys|
  }

  lemma OneMoreDone(done: set<Id>, id: Id, keys: set<Id>)
    requires id !in done
    ensures StillStored(done + {id}, keys) == StillStored(done, keys) + if id in keys then 1 else 0
  {
    if id in keys {
      assert (done + {id}) * keys == done * keys + {id};
    } else {
      assert (done + {id}) * keys == done * keys;
    }
  }

  // One request.

  datatype Config = Config(idle: int, absolute: int)

  predicate InCharset(c: char) {
    'A' <= c <= 'Z' || 'a' <= c <= 'z' || '0' <= c <= '9' || c == '_' || c == '-'
  }

  /** The pattern ends in `$`, which also accepts a newline in the last place. */
  predicate IsValidId(id: Id) {
    && |id| == ID_LENGTH && (forall i :: 0 <= i < ID_LENGTH - 1 ==> InCharset(id[i]))
    && (InCharset(id[ID_LENGTH - 1]) || id[ID_LENGTH - 1] == '\n')
  }

  function Anchor(r: Record): real {
    if r.authenticatedAt.Some? then r.authenticatedAt.value else r.created
  }

  predicate IdleExpired(cfg: Config, r: Record, now: real) {
    now - r.lastActivity > cfg.idle as real
  }

  predicate AbsoluteExpired(cfg: Config, r: Record, now: real) {
    now - Anchor(r) > cfg.absolute as real
  }

  predicate Expired(cfg: Config, r: Record, now: real) {
    IdleExpired(cfg, r, now) || AbsoluteExpired(cfg, r, now)
  }

  /** What the route leaves in the session mapping: its three keys. */
  datatype Left = Left(user: Option<string>, org: Option<string>, csrf: Option<string>)

  /**
   * A request: its cookie, when it is resolved and when it is saved, what the route does, and the random
   * values drawn for it.
   */
  datatype Request = Request(exempt: bool, cookie: Option<Id>, at: real, after: real, route: Left, newId: Id,
                             newCsrf: string)

  datatype Cookie = NoCookie | SetCookie(id: Id) | DeleteCookie

  datatype Saved = Saved(id: Id, record: Record, ttl: int)

  /** Who the route saw, under which session, and what came of it. */
  datatype Reply = Reply(session: Option<Id>, servedAs: Option<string>, cookie: Cookie, saved: Option<Saved>)

  datatype Resolved = Resolved(id: Id, record: Record)

  /** Which session a cookie names at this moment; an expired one is ended on the way. */
  function Resolve(cfg: Config, s: Store, cookie: Option<Id>, now: real): (Store, Option<Resolved>) {
    if cookie.None? || !IsValidId(cookie.value) then (s, None)
    else
      var id := cookie.value;
      var (read, record) := Read(s, id);
      if record.None? then (read, None)
      else if Expired(cfg, record.value, now) then
        var deleted := Delete(read, id);
        var bound := record.value.user.Some? && record.value.user.value != "";
        (if bound then Unregister(deleted, record.value.user.value, id) else deleted, None)
      else (read, Some(Resolved(id, record.value)))
  }

  function Trunc(x: real): int {
    if x >= 0.0 then x.Floor else -((-x).Floor)
  }

  function Ttl(cfg: Config, r: Record, after: real): int {
    Max(1, Min(cfg.idle, Trunc(cfg.absolute as real - (after - Anchor(r)))))
  }

  /** The record once the route is done with it. */
  function Touched(found: Option<Resolved>, q: Request): Record {
    var base := if found.Some? then found.value.record.(lastActivity := q.at) else Record(q.at, q.at, None, None, None,
                                                                                          None);
    base.(user := q.route.user, org := q.route.org,
          csrf := if q.route.csrf.Some? then q.route.csrf else Some(q.newCsrf))
  }

  function UserOf(found: Option<Resolved>): Option<string> {
    if found.Some? then found.value.record.user else None
  }

  function EndSession(s: Store, found: Option<Resolved>): Store
    requires UserOf(found).Some?
  {
    Unregister(Delete(s, found.value.id), found.value.record.user.value, found.value.id)
  }

  function StartSession(cfg: Config, s: Store, found: Option<Resolved>, r: Record, q: Request): (Store, Saved)
    requires r.user.Some?
  {
    var cleared := if found.Some? then Delete(s, found.value.id) else s;
    var stamped := r.(authenticatedAt := Some(q.after));
    var ttl := Max(1, Min(cfg.idle, cfg.absolute));
    (Register(Save(cleared, q.newId, stamped, ttl), r.user.value, q.newId), Saved(q.newId, stamped, ttl))
  }

  function KeepSession(cfg: Config, s: Store, found: Option<Resolved>, r: Record, q: Request): (Store, Saved) {
    var id := if found.Some? then found.value.id else q.newId;
    var ttl := Ttl(cfg, r, q.after);
    var saved := Save(s, id, r, ttl);
    (if r.user.Some? then Register(saved, r.user.value, id) else saved, Saved(id, r, ttl))
  }

  /** `ServerSessionMiddleware.dispatch`. */
  function Dispatch(cfg: Config, s: Store, q: Request): (Store, Reply) {
    if q.exempt then (s, Reply(None, None, NoCookie, None))
    else
      var (resolved, found) := Resolve(cfg, s, q.cookie, q.at);
      var session := if found.Some? then Some(found.value.id) else None;
      var before := UserOf(found);
      var r := Touched(found, q);
      if before.Some? && r.user.None? then (EndSession(resolved, found), Reply(session, before, DeleteCookie, None))
      else if before.None? && r.user.Some? then
        var (after, saved) := StartSession(cfg, resolved, found, r, q);
        (after, Reply(session, before, SetCookie(saved.id), Some(saved)))
      else
        var (after, saved) := KeepSession(cfg, resolved, found, r, q);
        (after, Reply(session, before, SetCookie(saved.id), Some(saved)))
  }

  class Middleware {
    const store: InMemorySessionStore
    const cfg: Config

    constructor (store: InMemorySessionStore, cfg: Config)
      ensures this.store == store && this.cfg == cfg
    {
      this.store, this.cfg := store, cfg;
    }

    method ResolveCookie(cookie: Option<Id>, now: real) returns (found: Option<Resolved>)
      modifies store
      ensures (store.State(), found) == Resolve(cfg, old(store.State()), cookie, now)
    {
      if cookie.None? || !IsValidId(cookie.value) {
        return None;
      }
      var id := cookie.value;
      var record := store.Get(id);
      if record.None? {
        return None;
      }
      var idleExpired := now - record.value.lastActivity > cfg.idle as real;
      var absoluteExpired := now - Anchor(record.value) > cfg.absolute as real;
      if idleExpired || absoluteExpired {
        store.Remove(id);
        if record.value.user.Some? && record.value.user.value != "" {
          store.UnregisterForUser(record.value.user.value, id);
        }
        return None;
      }
      return Some(Resolved(id, record.value));
    }

    method Handle(q: Request) returns (reply: Reply)
      modifies store
      ensures (store.State(), reply) == Dispatch(cfg, old(store.State()), q)
    {
      if q.exempt {
        return Reply(None, None, NoCookie, None);
      }
      var found := ResolveCookie(q.cookie, q.at);
      var session := if found.Some? then Some(found.value.id) else None;
      var before := if found.Some? then found.value.record.user else None;
      var record := if found.Some? then found.value.record.(lastActivity := q.at) else Record(q.at, q.at, None, None,
                                                                                              None, None);
      record := record.(user := q.route.user, org := q.route.org, csrf := q.route.csrf);
      if record.csrf.None? {
        record := record.(csrf := Some(q.newCsrf));
      }
      assert record == Touched(found, q);
      var becameAuthenticated := before.None? && record.user.Some?;
      var becameUnauthenticated := before.Some? && record.user.None?;
      if becameUnauthenticated {
        store.Remove(session.value);
        store.UnregisterForUser(before.value, session.value);
        return Reply(session, before, DeleteCookie, None);
      }
      if becameAuthenticated {
        if session.Some? {
          store.Remove(session.value);
        }
        record := record.(authenticatedAt := Some(q.after));
        var ttl := Max(1, Min(cfg.idle, cfg.absolute));
        store.Put(q.newId, record, ttl);
        store.RegisterForUser(record.user.value, q.newId);
        return Reply(session, before, SetCookie(q.newId), Some(Saved(q.newId, record, ttl)));
      }
      var id := if session.Some? then session.value else q.newId;
      var remaining := cfg.absolute as real - (q.after - Anchor(record));
      var ttl := Max(1, Min(cfg.idle, Trunc(remaining)));
      store.Put(id, record, ttl);
      if record.user.Some? {
        store.RegisterForUser(record.user.value, id);
      }
      return Reply(session, before, SetCookie(id), Some(Saved(id, record, ttl)));
    }
  }
}
