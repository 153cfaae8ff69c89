/** The three fixed-window counters behind a login, and what they bound over any sequence of logins. */
module LoginThrottling {
  import opened Basics

  const PREFIX := "rfp:throttle:"

  datatype Entry = Entry(count: nat, expires: real)

  type Counts = map<string, Entry>

  function CountAt(c: Counts, key: string, now: real): nat {
    if key !in c || now >= c[key].expires then 0 else c[key].count
  }

  /** Reading an expired entry deletes it. */
  function AfterRead(c: Counts, key: string, now: real): Counts {
    if key in c && now >= c[key].expires then c - {key} else c
  }

  function AfterHit(c: Counts, key: string, now: real, window: real): Counts {
    if key !in c || now >= c[key].expires then c[key := Entry(1, now + window)]
    else c[key := Entry(c[key].count + 1, c[key].expires)]
  }

  class InMemoryThrottleStore {
    var counts: Counts

    constructor ()
      ensures counts == map[]
    {
      counts := map[];
    }

    method GetCount(key: string, now: real) returns (count: nat)
      modifies this
      ensures count == CountAt(old(counts), key, now)
      ensures counts == AfterRead(old(counts), key, now)
    {
      if key !in counts {
        return 0;
      }
      var entry := counts[key];
      if now >= entry.expires {
        counts := counts - {key};
        return 0;
      }
      return entry.count;
    }

    method Increment(key: string, now: real, window: real) returns (count: nat)
      modifies this
      ensures counts == AfterHit(old(counts), key, now, window)
      ensures count == counts[key].count
    {
      if key !in counts || now >= counts[key].expires {
        count := 1;
        counts := counts[key := Entry(count, now + window)];
      } else {
        count := counts[key].count + 1;
        counts := counts[key := Entry(count, counts[key].expires)];
      }
    }

    method Reset(key: string)
      modifies this
      ensures counts == old(counts) - {key}
    {
      counts := counts - {key};
    }
  }

  datatype Limit = Limit(max: nat, window: real)

  /** `account` is the keyed digest of a normalized email, in hex. */
  datatype Config = Config(account: string -> string, ip: Limit, accountIp: Limit, perAccount: Limit, maxCooldown: nat)

  function IpKey(ip: string): string {
    PREFIX + "ip:" + ip
  }

  function AccountIpKey(cfg: Config, email: string, ip: string): string {
    PREFIX + "acct_ip:" + cfg.account(email) + ":" + ip
  }

  function AccountKey(cfg: Config, email: string): string {
    PREFIX + "acct:" + cfg.account(email)
  }

  datatype Decision = Decision(allowed: bool, retryAfter: Option<nat>, reason: string)

  function Decide(cfg: Config, c: Counts, email: string, ip: string, now: real): Decision {
    if CountAt(c, IpKey(ip), now) >= cfg.ip.max then Decision(false, Some(cfg.maxCooldown), "ip")
    else if CountAt(c, AccountIpKey(cfg, email, ip), now) >= cfg.accountIp.max then
      Decision(false, Some(cfg.maxCooldown), "account_ip")
    else if CountAt(c, AccountKey(cfg, email), now) >= cfg.perAccount.max then
      Decision(false, Some(cfg.maxCooldown), "account")
    else Decision(true, None, "")
  }

  /** A check reads the counters in turn and stops at the first that blocks. */
  function AfterCheck(cfg: Config, c: Counts, email: string, ip: string, now: real): Counts {
    var c1 := AfterRead(c, IpKey(ip), now);
    if CountAt(c, IpKey(ip), now) >= cfg.ip.max then c1
    else
      var c2 := AfterRead(c1, AccountIpKey(cfg, email, ip), now);
      if CountAt(c, AccountIpKey(cfg, email, ip), now) >= cfg.accountIp.max then c2
      else AfterRead(c2, AccountKey(cfg, email), now)
  }

  function AfterFailure(cfg: Config, c: Counts, email: string, ip: string, now: real): Counts {
    var c1 := AfterHit(c, IpKey(ip), now, cfg.ip.window);
    var c2 := AfterHit(c1, AccountIpKey(cfg, email, ip), now, cfg.accountIp.window);
    AfterHit(c2, AccountKey(cfg, email), now, cfg.perAccount.window)
  }

  function AfterSuccess(cfg: Config, c: Counts, email: string, ip: string): Counts {
    c - {AccountIpKey(cfg, email, ip)} - {AccountKey(cfg, email)}
  }

  class Throttle {
    const store: InMemoryThrottleStore
    const cfg: Config

    constructor (store: InMemoryThrottleStore, cfg: Config)
      ensures this.store == store && this.cfg == cfg
    {
      this.store, this.cfg := store, cfg;
    }

    method Check(email: string, ip: string, now: real) returns (decision: Decision)
      modifies store
      ensures decision == Decide(cfg, old(store.counts), email, ip, now)
      ensures store.counts == AfterCheck(cfg, old(store.counts), email, ip, now)
    {
      KeysAreDistinct(cfg, email, ip);
      var byIp := store.GetCount(IpKey(ip), now);
      if byIp >= cfg.ip.max {
        return Decision(false, Some(cfg.maxCooldown), "ip");
      }
      var byAccountIp := store.GetCount(AccountIpKey(cfg, email, ip), now);
      if byAccountIp >= cfg.accountIp.max {
        return Decision(false, Some(cfg.maxCooldown), "account_ip");
      }
      var byAccount := store.GetCount(AccountKey(cfg, email), now);
      if byAccount >= cfg.perAccount.max {
        return Decision(false, Some(cfg.maxCooldown), "account");
      }
      return Decision(true, None, "");
    }

    method RecordFailure(email: string, ip: string, now: real)
      modifies store
      ensures store.counts == AfterFailure(cfg, old(store.counts), email, ip, now)
    {
      var _ := store.Increment(IpKey(ip), now, cfg.ip.window);
      var _ := store.Increment(AccountIpKey(cfg, email, ip), now, cfg.accountIp.window);
      var _ := store.Increment(AccountKey(cfg, email), now, cfg.perAccount.window);
    }

    method RecordSuccess(email: string, ip: string)
      modifies store
      ensures store.counts == AfterSuccess(cfg, old(store.counts), email, ip)
    {
      store.Reset(AccountIpKey(cfg, email, ip));
      store.Reset(AccountKey(cfg, email));
    }

    /** The order in which `login_action` checks, fails and succeeds. */
    method Login(attempt: Attempt) returns (verdict: Verdict)
      modifies store
      ensures (store.counts, verdict) == AfterLogin(cfg, old(store.counts), attempt)
    {
      var decision := Check(attempt.email, attempt.ip, attempt.checkedAt);
      if !decision.allowed {
        return Blocked;
      }
      if !attempt.passwordOk {
        RecordFailure(attempt.email, attempt.ip, attempt.recordedAt);
        return Failed;
      }
      RecordSuccess(attempt.email, attempt.ip);
      return LoggedIn;
    }
  }

  // The keys.

  ghost predicate HexAccounts(cfg: Config) {
    forall email :: ':' !in cfg.account(email)
  }

  lemma KeyText(cfg: Config, email: string, ip: string)
    ensures IpKey(ip)[|PREFIX|..] == "ip:" + ip
    ensures AccountIpKey(cfg, email, ip)[|PREFIX|..] == "acct_ip:" + cfg.account(email) + ":" + ip
    ensures AccountKey(cfg, email)[|PREFIX|..] == "acct:" + cfg.account(email)
  {
  }

  /** The three counters of a login never share a key, whatever the address looks like. */
  lemma KeysAreDistinct(cfg: Config, email: string, ip: string)
    ensures forall other :: IpKey(other) != AccountIpKey(cfg, email, ip) && IpKey(other) != AccountKey(cfg, email)
    ensures forall other :: AccountIpKey(cfg, email, ip) != AccountKey(cfg, other)
  {
    KeyText(cfg, email, ip);
    assert AccountIpKey(cfg, email, ip)[|PREFIX|] == 'a' == AccountKey(cfg, email)[|PREFIX|];
    assert AccountIpKey(cfg, email, ip)[|PREFIX| + 4] == '_';
    forall other ensures IpKey(other)[|PREFIX|] == 'i' {
    }
    forall other ensures AccountKey(cfg, other)[|PREFIX| + 4] == ':' {
    }
  }

  lemma IpKeyIsInjective(a: string, b: string)
    requires IpKey(a) == IpKey(b)
    ensures a == b
  {
    assert IpKey(a)[|PREFIX| + 3..] == a && IpKey(b)[|PREFIX| + 3..] == b;
  }

  /** Different accounts or addresses have different counters, because a hex digest holds no colon. */
  lemma AccountIpKeyIsInjective(cfg: Config, e: string, ip: string, f: string, other: string)
    requires HexAccounts(cfg) && AccountIpKey(cfg, e, ip) == AccountIpKey(cfg, f, other)
    ensures cfg.account(e) == cfg.account(f) && ip == other
  {
    var a, b := cfg.account(e), cfg.account(f);
    var start := |PREFIX| + 8;
    assert AccountIpKey(cfg, e, ip)[start..] == a + ":" + ip && AccountIpKey(cfg, f, other)[start..] == b + ":" + other;
    var text := a + ":" + ip;
    assert text == b + ":" + other;
    assert text[|a|] == ':' && text[|b|] == ':';
    assert forall k :: 0 <= k < |a| ==> text[k] == a[k];
    assert forall k :: 0 <= k < |b| ==> text[k] == b[k];
    assert |a| == |b|;
    assert text[..|a|] == a && text[..|b|] == b && text[|a| + 1..] == ip && text[|b| + 1..] == other;
  }

  // Logins over time.

  /** One login: the clock is read when it is checked and again when its outcome is recorded. */
  datatype Attempt = Attempt(email: string, ip: string, passwordOk: bool, checkedAt: real, recordedAt: real)

  datatype Verdict = Blocked | Failed | LoggedIn

  function AfterLogin(cfg: Config, c: Counts, a: Attempt): (Counts, Verdict) {
    var checked := AfterCheck(cfg, c, a.email, a.ip, a.checkedAt);
    if !Decide(cfg, c, a.email, a.ip, a.checkedAt).allowed then (checked, Blocked)
    else if !a.passwordOk then (AfterFailure(cfg, checked, a.email, a.ip, a.recordedAt), Failed)
    else (AfterSuccess(cfg, checked, a.email, a.ip), LoggedIn)
  }

  /** What a login that was let through left behind, for the theorems. */
  datatype Outcome = Failure(email: string, ip: string, at: real) | Success(email: string, ip: string)

  datatype History = History(counts: Counts, outcomes: seq<Outcome>)

  function Recorded(h: History, a: Attempt, c: Counts, v: Verdict): History {
    History(c, h.outcomes + match v
                            case Blocked => []
                            case Failed => [Failure(a.email, a.ip, a.recordedAt)]
                            case LoggedIn => [Success(a.email, a.ip)])
  }

  /** One login after another, from empty counters. */
  function Run(cfg: Config, attempts: seq<Attempt>): History
    decreases |attempts|
  {
    if attempts == [] then History(map[], [])
    else
      var before, a := Run(cfg, attempts[..|attempts| - 1]), attempts[|attempts| - 1];
      var (c, v) := AfterLogin(cfg, before.counts, a);
      Recorded(before, a, c, v)
  }

  /** Requests run one at a time and the clock does not go back. */
  ghost predicate InOrder(attempts: seq<Attempt>) {
    && (forall i :: 0 <= i < |attempts| ==> attempts[i].checkedAt <= attempts[i].recordedAt)
    && (forall i, j :: 0 <= i < j < |attempts| ==> attempts[i].recordedAt <= attempts[j].checkedAt)
  }

  /** The three kinds of counter. */
  datatype Counter = OfAddress(ip: string) | OfAccountAt(email: string, ip: string) | OfAccount(email: string)

  function Key(cfg: Config, k: Counter): string {
    match k
    case OfAddress(ip) => IpKey(ip)
    case OfAccountAt(email, ip) => AccountIpKey(cfg, email, ip)
    case OfAccount(email) => AccountKey(cfg, email)
  }

  function LimitOf(cfg: Config, k: Counter): Limit {
    match k
    case OfAddress(_) => cfg.ip
    case OfAccountAt(_, _) => cfg.accountIp
    case OfAccount(_) => cfg.perAccount
  }

  /** The counter is one of those of a login. */
  predicate Charges(cfg: Config, k: Counter, email: string, ip: string) {
    match k
    case OfAddress(i) => i == ip
    case OfAccountAt(e, i) => cfg.account(e) == cfg.account(email) && i == ip
    case OfAccount(e) => cfg.account(e) == cfg.account(email)
  }

  /** When failures were recorded for a counter, in order, since a login last cleared it. */
  function TimesOf(cfg: Config, outcomes: seq<Outcome>, k: Counter): seq<real>
    decreases |outcomes|
  {
    if outcomes == [] then []
    else
      var before, last := TimesOf(cfg, outcomes[..|outcomes| - 1], k), outcomes[|outcomes| - 1];
      if !Charges(cfg, k, last.email, last.ip) then before
      else if last.Failure? then before + [last.at]
      else if k.OfAddress? then before
      else []
  }

  // Windows: each is opened by the first failure after the one before it has run out.

  function WindowStart(times: seq<real>, window: real, i: nat): (s: nat)
    requires i < |times|
    ensures s <= i
  {
    if i == 0 then 0
    else
      var before := WindowStart(times, window, i - 1);
      if times[i] >= times[before] + window then i else before
  }

  predicate Sorted(times: seq<real>) {
    forall i, j :: 0 <= i < j < |times| ==> times[i] <= times[j]
  }

  /** No window holds more failures than the limit. */
  predicate WithinLimit(times: seq<real>, limit: Limit) {
    forall i :: 0 <= i < |times| ==> i - WindowStart(times, limit.window, i) < limit.max
  }

  lemma {:induction false} WindowOfPrefix(times: seq<real>, window: real, n: nat, i: nat)
    requires i < n <= |times|
    ensures WindowStart(times[..n], window, i) == WindowStart(times, window, i)
  {
    if i > 0 {
      WindowOfPrefix(times, window, n, i - 1);
    }
  }

  /** Any 2 * max failures in a row span at least a window. */
  lemma LongRunsSpanAWindow(times: seq<real>, limit: Limit, i: nat)
    requires Sorted(times) && WithinLimit(times, limit) && limit.max > 0
    requires i + 2 * limit.max - 1 < |times|
    ensures times[i + 2 * limit.max - 1] >= times[i] + limit.window
  {
    var j := i + 2 * limit.max - 1;
    var last := WindowStart(times, limit.window, j);
    assert last >= i + limit.max;
    StartsAreStarts(times, limit.window, j);
    var before := WindowStart(times, limit.window, last - 1);
    assert before >= i;
    assert times[last] >= times[before] + limit.window;
  }

  lemma {:induction false} StartsAreStarts(times: seq<real>, window: real, i: nat)
    requires i < |times|
    ensures WindowStart(times, window, WindowStart(times, window, i)) == WindowStart(times, window, i)
  {
    if i > 0 {
      StartsAreStarts(times, window, i - 1);
    }
  }
}
