/**
 * What the counters bound over any sequence of logins: failures in a sliding interval, every counter,
 * and how long a block lasts.
 */
module ThrottleBounds {
  import opened Basics
  import opened LoginThrottling

  function At(c: Counts, key: string): Option<Entry> {
    if key in c then Some(c[key]) else None
  }

  function ReadAt(e: Option<Entry>, now: real): Option<Entry> {
    if e.Some? && now >= e.value.expires then None else e
  }

  function HitAt(e: Option<Entry>, now: real, window: real): Entry {
    if ReadAt(e, now).None? then Entry(1, now + window) else Entry(e.value.count + 1, e.value.expires)
  }

  // One counter, one entry.

  /** Only the account-and-address keys are built from two texts. */
  ghost predicate KeyIsSound(cfg: Config, k: Counter) {
    k.OfAccountAt? ==> HexAccounts(cfg)
  }

  lemma SameKeyMeansCharged(cfg: Config, k: Counter, a: Attempt)
    requires KeyIsSound(cfg, k)
    ensures Charges(cfg, k, a.email, a.ip) <==> Key(cfg, k) == Key(cfg, CounterLike(k, a))
  {
    match k
    case OfAddress(ip) => if IpKey(ip) == IpKey(a.ip) { IpKeyIsInjective(ip, a.ip); }
    case OfAccountAt(email, ip) =>
      if AccountIpKey(cfg, email, ip) == AccountIpKey(cfg, a.email, a.ip) {
        AccountIpKeyIsInjective(cfg, email, ip, a.email, a.ip);
      }
    case OfAccount(email) =>
      if AccountKey(cfg, email) == AccountKey(cfg, a.email) { AccountKeyIsInjective(cfg, email, a.email); }
  }

  /** The counter of the same kind that a login has. */
  function CounterLike(k: Counter, a: Attempt): Counter {
    match k
    case OfAddress(_) => OfAddress(a.ip)
    case OfAccountAt(_, _) => OfAccountAt(a.email, a.ip)
    case OfAccount(_) => OfAccount(a.email)
  }

  lemma AccountKeyIsInjective(cfg: Config, e: string, f: string)
    requires AccountKey(cfg, e) == AccountKey(cfg, f)
    ensures cfg.account(e) == cfg.account(f)
  {
    assert AccountKey(cfg, e)[|PREFIX| + 5..] == cfg.account(e) && AccountKey(cfg, f)[|PREFIX| + 5..] == cfg.account(f);
  }

  lemma AllKeysAreDistinct(cfg: Config)
    ensures forall email, ip, other :: IpKey(other) != AccountIpKey(cfg, email, ip)
    ensures forall email, other :: IpKey(other) != AccountKey(cfg, email)
    ensures forall email, ip, other :: AccountIpKey(cfg, email, ip) != AccountKey(cfg, other)
  {
    forall email, ip
      ensures forall other :: IpKey(other) != AccountIpKey(cfg, email, ip) && IpKey(other) != AccountKey(cfg, email)
      ensures forall other :: AccountIpKey(cfg, email, ip) != AccountKey(cfg, other)
    {
      KeysAreDistinct(cfg, email, ip);
    }
    forall email ensures forall other :: IpKey(other) != AccountKey(cfg, email) {
      KeysAreDistinct(cfg, email, "");
    }
  }

  /** A check reads the counters of its login, unless an earlier one blocked, and no others. */
  lemma EntryAfterCheck(cfg: Config, c: Counts, a: Attempt, k: Counter)
    requires KeyIsSound(cfg, k)
    ensures var after := At(AfterCheck(cfg, c, a.email, a.ip, a.checkedAt), Key(cfg, k));
            var entry := At(c, Key(cfg, k));
            && (after == entry || (Charges(cfg, k, a.email, a.ip) && after == ReadAt(entry, a.checkedAt)))
            && (Decide(cfg, c, a.email, a.ip, a.checkedAt).allowed && Charges(cfg, k, a.email, a.ip) ==>
                  && after == ReadAt(entry, a.checkedAt) && LimitOf(cfg, k).max > 0
                  && (after.Some? ==> after.value.count < LimitOf(cfg, k).max))
  {
    SameKeyMeansCharged(cfg, k, a);
    AllKeysAreDistinct(cfg);
  }

  lemma EntryAfterFailure(cfg: Config, c: Counts, a: Attempt, k: Counter)
    requires KeyIsSound(cfg, k)
    ensures At(AfterFailure(cfg, c, a.email, a.ip, a.recordedAt), Key(cfg, k)) ==
            if Charges(cfg, k, a.email, a.ip) then Some(HitAt(At(c, Key(cfg, k)), a.recordedAt, LimitOf(cfg, k).window))
            else At(c, Key(cfg, k))
  {
    SameKeyMeansCharged(cfg, k, a);
    AllKeysAreDistinct(cfg);
  }

  lemma EntryAfterSuccess(cfg: Config, c: Counts, a: Attempt, k: Counter)
    requires KeyIsSound(cfg, k)
    ensures At(AfterSuccess(cfg, c, a.email, a.ip), Key(cfg, k)) ==
            if Charges(cfg, k, a.email, a.ip) && !k.OfAddress? then None else At(c, Key(cfg, k))
  {
    SameKeyMeansCharged(cfg, k, a);
    AllKeysAreDistinct(cfg);
  }

  /** The entry of a counter says how far its current window has come; without one, the last window has run out. */
  ghost predicate Fits(e: Option<Entry>, times: seq<real>, window: real, now: real) {
    && Sorted(times) && (times != [] ==> times[|times| - 1] <= now)
    && match e
       case Some(entry) =>
         && times != []
         && var start := WindowStart(times, window, |times| - 1);
            entry == Entry(|times| - start, times[start] + window)
       case None => times == [] || times[WindowStart(times, window, |times| - 1)] + window <= now
  }

  lemma ReadingFits(e: Option<Entry>, times: seq<real>, window: real, now: real, later: real)
    requires Fits(e, times, window, now) && now <= later
    ensures Fits(ReadAt(e, later), times, window, later)
  {
  }

  lemma AppendedWindow(times: seq<real>, t: real, window: real)
    requires times != []
    ensures var start := WindowStart(times, window, |times| - 1);
            WindowStart(times + [t], window, |times|) == if t >= times[start] + window then |times| else start
  {
    var longer := times + [t];
    assert longer[..|times|] == times;
    WindowOfPrefix(longer, window, |times|, |times| - 1);
  }

  lemma AppendedLimit(times: seq<real>, t: real, limit: Limit)
    requires WithinLimit(times, limit) && |times| - WindowStart(times + [t], limit.window, |times|) < limit.max
    ensures WithinLimit(times + [t], limit)
  {
    var longer := times + [t];
    assert longer[..|times|] == times;
    forall i | 0 <= i < |longer| ensures i - WindowStart(longer, limit.window, i) < limit.max {
      if i < |times| { WindowOfPrefix(longer, limit.window, |times|, i); }
    }
  }

  lemma HittingFits(e: Option<Entry>, times: seq<real>, limit: Limit, now: real, later: real)
    requires Fits(e, times, limit.window, now) && WithinLimit(times, limit) && now <= later
    requires limit.max > 0 && (e.Some? ==> e.value.count < limit.max)
    ensures Fits(Some(HitAt(e, later, limit.window)), times + [later], limit.window, later)
    ensures WithinLimit(times + [later], limit)
  {
    if times != [] {
      AppendedWindow(times, later, limit.window);
    }
    AppendedLimit(times, later, limit);
  }

  ghost predicate CounterInv(cfg: Config, h: History, k: Counter, now: real) {
    && Fits(At(h.counts, Key(cfg, k)), TimesOf(cfg, h.outcomes, k), LimitOf(cfg, k).window, now)
    && WithinLimit(TimesOf(cfg, h.outcomes, k), LimitOf(cfg, k))
  }

  lemma FitsLater(e: Option<Entry>, times: seq<real>, window: real, now: real, later: real)
    requires Fits(e, times, window, now) && now <= later
    ensures Fits(e, times, window, later)
  {
  }

  /** A login charges the counter. */
  lemma ChargedStep(e: Option<Entry>, times: seq<real>, limit: Limit, now: real, a: Attempt)
    requires Fits(e, times, limit.window, now) && WithinLimit(times, limit) && now <= a.checkedAt <= a.recordedAt
    requires var read := ReadAt(e, a.checkedAt); limit.max > 0 && (read.Some? ==> read.value.count < limit.max)
    ensures Fits(Some(HitAt(ReadAt(e, a.checkedAt), a.recordedAt, limit.window)), times + [a.recordedAt], limit.window,
                 a.recordedAt)
    ensures WithinLimit(times + [a.recordedAt], limit)
  {
    ReadingFits(e, times, limit.window, now, a.checkedAt);
    HittingFits(ReadAt(e, a.checkedAt), times, limit, a.checkedAt, a.recordedAt);
  }

  /** A login does not charge it: the entry is read or left alone. */
  lemma UnchargedStep(e: Option<Entry>, after: Option<Entry>, times: seq<real>, limit: Limit, now: real, a: Attempt)
    requires Fits(e, times, limit.window, now) && now <= a.checkedAt <= a.recordedAt
    requires after == e || after == ReadAt(e, a.checkedAt)
    ensures Fits(after, times, limit.window, a.recordedAt)
  {
    ReadingFits(e, times, limit.window, now, a.checkedAt);
    FitsLater(after, times, limit.window, if after == e then now else a.checkedAt, a.recordedAt);
  }

  lemma RecordedTimes(cfg: Config, h: History, a: Attempt, c: Counts, v: Verdict, k: Counter)
    ensures var times := TimesOf(cfg, h.outcomes, k);
            TimesOf(cfg, Recorded(h, a, c, v).outcomes, k) ==
            if v.Blocked? || !Charges(cfg, k, a.email, a.ip) then times
            else if v.Failed? then times + [a.recordedAt]
            else if k.OfAddress? then times else []
  {
    var longer := Recorded(h, a, c, v).outcomes;
    if v.Blocked? {
      assert longer == h.outcomes;
    } else {
      assert longer[..|longer| - 1] == h.outcomes;
    }
  }

  lemma LoginStep(cfg: Config, h: History, a: Attempt, k: Counter, now: real)
    requires KeyIsSound(cfg, k) && CounterInv(cfg, h, k, now) && now <= a.checkedAt <= a.recordedAt
    ensures var (c, v) := AfterLogin(cfg, h.counts, a); CounterInv(cfg, Recorded(h, a, c, v), k, a.recordedAt)
  {
    var (c, v) := AfterLogin(cfg, h.counts, a);
    var checked := AfterCheck(cfg, h.counts, a.email, a.ip, a.checkedAt);
    var entry, times, limit := At(h.counts, Key(cfg, k)), TimesOf(cfg, h.outcomes, k), LimitOf(cfg, k);
    EntryAfterCheck(cfg, h.counts, a, k);
    RecordedTimes(cfg, h, a, c, v, k);
    match v
    case Blocked => UnchargedStep(entry, At(c, Key(cfg, k)), times, limit, now, a);
    case Failed =>
      EntryAfterFailure(cfg, checked, a, k);
      if Charges(cfg, k, a.email, a.ip) {
        ChargedStep(entry, times, limit, now, a);
      } else {
        UnchargedStep(entry, At(c, Key(cfg, k)), times, limit, now, a);
      }
    case LoggedIn =>
      EntryAfterSuccess(cfg, checked, a, k);
      if !Charges(cfg, k, a.email, a.ip) || k.OfAddress? {
        UnchargedStep(entry, At(c, Key(cfg, k)), times, limit, now, a);
      }
  }

  function Clock(attempts: seq<Attempt>): real {
    if attempts == [] then 0.0 else attempts[|attempts| - 1].recordedAt
  }

  lemma {:induction false} CounterAlways(cfg: Config, attempts: seq<Attempt>, k: Counter, now: real)
    requires KeyIsSound(cfg, k) && InOrder(attempts) && (attempts != [] ==> now == Clock(attempts))
    ensures CounterInv(cfg, Run(cfg, attempts), k, now)
    decreases |attempts|
  {
    if attempts != [] {
      var before, a := attempts[..|attempts| - 1], attempts[|attempts| - 1];
      var earlier := if before == [] then a.checkedAt else Clock(before);
      CounterAlways(cfg, before, k, earlier);
      LoginStep(cfg, Run(cfg, before), a, k, earlier);
    }
  }

  // The sliding bound.

  /** Failures at times in [from, to). */
  function CountIn(times: seq<real>, from: real, to: real): nat {
    if times == [] then 0 else (if from <= times[0] < to then 1 else 0) + CountIn(times[1..], from, to)
  }

  function Below(times: seq<real>, t: real): (n: nat)
    ensures n <= |times|
  {
    if times == [] || times[0] >= t then 0 else 1 + Below(times[1..], t)
  }

  lemma {:induction false} BelowSplits(times: seq<real>, t: real)
    requires Sorted(times)
    ensures forall i :: 0 <= i < |times| ==> (i < Below(times, t) <==> times[i] < t)
  {
    if times != [] && times[0] < t {
      BelowSplits(times[1..], t);
      forall i | 0 <= i < |times| ensures i < Below(times, t) <==> times[i] < t {
        if i > 0 { assert times[i] == times[1..][i - 1]; }
      }
    }
  }

  lemma {:induction false} CountIsADifference(times: seq<real>, from: real, to: real)
    requires Sorted(times) && from <= to
    ensures Below(times, from) <= Below(times, to) && CountIn(times, from, to) == Below(times, to) - Below(times, from)
  {
    if times != [] {
      CountIsADifference(times[1..], from, to);
      if times[0] >= from {
        BelowSplits(times[1..], from);
        assert times[1..] != [] ==> times[1..][0] == times[1];
        if times[0] >= to {
          BelowSplits(times[1..], to);
        }
      }
    }
  }

  /** The most failures a window-long interval can hold. */
  function Most(limit: Limit): nat {
    if limit.max == 0 then 0 else 2 * limit.max - 1
  }

  lemma SpacedTimesAreBounded(times: seq<real>, limit: Limit, from: real)
    requires Sorted(times) && WithinLimit(times, limit) && limit.window >= 0.0
    ensures CountIn(times, from, from + limit.window) <= Most(limit)
  {
    var first := if times == [] then 0 else WindowStart(times, limit.window, 0);
    if limit.max > 0 {
      var p, q := Below(times, from), Below(times, from + limit.window);
      CountIsADifference(times, from, from + limit.window);
      BelowSplits(times, from);
      BelowSplits(times, from + limit.window);
      if p + 2 * limit.max - 1 < |times| {
        LongRunsSpanAWindow(times, limit, p);
      }
    }
  }

  /** The times at which failures were recorded for a counter since it was last cleared. */
  function FailuresOf(cfg: Config, attempts: seq<Attempt>, k: Counter): seq<real> {
    TimesOf(cfg, Run(cfg, attempts).outcomes, k)
  }

  lemma FailuresAreSpaced(cfg: Config, attempts: seq<Attempt>, k: Counter)
    requires KeyIsSound(cfg, k) && InOrder(attempts)
    ensures Sorted(FailuresOf(cfg, attempts, k)) && WithinLimit(FailuresOf(cfg, attempts, k), LimitOf(cfg, k))
  {
    CounterAlways(cfg, attempts, k, Clock(attempts));
  }

  /**
   * At most 2 * max - 1 failures of one counter are recorded in any half-open interval as long as its
   * window, and none at all under a limit of 0. Nothing clears the counter of an address.
   */
  lemma SlidingBound(cfg: Config, attempts: seq<Attempt>, k: Counter, from: real)
    requires KeyIsSound(cfg, k) && InOrder(attempts) && LimitOf(cfg, k).window >= 0.0
    ensures CountIn(FailuresOf(cfg, attempts, k), from, from + LimitOf(cfg, k).window) <= Most(LimitOf(cfg, k))
  {
    FailuresAreSpaced(cfg, attempts, k);
    SpacedTimesAreBounded(FailuresOf(cfg, attempts, k), LimitOf(cfg, k), from);
  }

  /** What a counter shows at a time: its failures since its window began, until the window has run out. */
  function InWindow(times: seq<real>, window: real, t: real): int {
    if times == [] then 0
    else
      var start := WindowStart(times, window, |times| - 1);
      if t < times[start] + window then |times| - start else 0
  }

  /** How long a block lasts, exactly, for each kind of counter: blocked tries in between count for nothing. */
  lemma ABlockEndsWithItsWindow(cfg: Config, attempts: seq<Attempt>, k: Counter, t: real)
    requires KeyIsSound(cfg, k) && InOrder(attempts) && (attempts != [] ==> t >= Clock(attempts))
    ensures CountAt(Run(cfg, attempts).counts, Key(cfg, k), t)
            == InWindow(FailuresOf(cfg, attempts, k), LimitOf(cfg, k).window, t)
  {
    var now := if attempts == [] then t else Clock(attempts);
    CounterAlways(cfg, attempts, k, now);
    EntryCounts(Run(cfg, attempts).counts, Key(cfg, k), FailuresOf(cfg, attempts, k), LimitOf(cfg, k).window, now, t);
  }

  lemma EntryCounts(c: Counts, key: string, times: seq<real>, window: real, now: real, t: real)
    requires Fits(At(c, key), times, window, now) && now <= t
    ensures CountAt(c, key, t) == InWindow(times, window, t)
  {
  }

  lemma {:induction false} TimesAreFailures(cfg: Config, outcomes: seq<Outcome>, k: Counter, j: nat) returns (i: nat)
    requires j < |TimesOf(cfg, outcomes, k)|
    ensures i < |outcomes| && outcomes[i].Failure? && Charges(cfg, k, outcomes[i].email, outcomes[i].ip)
    ensures outcomes[i].at == TimesOf(cfg, outcomes, k)[j]
    decreases |outcomes|
  {
    var shorter := outcomes[..|outcomes| - 1];
    if j < |TimesOf(cfg, shorter, k)| && TimesOf(cfg, shorter, k)[j] == TimesOf(cfg, outcomes, k)[j] {
      i := TimesAreFailures(cfg, shorter, k, j);
    } else {
      i := |outcomes| - 1;
    }
  }

  /** A counter that shows anything at all owes it to a recorded failure not a window old. */
  lemma ACountHasItsFailure(cfg: Config, attempts: seq<Attempt>, k: Counter, t: real) returns (i: nat)
    requires KeyIsSound(cfg, k) && InOrder(attempts) && (attempts != [] ==> t >= Clock(attempts))
    requires CountAt(Run(cfg, attempts).counts, Key(cfg, k), t) > 0
    ensures var outcomes := Run(cfg, attempts).outcomes;
            && i < |outcomes| && outcomes[i].Failure? && Charges(cfg, k, outcomes[i].email, outcomes[i].ip)
            && outcomes[i].at <= t < outcomes[i].at + LimitOf(cfg, k).window
  {
    var times, window := FailuresOf(cfg, attempts, k), LimitOf(cfg, k).window;
    ABlockEndsWithItsWindow(cfg, attempts, k, t);
    CounterAlways(cfg, attempts, k, Clock(attempts));
    i := TimesAreFailures(cfg, Run(cfg, attempts).outcomes, k, WindowStart(times, window, |times| - 1));
  }

  /** A counter has reached its limit within its current window. */
  predicate Full(cfg: Config, attempts: seq<Attempt>, k: Counter, t: real) {
    InWindow(FailuresOf(cfg, attempts, k), LimitOf(cfg, k).window, t) >= LimitOf(cfg, k).max
  }

  /** After any logins, a login is refused if and only if one of its three counters is full. */
  lemma RefusedExactlyWhenFull(cfg: Config, attempts: seq<Attempt>, email: string, ip: string, t: real)
    requires HexAccounts(cfg) && InOrder(attempts) && (attempts != [] ==> t >= Clock(attempts))
    ensures !Decide(cfg, Run(cfg, attempts).counts, email, ip, t).allowed <==>
            || Full(cfg, attempts, OfAddress(ip), t)
            || Full(cfg, attempts, OfAccountAt(email, ip), t)
            || Full(cfg, attempts, OfAccount(email), t)
  {
    ABlockEndsWithItsWindow(cfg, attempts, OfAddress(ip), t);
    ABlockEndsWithItsWindow(cfg, attempts, OfAccountAt(email, ip), t);
    ABlockEndsWithItsWindow(cfg, attempts, OfAccount(email), t);
  }

  /** A refusal names the first full counter, of the address, the account there, or the account, and the cooldown. */
  lemma RefusedForTheFirstFull(cfg: Config, attempts: seq<Attempt>, email: string, ip: string, t: real)
    requires HexAccounts(cfg) && InOrder(attempts) && (attempts != [] ==> t >= Clock(attempts))
    ensures var decision := Decide(cfg, Run(cfg, attempts).counts, email, ip, t);
            var h := [ Hurdle(!Full(cfg, attempts, OfAddress(ip), t), "ip"),
                       Hurdle(!Full(cfg, attempts, OfAccountAt(email, ip), t), "account_ip"),
                       Hurdle(!Full(cfg, attempts, OfAccount(email), t), "account")];
            && (decision.allowed <==> AllCleared(h)) && (decision.allowed ==> decision.retryAfter == None)
            && forall k: nat :: FirstMissed(h, k) ==> decision == Decision(false, Some(cfg.maxCooldown), h[k].code)
  {
    var h := [ Hurdle(!Full(cfg, attempts, OfAddress(ip), t), "ip"),
               Hurdle(!Full(cfg, attempts, OfAccountAt(email, ip), t), "account_ip"),
               Hurdle(!Full(cfg, attempts, OfAccount(email), t), "account")];
    ABlockEndsWithItsWindow(cfg, attempts, OfAddress(ip), t);
    ABlockEndsWithItsWindow(cfg, attempts, OfAccountAt(email, ip), t);
    ABlockEndsWithItsWindow(cfg, attempts, OfAccount(email), t);
    assert AllCleared(h) ==> h[0].cleared && h[1].cleared && h[2].cleared;
    forall k: nat | FirstMissed(h, k)
      ensures Decide(cfg, Run(cfg, attempts).counts, email, ip, t) == Decision(false, Some(cfg.maxCooldown), h[k].code)
    {
      assert (k > 0 ==> h[0].cleared) && (k > 1 ==> h[1].cleared);
    }
  }

  /** Being blocked again prolongs nothing: a refused try leaves what every later login sees as it was. */
  lemma BlockedTriesChangeNothing(cfg: Config, c: Counts, a: Attempt, key: string, t: real)
    requires AfterLogin(cfg, c, a).1.Blocked? && t >= a.checkedAt
    ensures CountAt(AfterLogin(cfg, c, a).0, key, t) == CountAt(c, key, t)
  {
  }

  // Every counter.

  ghost predicate Bounded(cfg: Config, c: Counts) {
    && (forall ip :: IpKey(ip) in c ==> c[IpKey(ip)].count <= cfg.ip.max)
    && (forall email, ip :: AccountIpKey(cfg, email, ip) in c ==>
          c[AccountIpKey(cfg, email, ip)].count <= cfg.accountIp.max)
    && (forall email :: AccountKey(cfg, email) in c ==> c[AccountKey(cfg, email)].count <= cfg.perAccount.max)
  }

  /** Reading only takes expired entries away. */
  lemma CheckTakesAway(cfg: Config, c: Counts, a: Attempt)
    ensures var after := AfterCheck(cfg, c, a.email, a.ip, a.checkedAt);
            && (forall k :: k in after ==> k in c && after[k] == c[k])
            && (Decide(cfg, c, a.email, a.ip, a.checkedAt).allowed ==>
                  && (IpKey(a.ip) in after ==> after[IpKey(a.ip)].count < cfg.ip.max)
                  && (AccountIpKey(cfg, a.email, a.ip) in after ==>
                        after[AccountIpKey(cfg, a.email, a.ip)].count < cfg.accountIp.max)
                  && (AccountKey(cfg, a.email) in after ==> after[AccountKey(cfg, a.email)].count < cfg.perAccount.max)
                  && cfg.ip.max > 0 && cfg.accountIp.max > 0 && cfg.perAccount.max > 0)
  {
    AllKeysAreDistinct(cfg);
  }

  lemma FailureStaysBounded(cfg: Config, c: Counts, a: Attempt)
    requires Bounded(cfg, c) && cfg.ip.max > 0 && cfg.accountIp.max > 0 && cfg.perAccount.max > 0
    requires IpKey(a.ip) in c ==> c[IpKey(a.ip)].count < cfg.ip.max
    requires AccountIpKey(cfg, a.email, a.ip) in c ==> c[AccountIpKey(cfg, a.email, a.ip)].count < cfg.accountIp.max
    requires AccountKey(cfg, a.email) in c ==> c[AccountKey(cfg, a.email)].count < cfg.perAccount.max
    ensures Bounded(cfg, AfterFailure(cfg, c, a.email, a.ip, a.recordedAt))
  {
    AllKeysAreDistinct(cfg);
  }

  /** No counter of any kind ever passes its limit, because every recorded failure follows an allowed check. */
  lemma {:induction false} NoCounterPassesItsLimit(cfg: Config, attempts: seq<Attempt>)
    ensures Bounded(cfg, Run(cfg, attempts).counts)
    decreases |attempts|
  {
    if attempts != [] {
      var a := attempts[|attempts| - 1];
      var c := Run(cfg, attempts[..|attempts| - 1]).counts;
      NoCounterPassesItsLimit(cfg, attempts[..|attempts| - 1]);
      LoginStaysBounded(cfg, c, a);
    }
  }

  lemma LoginStaysBounded(cfg: Config, c: Counts, a: Attempt)
    requires Bounded(cfg, c)
    ensures Bounded(cfg, AfterLogin(cfg, c, a).0)
  {
    CheckTakesAway(cfg, c, a);
    if AfterLogin(cfg, c, a).1.Failed? {
      FailureStaysBounded(cfg, AfterCheck(cfg, c, a.email, a.ip, a.checkedAt), a);
    }
  }

  // Nothing stronger holds.

  /** A spray from one address: every try fails, each against an account of its own. */
  function Spray(ip: string, email: nat -> string, times: seq<real>): seq<Attempt> {
    seq(|times|, i requires 0 <= i < |times| => Attempt(email(i), ip, false, times[i], times[i]))
  }

  /** The first `n` accounts have digests of their own. */
  ghost predicate AllDifferent(cfg: Config, email: nat -> string, n: nat) {
    forall i, j :: 0 <= i < j < n ==> cfg.account(email(i)) != cfg.account(email(j))
  }

  /** From account `from` up to account `n` no counter exists. */
  ghost predicate Unseen(cfg: Config, c: Counts, ip: string, email: nat -> string, from: nat, n: nat) {
    forall i :: from <= i < n ==> AccountIpKey(cfg, email(i), ip) !in c && AccountKey(cfg, email(i)) !in c
  }

  lemma OthersStayUnseen(cfg: Config, c: Counts, a: Attempt, ip: string, email: nat -> string, i: nat,
                         n: nat)
    requires HexAccounts(cfg) && AllDifferent(cfg, email, n) && Unseen(cfg, c, ip, email, i, n) && i < n
    requires a.email == email(i) && a.ip == ip
    ensures Unseen(cfg, AfterLogin(cfg, c, a).0, ip, email, i + 1, n)
  {
    CheckTakesAway(cfg, c, a);
    AllKeysAreDistinct(cfg);
    forall j | i + 1 <= j < n
      ensures AccountIpKey(cfg, email(j), ip) !in AfterLogin(cfg, c, a).0
      ensures AccountKey(cfg, email(j)) !in AfterLogin(cfg, c, a).0
    {
      if AccountIpKey(cfg, email(j), ip) == AccountIpKey(cfg, email(i), ip) {
        AccountIpKeyIsInjective(cfg, email(j), ip, email(i), ip);
      }
      if AccountKey(cfg, email(j)) == AccountKey(cfg, email(i)) { AccountKeyIsInjective(cfg, email(j), email(i)); }
    }
  }

  lemma SprayAppends(ip: string, email: nat -> string, times: seq<real>, t: real)
    ensures Spray(ip, email, times + [t]) == Spray(ip, email, times) + [Attempt(email(|times|), ip, false, t, t)]
  {
  }

  lemma RunAppends(cfg: Config, before: seq<Attempt>, a: Attempt)
    ensures var (c, v) := AfterLogin(cfg, Run(cfg, before).counts, a);
            Run(cfg, before + [a]) == Recorded(Run(cfg, before), a, c, v)
  {
    assert (before + [a])[..|before|] == before;
  }

  lemma RoomForOneMore(e: Option<Entry>, times: seq<real>, limit: Limit, t: real)
    requires Fits(e, times, limit.window, t) && WithinLimit(times + [t], limit)
    ensures limit.max > 0 && (ReadAt(e, t).Some? ==> e.value.count < limit.max)
  {
    var longer := times + [t];
    assert |times| - WindowStart(longer, limit.window, |times|) < limit.max;
    if times != [] {
      AppendedWindow(times, t, limit.window);
    }
  }

  ghost predicate CanSpray(cfg: Config, email: nat -> string, n: nat) {
    HexAccounts(cfg) && AllDifferent(cfg, email, n) && cfg.accountIp.max > 0 && cfg.perAccount.max > 0
  }

  ghost predicate Sprayed(cfg: Config, h: History, ip: string, email: nat -> string, n: nat, times: seq<real>) {
    TimesOf(cfg, h.outcomes, OfAddress(ip)) == times && Unseen(cfg, h.counts, ip, email, |times|, n)
  }

  lemma {:induction false} SprayGoesThrough(cfg: Config, ip: string, email: nat -> string, times: seq<real>, n: nat)
    requires CanSpray(cfg, email, |times|) && Sorted(times) && WithinLimit(times, cfg.ip) && n <= |times|
    ensures Sprayed(cfg, Run(cfg, Spray(ip, email, times[..n])), ip, email, |times|, times[..n])
  {
    if n > 0 {
      var shorter, t := times[..n - 1], times[n - 1];
      SprayGoesThrough(cfg, ip, email, times, n - 1);
      assert times[..n] == shorter + [t];
      LimitOfPrefix(times, cfg.ip, n);
      SprayStep(cfg, ip, email, |times|, shorter, t);
    }
  }

  lemma SprayStep(cfg: Config, ip: string, email: nat -> string, n: nat, times: seq<real>, t: real)
    requires CanSpray(cfg, email, n) && |times| < n && Sorted(times + [t]) && WithinLimit(times + [t], cfg.ip)
    requires Sprayed(cfg, Run(cfg, Spray(ip, email, times)), ip, email, n, times)
    ensures Sprayed(cfg, Run(cfg, Spray(ip, email, times + [t])), ip, email, n, times + [t])
  {
    var before := Spray(ip, email, times);
    var now := if times == [] then t else times[|times| - 1];
    assert times != [] ==> (times + [t])[|times| - 1] <= (times + [t])[|times|];
    assert Sorted(times) by {
      forall i, j | 0 <= i < j < |times| ensures times[i] <= times[j] {
        assert (times + [t])[i] <= (times + [t])[j];
      }
    }
    SprayIsInOrder(ip, email, times);
    CounterAlways(cfg, before, OfAddress(ip), now);
    OneMoreTry(cfg, Run(cfg, before), ip, email, n, times, t, now);
    SprayAppends(ip, email, times, t);
    RunAppends(cfg, before, Attempt(email(|times|), ip, false, t, t));
  }

  lemma SprayIsInOrder(ip: string, email: nat -> string, times: seq<real>)
    requires Sorted(times)
    ensures InOrder(Spray(ip, email, times))
  {
  }

  lemma LimitOfPrefix(times: seq<real>, limit: Limit, n: nat)
    requires n <= |times| && WithinLimit(times, limit)
    ensures WithinLimit(times[..n], limit)
  {
    forall i | 0 <= i < n ensures i - WindowStart(times[..n], limit.window, i) < limit.max {
      WindowOfPrefix(times, limit.window, n, i);
    }
  }

  lemma OneMoreTry(cfg: Config, h: History, ip: string, email: nat -> string, n: nat, times: seq<real>, t: real,
                   now: real)
    requires CanSpray(cfg, email, n) && |times| < n && CounterInv(cfg, h, OfAddress(ip), now) && now <= t
    requires Sprayed(cfg, h, ip, email, n, times) && WithinLimit(times + [t], cfg.ip)
    ensures var a := Attempt(email(|times|), ip, false, t, t);
            var (c, v) := AfterLogin(cfg, h.counts, a);
            v.Failed? && Sprayed(cfg, Recorded(h, a, c, v), ip, email, n, times + [t])
  {
    var a := Attempt(email(|times|), ip, false, t, t);
    var (c, v) := AfterLogin(cfg, h.counts, a);
    FitsLater(At(h.counts, IpKey(ip)), times, cfg.ip.window, now, t);
    RoomForOneMore(At(h.counts, IpKey(ip)), times, cfg.ip, t);
    RecordedTimes(cfg, h, a, c, v, OfAddress(ip));
    OthersStayUnseen(cfg, h.counts, a, ip, email, |times|, n);
  }

  /**
   * Exactly which failures one address can leave: a run of times can be recorded for it if and only if
   * no window, begun by the first failure after the one before ran out, holds more than the limit. Each
   * try is on an account of its own.
   */
  lemma RecordableExactlyWhenWithinTheLimit(cfg: Config, ip: string, email: nat -> string, times: seq<real>)
    requires CanSpray(cfg, email, |times|)
    ensures (exists attempts :: InOrder(attempts) && FailuresOf(cfg, attempts, OfAddress(ip)) == times)
            <==> Sorted(times) && WithinLimit(times, cfg.ip)
  {
    if Sorted(times) && WithinLimit(times, cfg.ip) {
      SprayGoesThrough(cfg, ip, email, times, |times|);
      SprayIsInOrder(ip, email, times);
      assert times[..|times|] == times;
    }
    if exists attempts :: InOrder(attempts) && FailuresOf(cfg, attempts, OfAddress(ip)) == times {
      var attempts :| InOrder(attempts) && FailuresOf(cfg, attempts, OfAddress(ip)) == times;
      FailuresAreSpaced(cfg, attempts, OfAddress(ip));
    }
  }

  /** One failure, then the rest of the limit late in its window, then a full window at once. */
  function Crowded(limit: Limit): seq<real>
    requires limit.max > 0
  {
    seq(2 * limit.max, i requires 0 <= i < 2 * limit.max =>
      if i == 0 then 0.0 else if i < limit.max then limit.window / 2.0 else limit.window)
  }

  lemma {:induction false} CrowdedWindows(limit: Limit, i: nat)
    requires limit.max > 0 && limit.window > 0.0 && i < 2 * limit.max
    ensures WindowStart(Crowded(limit), limit.window, i) == if i < limit.max then 0 else limit.max
  {
    if i > 0 {
      CrowdedWindows(limit, i - 1);
    }
  }

  lemma {:induction false} CountOfAll(times: seq<real>, from: real, to: real)
    requires forall i :: 0 <= i < |times| ==> from <= times[i] < to
    ensures CountIn(times, from, to) == |times|
  {
    if times != [] {
      CountOfAll(times[1..], from, to);
    }
  }

  /** The sliding bound is met: 2 * max - 1 recordable failures lie within half a window and a window and a half. */
  lemma TheSlidingBoundIsTight(limit: Limit)
    requires limit.max > 0 && limit.window > 0.0
    ensures Sorted(Crowded(limit)) && WithinLimit(Crowded(limit), limit)
    ensures CountIn(Crowded(limit), limit.window / 2.0, limit.window / 2.0 + limit.window) == Most(limit)
  {
    var times := Crowded(limit);
    forall i | 0 <= i < |times| ensures i - WindowStart(times, limit.window, i) < limit.max {
      CrowdedWindows(limit, i);
    }
    CountOfAll(times[1..], limit.window / 2.0, limit.window / 2.0 + limit.window);
  }
}
