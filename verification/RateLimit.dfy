/** The sliding-window log of `RateLimitMiddleware.dispatch` (middleware/rate_limit.py). */
module RateLimit {
  import opened Wrappers

  datatype Config = Config(max: nat, window: real)
  datatype Client = Client(ip: string, path: string)

  /** The two tables of limited paths: exact ones, and prefixes in order. */
  datatype Limits = Limits(paths: map<string, Config>, prefixes: seq<(string, Config)>)

  ghost predicate Sound(limits: Limits) {
    && (forall p :: p in limits.paths ==> limits.paths[p].max >= 1 && limits.paths[p].window > 0.0)
    && (forall i :: 0 <= i < |limits.prefixes| ==> limits.prefixes[i].1.max >= 1 && limits.prefixes[i].1.window > 0.0)
  }

  /** The first prefix that fits. */
  function PrefixConfig(prefixes: seq<(string, Config)>, path: string): Option<Config> {
    if prefixes == [] then None
    else if prefixes[0].0 <= path then Some(prefixes[0].1)
    else PrefixConfig(prefixes[1..], path)
  }

  function ConfigFor(limits: Limits, path: string): Option<Config> {
    if path in limits.paths then Some(limits.paths[path]) else PrefixConfig(limits.prefixes, path)
  }

  lemma {:induction false} ConfigIsSound(limits: Limits, path: string)
    requires Sound(limits)
    ensures ConfigFor(limits, path).Some? ==> ConfigFor(limits, path).value.max >= 1 && ConfigFor(limits, path).value.window > 0.0
    decreases |limits.prefixes|
  {
    if path !in limits.paths && limits.prefixes != [] {
      ConfigIsSound(Limits(limits.paths, limits.prefixes[1..]), path);
    }
  }

  /** A path of the exact table has its own limit; any other the one of the first prefix it starts with. */
  lemma {:induction false} LimitOf(limits: Limits, path: string)
    ensures path in limits.paths ==> ConfigFor(limits, path) == Some(limits.paths[path])
    ensures path !in limits.paths && ConfigFor(limits, path).Some? ==>
              exists i :: 0 <= i < |limits.prefixes| && IsFirstPrefix(limits.prefixes, i, path)
                          && limits.prefixes[i].1 == ConfigFor(limits, path).value
    ensures ConfigFor(limits, path).None? <==>
              path !in limits.paths && forall i :: 0 <= i < |limits.prefixes| ==> !(limits.prefixes[i].0 <= path)
    decreases |limits.prefixes|
  {
    if path !in limits.paths && limits.prefixes != [] && !(limits.prefixes[0].0 <= path) {
      var rest := Limits(limits.paths, limits.prefixes[1..]);
      LimitOf(rest, path);
      assert forall i :: 0 < i < |limits.prefixes| ==> limits.prefixes[i] == rest.prefixes[i - 1];
      if ConfigFor(limits, path).Some? {
        var i :| 0 <= i < |rest.prefixes| && IsFirstPrefix(rest.prefixes, i, path) && rest.prefixes[i].1 == ConfigFor(limits, path).value;
        assert IsFirstPrefix(limits.prefixes, i + 1, path);
      }
    } else if path !in limits.paths && limits.prefixes != [] {
      assert IsFirstPrefix(limits.prefixes, 0, path);
    }
  }

  ghost predicate IsFirstPrefix(prefixes: seq<(string, Config)>, i: nat, path: string) {
    i < |prefixes| && prefixes[i].0 <= path && forall j :: 0 <= j < i ==> !(prefixes[j].0 <= path)
  }

  /** `_RATE_LIMITED_PATHS` and `_RATE_LIMITED_PREFIXES`. */
  const LIMITS := Limits(
    map["/api/auth/login" := Config(10, 60.0), "/login" := Config(10, 60.0), "/profile/password" := Config(5, 60.0),
        "/profile/tokens" := Config(5, 60.0), "/api/sync/all" := Config(3, 60.0), "/api/accounts" := Config(5, 60.0),
        "/api/restore" := Config(3, 60.0)],
    [("/api/sync/", Config(5, 60.0))])

  lemma LimitsAreSound()
    ensures Sound(LIMITS)
  {
  }

  // ---------------------------------------------------------------------------
  // Logs
  // ---------------------------------------------------------------------------

  /** The entries less than a window old. */
  function Recent(log: seq<real>, now: real, window: real): seq<real> {
    if log == [] then []
    else
      var init, t := Recent(log[..|log| - 1], now, window), log[|log| - 1];
      if now - t < window then init + [t] else init
  }

  ghost predicate Sorted(log: seq<real>) {
    forall i, j :: 0 <= i < j < |log| ==> log[i] <= log[j]
  }

  /** Between requests that are `max` or more apart, a window has passed. */
  ghost predicate Spaced(log: seq<real>, c: Config) {
    forall i, j :: 0 <= i && i + c.max <= j < |log| ==> log[j] - log[i] >= c.window
  }

  /** How many requests fall into [from, to). */
  ghost function Within(log: seq<real>, from: real, to: real): nat {
    if log == [] then 0
    else Within(log[..|log| - 1], from, to) + if from <= log[|log| - 1] < to then 1 else 0
  }

  /** What has been pruned once would be pruned later too. */
  lemma {:induction false} RecentTwice(log: seq<real>, earlier: real, now: real, window: real)
    requires earlier <= now
    ensures Recent(Recent(log, earlier, window), now, window) == Recent(log, now, window)
  {
    if log != [] {
      var init, t := log[..|log| - 1], log[|log| - 1];
      RecentTwice(init, earlier, now, window);
      if now - t < window {
        var r := Recent(init, earlier, window) + [t];
        assert r[..|r| - 1] == Recent(init, earlier, window);
      } else if earlier - t < window {
        var r := Recent(init, earlier, window) + [t];
        assert r[..|r| - 1] == Recent(init, earlier, window);
      }
    }
  }

  lemma RecentAppend(log: seq<real>, now: real, window: real)
    requires window > 0.0
    ensures Recent(log + [now], now, window) == Recent(log, now, window) + [now]
  {
    assert (log + [now])[..|log|] == log;
  }

  /** In a sorted log what is recent is the end of it. */
  lemma {:induction false} RecentIsSuffix(log: seq<real>, now: real, window: real)
    requires Sorted(log)
    ensures |Recent(log, now, window)| <= |log|
    ensures forall i :: 0 <= i < |log| ==> (now - log[i] < window <==> i >= |log| - |Recent(log, now, window)|)
  {
    if log != [] {
      var init, t := log[..|log| - 1], log[|log| - 1];
      RecentIsSuffix(init, now, window);
      assert forall i :: 0 <= i < |init| ==> init[i] == log[i];
    }
  }

  lemma AcceptKeepsOrder(log: seq<real>, now: real)
    requires Sorted(log) && (log != [] ==> log[|log| - 1] <= now)
    ensures Sorted(log + [now])
  {
  }

  lemma SpacedFromLast(log: seq<real>, now: real, c: Config)
    requires c.max >= 1 && Spaced(log, c) && forall i :: 0 <= i && i + c.max <= |log| ==> now - log[i] >= c.window
    ensures Spaced(log + [now], c)
  {
    forall i, j | 0 <= i && i + c.max <= j < |log| + 1 ensures (log + [now])[j] - (log + [now])[i] >= c.window {
      assert (log + [now])[i] == log[i];
    }
  }

  lemma AcceptKeepsSpacing(log: seq<real>, now: real, c: Config)
    requires Sorted(log) && Spaced(log, c) && (log != [] ==> log[|log| - 1] <= now) && c.max >= 1
    requires |Recent(log, now, c.window)| < c.max
    ensures Sorted(log + [now]) && Spaced(log + [now], c)
  {
    RecentIsSuffix(log, now, c.window);
    AcceptKeepsOrder(log, now);
    SpacedFromLast(log, now, c);
  }

  /** In a sorted log the requests of [from, to) stand together, just before the first at `to` or later. */
  lemma {:induction false} WithinIsRun(log: seq<real>, from: real, to: real) returns (end: nat)
    requires Sorted(log) && from <= to
    ensures Within(log, from, to) <= end <= |log|
    ensures forall i :: end - Within(log, from, to) <= i < end ==> from <= log[i] < to
    ensures end < |log| ==> log[end] >= to
  {
    if log == [] {
      end := 0;
    } else {
      var init, t := log[..|log| - 1], log[|log| - 1];
      var e := WithinIsRun(init, from, to);
      assert forall i :: 0 <= i < |init| ==> init[i] == log[i];
      if t < to {
        end := |log|;
        assert e == |init|;
      } else {
        end := e;
      }
    }
  }

  lemma WindowSpan(log: seq<real>, c: Config, from: real, i: nat, j: nat)
    requires Sorted(log) && Spaced(log, c) && i <= j < |log| && from <= log[i] && log[j] < from + c.window
    ensures j - i < c.max
  {
  }

  /** However a window is placed, it holds no more than `max` accepted requests. */
  lemma WindowBound(log: seq<real>, c: Config, from: real)
    requires Sorted(log) && Spaced(log, c) && c.window > 0.0
    ensures Within(log, from, from + c.window) <= c.max
  {
    var n := Within(log, from, from + c.window);
    var end := WithinIsRun(log, from, from + c.window);
    if n > 0 {
      WindowSpan(log, c, from, end - n, end - 1);
    }
  }

  // ---------------------------------------------------------------------------
  // The middleware
  // ---------------------------------------------------------------------------

  /** `kept` is the history as pruned at `looked`; the history is spaced, in order, and past. */
  ghost predicate Faithful(kept: seq<real>, history: seq<real>, looked: real, clock: real, c: Config) {
    && kept == Recent(history, looked, c.window) && looked <= clock
    && Sorted(history) && Spaced(history, c)
    && (history != [] ==> history[|history| - 1] <= clock)
  }

  /** The list comprehension over the stored timestamps. */
  method Prune(timestamps: seq<real>, now: real, window: real) returns (kept: seq<real>)
    ensures kept == Recent(timestamps, now, window)
  {
    kept := [];
    var i := 0;
    while i < |timestamps|
      invariant 0 <= i <= |timestamps| && kept == Recent(timestamps[..i], now, window)
    {
      assert timestamps[..i + 1][..i] == timestamps[..i];
      if now - timestamps[i] < window {
        kept := kept + [timestamps[i]];
      }
      i := i + 1;
    }
    assert timestamps[..i] == timestamps;
  }

  lemma AcceptStaysFaithful(history: seq<real>, now: real, c: Config)
    requires Faithful(Recent(history, now, c.window), history, now, now, c) && c.max >= 1 && c.window > 0.0
    requires |Recent(history, now, c.window)| < c.max
    ensures Faithful(Recent(history, now, c.window) + [now], history + [now], now, now, c)
  {
    AcceptKeepsSpacing(history, now, c);
    RecentAppend(history, now, c.window);
  }

  ghost predicate KeyFaithful(limits: Limits, counters: map<Client, seq<real>>, accepted: map<Client, seq<real>>,
                              looked: map<Client, real>, clock: real, k: Client)
  {
    && k in counters && k in accepted && k in looked && ConfigFor(limits, k.path).Some?
    && Faithful(counters[k], accepted[k], looked[k], clock, ConfigFor(limits, k.path).value)
  }

  ghost predicate AllFaithful(limits: Limits, counters: map<Client, seq<real>>, accepted: map<Client, seq<real>>,
                              looked: map<Client, real>, clock: real) {
    forall k {:trigger KeyFaithful(limits, counters, accepted, looked, clock, k)} ::
      k in counters || k in accepted || k in looked ==> KeyFaithful(limits, counters, accepted, looked, clock, k)
  }

  lemma ClockMoves(limits: Limits, counters: map<Client, seq<real>>, accepted: map<Client, seq<real>>, looked: map<Client, real>,
                   clock: real, now: real)
    requires AllFaithful(limits, counters, accepted, looked, clock) && clock <= now
    ensures AllFaithful(limits, counters, accepted, looked, now)
  {
    forall k | k in counters || k in accepted || k in looked ensures KeyFaithful(limits, counters, accepted, looked, now, k) {
      assert KeyFaithful(limits, counters, accepted, looked, clock, k);
    }
  }

  lemma PutFaithful(limits: Limits, counters: map<Client, seq<real>>, accepted: map<Client, seq<real>>, looked: map<Client, real>, now: real,
                    k: Client, kept: seq<real>, history: seq<real>)
    requires AllFaithful(limits, counters, accepted, looked, now) && ConfigFor(limits, k.path).Some?
    requires Faithful(kept, history, now, now, ConfigFor(limits, k.path).value)
    ensures AllFaithful(limits, counters[k := kept], accepted[k := history], looked[k := now], now)
  {
    var c', a', l' := counters[k := kept], accepted[k := history], looked[k := now];
    forall q | q in c' || q in a' || q in l' ensures KeyFaithful(limits, c', a', l', now, q) {
      if q != k {
        assert KeyFaithful(limits, counters, accepted, looked, now, q);
      }
    }
  }

  lemma StillFaithful(stored: seq<real>, history: seq<real>, looked: real, now: real, c: Config)
    requires Faithful(stored, history, looked, now, c)
    ensures Faithful(Recent(stored, now, c.window), history, now, now, c)
  {
    RecentTwice(history, looked, now, c.window);
  }

  lemma PrunedFaithful(limits: Limits, counters: map<Client, seq<real>>, accepted: map<Client, seq<real>>, looked: map<Client, real>, now: real,
                       k: Client, c: Config)
    requires AllFaithful(limits, counters, accepted, looked, now) && ConfigFor(limits, k.path) == Some(c)
    ensures var stored, history := if k in counters then counters[k] else [], HistoryOf(accepted, k);
            Faithful(Recent(stored, now, c.window), history, now, now, c)
  {
    if k in counters || k in accepted {
      assert KeyFaithful(limits, counters, accepted, looked, now, k);
      StillFaithful(counters[k], accepted[k], looked[k], now, c);
    }
  }

  /** Whatever requests were dispatched: in no window were more than `max` of a client let through. */
  lemma ClientBound(limits: Limits, counters: map<Client, seq<real>>, accepted: map<Client, seq<real>>, looked: map<Client, real>,
                    clock: real, k: Client, from: real)
    requires Sound(limits) && AllFaithful(limits, counters, accepted, looked, clock) && k in accepted
    ensures ConfigFor(limits, k.path).Some?
    ensures var c := ConfigFor(limits, k.path).value; Within(accepted[k], from, from + c.window) <= c.max
  {
    assert KeyFaithful(limits, counters, accepted, looked, clock, k);
    ConfigIsSound(limits, k.path);
    WindowBound(accepted[k], ConfigFor(limits, k.path).value, from);
  }

  class RateLimiter {
    const limits: Limits
    var counters: map<Client, seq<real>>

    /** Everything ever let through, the last time each client was looked at, and the clock. */
    ghost var accepted: map<Client, seq<real>>
    ghost var looked: map<Client, real>
    ghost var clock: real

    ghost predicate Valid()
      reads this
    {
      Sound(limits) && AllFaithful(limits, counters, accepted, looked, clock)
    }

    constructor (limits: Limits)
      requires Sound(limits)
      ensures Valid() && accepted == map[] && this.limits == limits
    {
      this.limits := limits;
      counters, accepted, looked, clock := map[], map[], map[], 0.0;
    }

    /**
     * `dispatch`: a POST on a limited path is let through exactly when fewer than `max` were let
     * through within the last window; what is kept of the log is exactly that much of it.
     */
    method Dispatch(verb: string, path: string, ip: string, now: real) returns (allowed: bool)
      requires Valid() && now >= clock
      modifies this
      ensures Valid() && clock == now
      ensures verb != "POST" || ConfigFor(limits, path).None? ==> allowed && counters == old(counters) && accepted == old(accepted)
      ensures verb == "POST" && ConfigFor(limits, path).Some? ==>
                var k, c := Client(ip, path), ConfigFor(limits, path).value;
                && (allowed <==> |Recent(HistoryOf(old(accepted), k), now, c.window)| < c.max)
                && accepted == old(accepted)[k := HistoryOf(old(accepted), k) + if allowed then [now] else []]
                && counters == old(counters)[k := Recent(HistoryOf(accepted, k), now, c.window)]
    {
      ClockMoves(limits, counters, accepted, looked, clock, now);
      clock := now;
      if verb != "POST" {
        return true;
      }
      var config := ConfigFor(limits, path);
      if config.None? {
        return true;
      }
      ConfigIsSound(limits, path);
      counters, accepted, looked, allowed := Admit(limits, counters, accepted, looked, Client(ip, path), config.value, now);
    }
  }

  /** The pruned log, with the request in it if there is room. */
  method Log(c: Config, ghost history: seq<real>, kept: seq<real>, now: real)
    returns (kept': seq<real>, ghost history': seq<real>, allowed: bool)
    requires c.max >= 1 && c.window > 0.0 && Faithful(kept, history, now, now, c)
    ensures allowed <==> |kept| < c.max
    ensures history' == history + if allowed then [now] else []
    ensures Faithful(kept', history', now, now, c)
  {
    if |kept| >= c.max {
      assert history + [] == history;
      return kept, history, false;
    }
    AcceptStaysFaithful(history, now, c);
    return kept + [now], history + [now], true;
  }

  ghost function HistoryOf(accepted: map<Client, seq<real>>, k: Client): seq<real> {
    if k in accepted then accepted[k] else []
  }

  /** Prunes the log of one client, and lets the request through if there is room. */
  method Admit(limits: Limits, counters: map<Client, seq<real>>, ghost accepted: map<Client, seq<real>>, ghost looked: map<Client, real>,
               k: Client, c: Config, now: real)
    returns (counters': map<Client, seq<real>>, ghost accepted': map<Client, seq<real>>, ghost looked': map<Client, real>, allowed: bool)
    requires AllFaithful(limits, counters, accepted, looked, now) && ConfigFor(limits, k.path) == Some(c) && c.max >= 1 && c.window > 0.0
    ensures AllFaithful(limits, counters', accepted', looked', now)
    ensures allowed <==> |Recent(HistoryOf(accepted, k), now, c.window)| < c.max
    ensures accepted' == accepted[k := HistoryOf(accepted, k) + if allowed then [now] else []]
    ensures counters' == counters[k := Recent(accepted'[k], now, c.window)]
  {
    var kept;
    ghost var history;
    kept, history, allowed := Look(limits, counters, accepted, looked, k, c, now);
    PutFaithful(limits, counters, accepted, looked, now, k, kept, history);
    counters', accepted', looked' := counters[k := kept], accepted[k := history], looked[k := now];
  }

  method Look(limits: Limits, counters: map<Client, seq<real>>, ghost accepted: map<Client, seq<real>>, ghost looked: map<Client, real>,
              k: Client, c: Config, now: real)
    returns (kept: seq<real>, ghost history: seq<real>, allowed: bool)
    requires AllFaithful(limits, counters, accepted, looked, now) && ConfigFor(limits, k.path) == Some(c) && c.max >= 1 && c.window > 0.0
    ensures allowed <==> |Recent(HistoryOf(accepted, k), now, c.window)| < c.max
    ensures history == HistoryOf(accepted, k) + if allowed then [now] else []
    ensures Faithful(kept, history, now, now, c)
  {
    kept := Prune(if k in counters then counters[k] else [], now, c.window);
    PrunedFaithful(limits, counters, accepted, looked, now, k, c);
    kept, history, allowed := Log(c, HistoryOf(accepted, k), kept, now);
  }
}
