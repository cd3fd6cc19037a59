/** RateLimiter of dns_tls_relay.py: a token bucket per client, with eviction of idle buckets. */
module Limiter {

  type Ip = string

  datatype Config = Config(rate: nat, burst: nat)

  datatype Bucket = Bucket(tokens: real, last: real)

  type Buckets = map<Ip, Bucket>

  /** The tokens earned in `dt` seconds. */
  function Earned(c: Config, dt: real): real { c.rate as real * dt }

  lemma EarnedAdds(c: Config, a: real, b: real)
    ensures Earned(c, a + b) == Earned(c, a) + Earned(c, b)
  {
  }

  lemma EarnedGrows(c: Config, a: real)
    requires a >= 0.0
    ensures Earned(c, a) >= 0.0 && Earned(c, 0.0) == 0.0
  {
  }

  function Capped(c: Config, x: real): real { if x < c.burst as real then x else c.burst as real }

  lemma FullStaysFull(c: Config)
    ensures Capped(c, c.burst as real + Earned(c, 0.0)) == c.burst as real
  {
  }

  /** The tokens of a client at clock reading `now`; an unknown client has a full bucket. */
  function Level(c: Config, s: Buckets, ip: Ip, now: real): real {
    if ip in s then Capped(c, s[ip].tokens + Earned(c, now - s[ip].last)) else c.burst as real
  }

  datatype Event = Allow(ip: Ip, at: real) | Cleanup(at: real)

  predicate Granted(c: Config, s: Buckets, ip: Ip, now: real) { Level(c, s, ip, now) >= 1.0 }

  function Step(c: Config, s: Buckets, e: Event): Buckets {
    match e
    case Allow(ip, at) =>
      var level := Level(c, s, ip, at);
      s[ip := Bucket(if level >= 1.0 then level - 1.0 else level, at)]
    case Cleanup(at) => map ip | ip in s && !(at - s[ip].last > 60.0) :: s[ip]
  }

  lemma AllowCases(c: Config, s: Buckets, ip: Ip, at: real)
    ensures var level := if ip in s then Capped(c, s[ip].tokens + Earned(c, at - s[ip].last)) else c.burst as real;
      && (Granted(c, s, ip, at) <==> level >= 1.0)
      && Step(c, s, Allow(ip, at)) == s[ip := Bucket(if level >= 1.0 then level - 1.0 else level, at)]
  {
    hide Capped, Earned;
  }

  lemma UpdateTwice<K, V>(m: map<K, V>, k: K, a: V, b: V)
    ensures m[k := a][k := b] == m[k := b]
  {
  }

  ghost function Zip(tokens: map<Ip, real>, last: map<Ip, real>): Buckets
    requires tokens.Keys == last.Keys
  {
    map ip | ip in tokens :: Bucket(tokens[ip], last[ip])
  }

  lemma ZipLooks(tokens: map<Ip, real>, last: map<Ip, real>, ip: Ip)
    requires tokens.Keys == last.Keys
    ensures ip in Zip(tokens, last) <==> ip in tokens
    ensures ip in tokens ==> Zip(tokens, last)[ip] == Bucket(tokens[ip], last[ip])
  {
  }

  lemma ZipUpdate(tokens: map<Ip, real>, last: map<Ip, real>, ip: Ip, t: real, at: real)
    requires tokens.Keys == last.Keys
    ensures tokens[ip := t].Keys == last[ip := at].Keys
    ensures Zip(tokens[ip := t], last[ip := at]) == Zip(tokens, last)[ip := Bucket(t, at)]
  {
  }

  class RateLimiter {
    const config: Config
    var tokens: map<Ip, real>
    var lastRefill: map<Ip, real>

    ghost predicate Valid()
      reads this
    {
      tokens.Keys == lastRefill.Keys
    }

    ghost function Abs(): Buckets
      requires Valid()
      reads this
    {
      Zip(tokens, lastRefill)
    }

    constructor (rate: nat, burst: nat)
      ensures Valid() && Abs() == map[] && config == Config(rate, burst)
    {
      config, tokens, lastRefill := Config(rate, burst), map[], map[];
    }

    method AllowQuery(ip: Ip, now: real) returns (r: bool)
      requires Valid()
      modifies this
      ensures Valid() && Abs() == Step(config, old(Abs()), Allow(ip, now))
      ensures r == Granted(config, old(Abs()), ip, now)
    {
      hide Earned, Capped, Zip, Step, Level, Granted;
      ghost var tokens0, last0 := tokens, lastRefill;
      AllowCases(config, Zip(tokens0, last0), ip, now);
      ZipLooks(tokens0, last0, ip);
      if ip !in tokens {
        tokens, lastRefill := tokens[ip := config.burst as real], lastRefill[ip := now];
        FullStaysFull(config);
      }
      var elapsed := now - lastRefill[ip];
      ghost var level := Capped(config, tokens[ip] + Earned(config, elapsed));
      UpdateTwice(tokens0, ip, config.burst as real, level);
      UpdateTwice(tokens0, ip, level, level - 1.0);
      UpdateTwice(last0, ip, now, now);
      tokens := tokens[ip := Capped(config, tokens[ip] + Earned(config, elapsed))];
      lastRefill := lastRefill[ip := now];
      r := tokens[ip] >= 1.0;
      if r {
        tokens := tokens[ip := tokens[ip] - 1.0];
      }
      ZipUpdate(tokens0, last0, ip, tokens[ip], now);
    }

    method CleanupStale(now: real)
      requires Valid()
      modifies this
      ensures Valid() && Abs() == Step(config, old(Abs()), Cleanup(now))
    {
      var stale := set ip | ip in lastRefill && now - lastRefill[ip] > 60.0;
      tokens, lastRefill := tokens - stale, lastRefill - stale;
    }
  }

  // ---------------------------------------------------------------------------
  // Runs.

  /** No query is answered at a clock reading before one that was taken earlier. */
  predicate Ordered(es: seq<Event>) {
    forall i, j :: 0 <= i < j < |es| && es[j].Allow? ==> es[i].at <= es[j].at
  }

  /** The buckets hold between zero and `burst` tokens. */
  predicate InBounds(c: Config, s: Buckets) {
    forall ip :: ip in s ==> 0.0 <= s[ip].tokens <= c.burst as real
  }

  /** No bucket was refilled after the coming events. */
  predicate Precedes(s: Buckets, es: seq<Event>) {
    forall ip, i :: ip in s && 0 <= i < |es| && es[i].Allow? ==> s[ip].last <= es[i].at
  }

  lemma StepInBounds(c: Config, s: Buckets, es: seq<Event>)
    requires es != [] && InBounds(c, s) && Precedes(s, es) && Ordered(es)
    ensures InBounds(c, Step(c, s, es[0])) && Precedes(Step(c, s, es[0]), es[1..]) && Ordered(es[1..])
  {
    var e := es[0];
    assert forall i :: 0 <= i < |es| - 1 ==> es[1..][i] == es[i + 1];
    if e.Allow? {
      if e.ip in s { EarnedGrows(c, e.at - s[e.ip].last); }
      hide Earned;
    }
  }

  function Run(c: Config, s: Buckets, es: seq<Event>): Buckets
    decreases |es|
  {
    if es == [] then s else Run(c, Step(c, s, es[0]), es[1..])
  }

  /** Tokens stay between zero and `burst` in every run. */
  lemma {:induction false} TokensInBounds(c: Config, s: Buckets, es: seq<Event>)
    requires InBounds(c, s) && Precedes(s, es) && Ordered(es)
    ensures InBounds(c, Run(c, s, es))
    decreases |es|
  {
    if es != [] {
      StepInBounds(c, s, es);
      TokensInBounds(c, Step(c, s, es[0]), es[1..]);
    }
  }

  /** The answers to the queries of a run, in order. */
  function Answers(c: Config, s: Buckets, es: seq<Event>): seq<bool>
    decreases |es|
  {
    if es == [] then []
    else (if es[0].Allow? then [Granted(c, s, es[0].ip, es[0].at)] else [])
         + Answers(c, Step(c, s, es[0]), es[1..])
  }

  function QueriesOnly(es: seq<Event>): seq<Event> {
    if es == [] then []
    else if es[0].Allow? then [es[0]] + QueriesOnly(es[1..])
    else QueriesOnly(es[1..])
  }

  /** How many queries of the client were granted with a clock reading in `[from, to]`. */
  function Grants(c: Config, s: Buckets, es: seq<Event>, ip: Ip, from: real, to: real): nat
    decreases |es|
  {
    if es == [] then 0
    else
      var e := es[0];
      (if e.Allow? && e.ip == ip && from <= e.at <= to && Granted(c, s, ip, e.at) then 1 else 0)
      + Grants(c, Step(c, s, e), es[1..], ip, from, to)
  }

  predicate RefillsInAMinute(c: Config) { 60 * c.rate >= c.burst }

  lemma LevelGrows(c: Config, s: Buckets, ip: Ip, a: real, b: real)
    requires a <= b
    ensures Level(c, s, ip, a) <= Level(c, s, ip, b) <= Level(c, s, ip, a) + Earned(c, b - a)
    ensures Level(c, s, ip, a) <= c.burst as real
  {
    EarnedGrows(c, b - a);
    if ip in s { EarnedAdds(c, a - s[ip].last, b - a); }
  }

  /** When a minute fills a bucket, evicting it does not change what the client has from then on. */
  lemma EvictionKeepsLevel(c: Config, s: Buckets, at: real, ip: Ip, now: real)
    requires RefillsInAMinute(c) && InBounds(c, s) && at <= now
    ensures Level(c, Step(c, s, Cleanup(at)), ip, now) == Level(c, s, ip, now)
  {
    if ip in s && at - s[ip].last > 60.0 {
      var idle := now - s[ip].last;
      EarnedAdds(c, 60.0, idle - 60.0);
      EarnedGrows(c, idle - 60.0);
      assert Earned(c, 60.0) >= c.burst as real;
    }
  }

  function Max(a: real, b: real): real { if a < b then b else a }

  /** What is still allowed in the window once the clock has reached `base`. */
  function Budget(c: Config, s: Buckets, ip: Ip, base: real, from: real, to: real): real {
    var start := Max(base, from);
    if start > to then 0.0 else Level(c, s, ip, start) + Earned(c, to - start)
  }

  predicate AllFrom(es: seq<Event>, base: real) {
    forall i :: 0 <= i < |es| && es[i].Allow? ==> base <= es[i].at
  }

  lemma BudgetShrinks(c: Config, s: Buckets, ip: Ip, a: real, b: real, from: real, to: real)
    requires a <= b && InBounds(c, s) && (ip in s ==> s[ip].last <= a)
    ensures Budget(c, s, ip, b, from, to) <= Budget(c, s, ip, a, from, to)
    ensures 0.0 <= Budget(c, s, ip, b, from, to)
  {
    var x, y := Max(a, from), Max(b, from);
    if ip in s { EarnedGrows(c, x - s[ip].last); EarnedGrows(c, y - s[ip].last); }
    if x <= to { EarnedGrows(c, to - x); }
    if y <= to {
      EarnedGrows(c, to - y);
      LevelGrows(c, s, ip, x, y);
      EarnedAdds(c, to - y, y - x);
    }
  }

  lemma BudgetAfterQuery(c: Config, s: Buckets, ip: Ip, who: Ip, at: real, from: real, to: real)
    requires InBounds(c, s) && (ip in s ==> s[ip].last <= at)
    ensures var granted := if who == ip && from <= at <= to && Granted(c, s, ip, at) then 1.0 else 0.0;
      granted + Budget(c, Step(c, s, Allow(who, at)), ip, at, from, to) <= Budget(c, s, ip, at, from, to)
  {
    var t := Step(c, s, Allow(who, at));
    var start := Max(at, from);
    EarnedGrows(c, start - at);
    if ip in s { EarnedAdds(c, at - s[ip].last, start - at); EarnedGrows(c, at - s[ip].last); }
    hide Earned;
  }

  lemma {:induction false} GrantsWithinBudget(c: Config, s: Buckets, es: seq<Event>, ip: Ip,
                                              base: real, from: real, to: real)
    requires RefillsInAMinute(c) && InBounds(c, s) && Precedes(s, es) && Ordered(es)
    requires AllFrom(es, base) && (ip in s ==> s[ip].last <= base)
    ensures Grants(c, s, es, ip, from, to) as real <= Budget(c, s, ip, base, from, to)
    decreases |es|
  {
    if es == [] {
      BudgetShrinks(c, s, ip, base, base, from, to);
    } else {
      var e := es[0];
      var t := Step(c, s, e);
      var next := Max(base, e.at);
      StepInBounds(c, s, es);
      assert AllFrom(es[1..], next) by {
        assert forall i :: 0 <= i < |es| - 1 ==> es[1..][i] == es[i + 1];
      }
      GrantsWithinBudget(c, t, es[1..], ip, next, from, to);
      BudgetShrinks(c, s, ip, base, next, from, to);
      if e.Allow? {
        BudgetAfterQuery(c, s, ip, e.ip, e.at, from, to);
      } else {
        EvictionKeepsLevel(c, s, e.at, ip, Max(next, from));
      }
      hide Budget, InBounds, Precedes, Ordered, AllFrom, Step, Granted;
    }
  }

  /**
   * When a minute fills a bucket, no client gets more than `burst` grants plus
   * what is earned in the window, in any window of any run with evictions.
   */
  lemma WindowBound(c: Config, es: seq<Event>, ip: Ip, from: real, to: real)
    requires RefillsInAMinute(c) && Ordered(es) && from <= to
    ensures Grants(c, map[], es, ip, from, to) as real <= c.burst as real + Earned(c, to - from)
  {
    hide Earned, Grants, Ordered;
    EarnedGrows(c, to - from);
    if es == [] {
      NoGrants(c, ip, from, to);
    } else {
      var base := es[0].at;
      var start := Max(base, from);
      FirstIsEarliest(es);
      GrantsWithinBudget(c, map[], es, ip, base, from, to);
      if start <= to {
        EarnedAdds(c, to - start, start - from);
        EarnedGrows(c, start - from);
      }
    }
  }

  lemma NoGrants(c: Config, ip: Ip, from: real, to: real)
    ensures Grants(c, map[], [], ip, from, to) == 0
  {
  }

  lemma FirstIsEarliest(es: seq<Event>)
    requires es != [] && Ordered(es)
    ensures AllFrom(es, es[0].at)
  {
  }

  /** `s` lacks some buckets of `p`, all of them idle for more than a minute at `base`. */
  predicate Evicted(s: Buckets, p: Buckets, base: real) {
    && (forall ip :: ip in s ==> ip in p && s[ip] == p[ip])
    && (forall ip :: ip in p && ip !in s ==> base - p[ip].last > 60.0)
  }

  lemma EvictedLevel(c: Config, s: Buckets, p: Buckets, base: real, ip: Ip, now: real)
    requires RefillsInAMinute(c) && InBounds(c, p) && Evicted(s, p, base) && base <= now
    ensures Level(c, s, ip, now) == Level(c, p, ip, now)
  {
    if ip in p && ip !in s { EvictionKeepsLevel(c, p, base, ip, now); }
  }

  lemma {:induction false} AnswersWithoutCleanup(c: Config, s: Buckets, p: Buckets, es: seq<Event>, base: real)
    requires RefillsInAMinute(c) && InBounds(c, p) && Precedes(p, es) && Ordered(es)
    requires Evicted(s, p, base) && AllFrom(es, base)
    ensures Answers(c, s, es) == Answers(c, p, QueriesOnly(es))
    decreases |es|
  {
    if es != [] {
      var e := es[0];
      var t := Step(c, s, e);
      var next := Max(base, e.at);
      StepInBounds(c, p, es);
      assert forall i :: 0 <= i < |es| - 1 ==> es[1..][i] == es[i + 1];
      if e.Allow? {
        EvictedLevel(c, s, p, base, e.ip, e.at);
        var q := Step(c, p, e);
        assert Evicted(t, q, next);
        AnswersWithoutCleanup(c, t, q, es[1..], next);
        assert ([e] + QueriesOnly(es[1..]))[1..] == QueriesOnly(es[1..]);
      } else {
        AnswersWithoutCleanup(c, t, p, es[1..], next);
      }
    }
  }

  // ---------------------------------------------------------------------------
  // The condition is exact.

  function Repeat(e: Event, n: nat): (es: seq<Event>)
    ensures |es| == n && forall i :: 0 <= i < n ==> es[i] == e
  {
    if n == 0 then [] else [e] + Repeat(e, n - 1)
  }

  lemma {:induction false} RunConcat(c: Config, s: Buckets, a: seq<Event>, b: seq<Event>)
    ensures Answers(c, s, a + b) == Answers(c, s, a) + Answers(c, Run(c, s, a), b)
    ensures forall ip, from, to :: Grants(c, s, a + b, ip, from, to)
                                == Grants(c, s, a, ip, from, to) + Grants(c, Run(c, s, a), b, ip, from, to)
    decreases |a|
  {
    hide Step, Granted;
    if a == [] {
      assert a + b == b;
    } else {
      RunConcat(c, Step(c, s, a[0]), a[1..], b);
      assert (a + b)[0] == a[0] && (a + b)[1..] == a[1..] + b;
    }
  }

  function Trues(n: nat): (b: seq<bool>)
    ensures |b| == n && forall i :: 0 <= i < n ==> b[i]
  {
    if n == 0 then [] else [true] + Trues(n - 1)
  }

  /** Queries at one clock reading are granted as long as whole tokens are there. */
  lemma {:induction false} Drain(c: Config, s: Buckets, ip: Ip, at: real, n: nat)
    requires Level(c, s, ip, at) >= n as real
    ensures var t := Run(c, s, Repeat(Allow(ip, at), n));
      && Level(c, t, ip, at) == Level(c, s, ip, at) - n as real
      && Answers(c, s, Repeat(Allow(ip, at), n)) == Trues(n)
      && (forall from, to :: from <= at <= to ==> Grants(c, s, Repeat(Allow(ip, at), n), ip, from, to) == n)
      && (n > 0 ==> ip in t && t[ip] == Bucket(Level(c, s, ip, at) - n as real, at))
      && (n == 0 ==> t == s)
    decreases n
  {
    if n > 0 {
      var t := Step(c, s, Allow(ip, at));
      EarnedGrows(c, 0.0);
      LevelGrows(c, s, ip, at, at);
      assert Level(c, t, ip, at) == Level(c, s, ip, at) - 1.0;
      Drain(c, t, ip, at, n - 1);
      hide Level, Earned;
    }
  }

  /** Empty the bucket, let it idle for just over a minute, have it evicted, and ask again. */
  function Abuse(c: Config, ip: Ip): seq<Event> {
    Repeat(Allow(ip, 0.0), c.burst) + [Cleanup(Late(c))] + Repeat(Allow(ip, Late(c)), 60 * c.rate + 1)
  }

  /** Just over a minute, so that still no whole further token is earned. */
  function Late(c: Config): (t: real)
    ensures t > 60.0
  {
    60.0 + 1.0 / (c.rate as real + 1.0)
  }

  lemma EarnedLate(c: Config)
    ensures (60 * c.rate) as real <= Earned(c, Late(c)) < (60 * c.rate + 1) as real
  {
    var r := c.rate as real;
    var x := 1.0 / (r + 1.0);
    assert x * (r + 1.0) == 1.0;
    assert r * x == 1.0 - x;
    assert Earned(c, Late(c)) == r * 60.0 + r * x;
  }

  lemma {:induction false} QueriesOfRepeat(e: Event, n: nat, es: seq<Event>)
    ensures QueriesOnly(Repeat(e, n) + es) == (if e.Allow? then Repeat(e, n) else []) + QueriesOnly(es)
  {
    if n == 0 {
      assert Repeat(e, n) + es == es;
    } else {
      QueriesOfRepeat(e, n - 1, es);
      assert (Repeat(e, n) + es)[1..] == Repeat(e, n - 1) + es;
    }
  }

  lemma AbuseEvicted(c: Config, ip: Ip)
    requires !RefillsInAMinute(c)
    ensures Answers(c, map[], Abuse(c, ip)) == Trues(c.burst) + Trues(60 * c.rate + 1)
    ensures Grants(c, map[], Abuse(c, ip), ip, 0.0, Late(c)) == c.burst + 60 * c.rate + 1
  {
    var first, evict := Repeat(Allow(ip, 0.0), c.burst), [Cleanup(Late(c))];
    var later := Repeat(Allow(ip, Late(c)), 60 * c.rate + 1);
    Drain(c, map[], ip, 0.0, c.burst);
    var s := Run(c, map[], first);
    var t := Step(c, s, Cleanup(Late(c)));
    assert ip !in t;
    Drain(c, t, ip, Late(c), 60 * c.rate + 1);
    RunConcat(c, map[], first + evict, later);
    RunConcat(c, map[], first, evict);
    OneCleanup(c, s, Late(c), ip, 0.0, Late(c));
    RunSplit(c, map[], first, evict);
    hide Repeat, Run, Grants, Answers, Step, Level;
    assert Trues(c.burst) + [] == Trues(c.burst);
  }

  lemma {:induction false} RunSplit(c: Config, s: Buckets, a: seq<Event>, b: seq<Event>)
    ensures Run(c, s, a + b) == Run(c, Run(c, s, a), b)
    decreases |a|
  {
    hide Step;
    if a == [] {
      assert a + b == b;
    } else {
      RunSplit(c, Step(c, s, a[0]), a[1..], b);
      assert (a + b)[0] == a[0] && (a + b)[1..] == a[1..] + b;
    }
  }

  lemma OneCleanup(c: Config, s: Buckets, at: real, ip: Ip, from: real, to: real)
    ensures Answers(c, s, [Cleanup(at)]) == [] && Grants(c, s, [Cleanup(at)], ip, from, to) == 0
    ensures Run(c, s, [Cleanup(at)]) == Step(c, s, Cleanup(at))
  {
    hide Step;
    assert [Cleanup(at)][1..] == [];
    assert Answers(c, Step(c, s, Cleanup(at)), []) == [];
  }

  lemma OneQuery(c: Config, s: Buckets, ip: Ip, at: real)
    ensures Answers(c, s, [Allow(ip, at)]) == [Granted(c, s, ip, at)]
  {
    hide Step, Granted;
    assert [Allow(ip, at)][1..] == [];
    assert Answers(c, Step(c, s, Allow(ip, at)), []) == [];
  }

  lemma AbuseKept(c: Config, ip: Ip)
    requires !RefillsInAMinute(c)
    ensures Answers(c, map[], QueriesOnly(Abuse(c, ip))) == Trues(c.burst) + (Trues(60 * c.rate) + [false])
  {
    hide *;
    var n, at := 60 * c.rate, Late(c);
    var first, later := Repeat(Allow(ip, 0.0), c.burst), Repeat(Allow(ip, at), n + 1);
    AbuseQueries(c, ip);
    AbuseIdle(c, ip);
    var s := Run(c, map[], first);
    Drain(c, map[], ip, 0.0, c.burst);
    Drain(c, s, ip, at, n);
    var t := Run(c, s, Repeat(Allow(ip, at), n));
    OneQuery(c, t, ip, at);
    NotGranted(c, t, ip, at);
    RepeatMore(Allow(ip, at), n);
    RunConcat(c, s, Repeat(Allow(ip, at), n), [Allow(ip, at)]);
    RunConcat(c, map[], first, later);
  }

  lemma RepeatMore(e: Event, n: nat)
    ensures Repeat(e, n + 1) == Repeat(e, n) + [e]
  {
  }

  lemma NotGranted(c: Config, s: Buckets, ip: Ip, at: real)
    ensures Granted(c, s, ip, at) <==> Level(c, s, ip, at) >= 1.0
  {
  }

  /** After the idle minute the drained bucket holds what the minute earns, less than one token more than that. */
  lemma AbuseIdle(c: Config, ip: Ip)
    requires !RefillsInAMinute(c)
    ensures Level(c, map[], ip, 0.0) >= c.burst as real
    ensures var s := Run(c, map[], Repeat(Allow(ip, 0.0), c.burst));
      (60 * c.rate) as real <= Level(c, s, ip, Late(c)) < (60 * c.rate + 1) as real
  {
    Drain(c, map[], ip, 0.0, c.burst);
    EarnedLate(c);
    hide Repeat, Run, Earned;
    assert Late(c) - 0.0 == Late(c);
  }

  lemma AbuseQueries(c: Config, ip: Ip)
    ensures QueriesOnly(Abuse(c, ip)) == Repeat(Allow(ip, 0.0), c.burst) + Repeat(Allow(ip, Late(c)), 60 * c.rate + 1)
  {
    var n, at := 60 * c.rate, Late(c);
    var first, later := Repeat(Allow(ip, 0.0), c.burst), Repeat(Allow(ip, at), n + 1);
    QueriesOfRepeat(Allow(ip, 0.0), c.burst, [Cleanup(at)] + later);
    assert first + [Cleanup(at)] + later == first + ([Cleanup(at)] + later);
    assert ([Cleanup(at)] + later)[1..] == later;
    QueriesOfRepeat(Allow(ip, at), n + 1, []);
    assert later + [] == later;
    assert QueriesOnly(Abuse(c, ip)) == first + later;
  }

  lemma AbuseIsOrdered(c: Config, ip: Ip)
    ensures Ordered(Abuse(c, ip))
  {
  }

  /**
   * Evictions are unobservable in every run exactly when a minute fills a
   * bucket, and exactly then every window bound holds.
   */
  lemma CleanupConditionIsExact(c: Config)
    ensures RefillsInAMinute(c) <==>
      forall es :: Ordered(es) ==> Answers(c, map[], es) == Answers(c, map[], QueriesOnly(es))
    ensures RefillsInAMinute(c) <==>
      forall es, ip, from, to :: Ordered(es) && from <= to ==>
        Grants(c, map[], es, ip, from, to) as real <= c.burst as real + Earned(c, to - from)
  {
    hide *;
    var ip := "192.0.2.1";
    if RefillsInAMinute(c) {
      forall es | Ordered(es) ensures Answers(c, map[], es) == Answers(c, map[], QueriesOnly(es)) {
        CleanupUnobservable(c, es);
      }
      forall es, ip, from, to | Ordered(es) && from <= to
        ensures Grants(c, map[], es, ip, from, to) as real <= c.burst as real + Earned(c, to - from)
      {
        WindowBound(c, es, ip, from, to);
      }
    } else {
      AbuseIsOrdered(c, ip);
      AbuseEvicted(c, ip);
      AbuseKept(c, ip);
      LastAnswer(c.burst, 60 * c.rate);
      EarnedLate(c);
      assert Late(c) - 0.0 == Late(c);
    }
  }

  lemma CleanupUnobservable(c: Config, es: seq<Event>)
    requires RefillsInAMinute(c) && Ordered(es)
    ensures Answers(c, map[], es) == Answers(c, map[], QueriesOnly(es))
  {
    hide Answers, QueriesOnly, Ordered, RefillsInAMinute;
    if es != [] {
      FirstIsEarliest(es);
      AnswersWithoutCleanup(c, map[], map[], es, es[0].at);
    } else {
      AnswersWithoutCleanup(c, map[], map[], es, 0.0);
    }
  }

  lemma LastAnswer(m: nat, n: nat)
    ensures Trues(m) + Trues(n + 1) != Trues(m) + (Trues(n) + [false])
  {
    assert (Trues(m) + Trues(n + 1))[m + n];
    assert !(Trues(m) + (Trues(n) + [false]))[m + n];
  }

  // ---------------------------------------------------------------------------
  // A query is granted exactly when every window can afford it.

  lemma OneEvent(c: Config, s: Buckets, e: Event, ip: Ip, from: real, to: real)
    ensures Run(c, s, [e]) == Step(c, s, e)
    ensures Grants(c, s, [e], ip, from, to) ==
      if e.Allow? && e.ip == ip && from <= e.at <= to && Granted(c, s, ip, e.at) then 1 else 0
  {
    hide Step, Granted;
    assert [e][1..] == [];
    assert Grants(c, Step(c, s, e), [], ip, from, to) == 0;
  }

  /** The last event of a run. */
  lemma LastEvent(c: Config, es: seq<Event>, ip: Ip, from: real, to: real)
    requires es != []
    ensures var pre, e := es[..|es| - 1], es[|es| - 1];
      var s := Run(c, map[], pre);
      && Run(c, map[], es) == Step(c, s, e)
      && Grants(c, map[], es, ip, from, to) == Grants(c, map[], pre, ip, from, to) +
         if e.Allow? && e.ip == ip && from <= e.at <= to && Granted(c, s, ip, e.at) then 1 else 0
  {
    hide *;
    var pre, e := es[..|es| - 1], es[|es| - 1];
    assert es == pre + [e];
    RunSplit(c, map[], pre, [e]);
    RunConcat(c, map[], pre, [e]);
    OneEvent(c, Run(c, map[], pre), e, ip, from, to);
  }

  predicate AllBy(es: seq<Event>, at: real) { forall i :: 0 <= i < |es| ==> es[i].at <= at }

  lemma EarlierEvents(es: seq<Event>)
    requires es != [] && Ordered(es)
    ensures var pre, e := es[..|es| - 1], es[|es| - 1];
      && Ordered(pre) && (e.Allow? ==> AllBy(pre, e.at))
      && forall at :: AllBy(es, at) ==> AllBy(pre, at) && e.at <= at
  {
    assert forall i :: 0 <= i < |es| - 1 ==> es[..|es| - 1][i] == es[i];
  }

  lemma {:induction false} LastIsPast(c: Config, es: seq<Event>, ip: Ip, at: real)
    requires Ordered(es) && AllBy(es, at)
    ensures var s := Run(c, map[], es); ip in s ==> s[ip].last <= at
    decreases |es|
  {
    if es != [] {
      LastEvent(c, es, ip, at, at);
      EarlierEvents(es);
      LastIsPast(c, es[..|es| - 1], ip, at);
      hide Run, Grants, Level;
    }
  }

  /** Nothing was granted after the last refill of a bucket, nor since an evicted one could be opened again. */
  lemma {:induction false} NoGrantsFrom(c: Config, es: seq<Event>, ip: Ip, from: real, to: real)
    requires Ordered(es)
    requires var s := Run(c, map[], es); if ip in s then s[ip].last < from else AllBy(es, from)
    ensures Grants(c, map[], es, ip, from, to) == 0
    decreases |es|
  {
    if es != [] {
      var pre, e := es[..|es| - 1], es[|es| - 1];
      LastEvent(c, es, ip, from, to);
      EarlierEvents(es);
      hide Run, Grants, Level, AllBy, Ordered, Granted;
      if e.Allow? && e.ip == ip {
        LastIsPast(c, pre, ip, e.at);
        LaterBound(pre, e.at, from);
      }
      NoGrantsFrom(c, pre, ip, from, to);
    }
  }

  lemma LaterBound(es: seq<Event>, a: real, b: real)
    requires AllBy(es, a) && a <= b
    ensures AllBy(es, b)
  {
  }

  lemma {:induction false} GrantsUpTo(c: Config, s: Buckets, es: seq<Event>, ip: Ip, from: real, a: real, b: real)
    requires AllBy(es, a) && a <= b
    ensures Grants(c, s, es, ip, from, b) == Grants(c, s, es, ip, from, a)
    decreases |es|
  {
    if es != [] {
      hide Step, Granted;
      assert AllBy(es[1..], a);
      GrantsUpTo(c, Step(c, s, es[0]), es[1..], ip, from, a, b);
    }
  }

  lemma LevelAfter(c: Config, s: Buckets, e: Event, ip: Ip, at: real)
    ensures !(e.Allow? && e.ip == ip) && (ip in Step(c, s, e) || ip !in s) ==>
      Level(c, Step(c, s, e), ip, at) == Level(c, s, ip, at)
    ensures ip !in s ==> Level(c, s, ip, at) == c.burst as real
    ensures e.Allow? && e.ip == ip ==>
      var g := if Granted(c, s, ip, e.at) then 1.0 else 0.0;
      && ip in Step(c, s, e) && Step(c, s, e)[ip].last == e.at
      && Level(c, Step(c, s, e), ip, at) == Capped(c, Level(c, s, ip, e.at) - g + Earned(c, at - e.at))
    ensures Level(c, s, ip, at) <= c.burst as real
    ensures e.Cleanup? && ip in Step(c, s, e) ==> ip in s
  {
    hide Earned;
  }

  /** The tokens of a client are what some window up to now has left. */
  lemma {:induction false} LevelIsWindow(c: Config, es: seq<Event>, ip: Ip, at: real) returns (from: real)
    requires Ordered(es) && AllBy(es, at)
    ensures from <= at
    ensures Level(c, Run(c, map[], es), ip, at)
         == c.burst as real + Earned(c, at - from) - Grants(c, map[], es, ip, from, at) as real
    decreases |es|
  {
    EarnedGrows(c, 0.0);
    from := at;
    if es != [] {
      var pre, e := es[..|es| - 1], es[|es| - 1];
      var s, t := Run(c, map[], pre), Run(c, map[], es);
      LastEvent(c, es, ip, at, at);
      EarlierEvents(es);
      LevelAfter(c, s, e, ip, at);
      hide Run, Grants, Level, AllBy, Ordered, Granted, Step, Earned;
      if e.Allow? && e.ip == ip {
        var start := LevelIsWindow(c, pre, ip, e.at);
        LevelAfter(c, s, e, ip, e.at);
        var g := if Granted(c, s, ip, e.at) then 1.0 else 0.0;
        if Level(c, s, ip, e.at) - g + Earned(c, at - e.at) <= c.burst as real {
          from := start;
          LastEvent(c, es, ip, from, at);
          GrantsUpTo(c, map[], pre, ip, from, e.at, at);
          EarnedAdds(c, at - e.at, e.at - from);
          assert at - e.at + (e.at - from) == at - from;
        } else {
          NoGrantsFrom(c, es, ip, at, at);
        }
      } else if ip in t || ip !in s {
        from := LevelIsWindow(c, pre, ip, at);
        LastEvent(c, es, ip, from, at);
      } else {
        NoGrantsFrom(c, es, ip, at, at);
        LevelAfter(c, t, e, ip, at);
      }
    }
  }

  /** One more grant now keeps every window up to now within the burst plus what the window earns. */
  ghost predicate Affordable(c: Config, es: seq<Event>, ip: Ip, at: real) {
    forall from :: from <= at ==>
      (Grants(c, map[], es, ip, from, at) + 1) as real <= c.burst as real + c.rate as real * (at - from)
  }

  /**
   * When a minute fills a bucket, a query is granted in any run, evictions
   * included, exactly when every window up to now can afford it.
   */
  lemma GrantedExactly(c: Config, es: seq<Event>, ip: Ip, at: real)
    requires RefillsInAMinute(c) && Ordered(es + [Allow(ip, at)])
    ensures Granted(c, Run(c, map[], es), ip, at) <==> Affordable(c, es, ip, at)
  {
    hide *;
    var more := es + [Allow(ip, at)];
    var s := Run(c, map[], es);
    assert more[..|more| - 1] == es;
    EarlierEvents(more);
    NotGranted(c, s, ip, at);
    if Granted(c, s, ip, at) {
      forall from | from <= at ensures
        (Grants(c, map[], es, ip, from, at) + 1) as real <= c.burst as real + c.rate as real * (at - from)
      {
        LastEvent(c, more, ip, from, at);
        WindowBound(c, more, ip, from, at);
        EarnedIs(c, at - from);
      }
      AffordableIs(c, es, ip, at);
    } else {
      var from := LevelIsWindow(c, es, ip, at);
      EarnedIs(c, at - from);
      NotAffordable(c, es, ip, at, from);
    }
  }

  lemma EarnedIs(c: Config, dt: real)
    ensures Earned(c, dt) == c.rate as real * dt
  {
  }

  lemma AffordableIs(c: Config, es: seq<Event>, ip: Ip, at: real)
    requires forall from :: from <= at ==>
      (Grants(c, map[], es, ip, from, at) + 1) as real <= c.burst as real + c.rate as real * (at - from)
    ensures Affordable(c, es, ip, at)
  {
    hide Grants;
  }

  lemma NotAffordable(c: Config, es: seq<Event>, ip: Ip, at: real, from: real)
    requires from <= at
    requires (Grants(c, map[], es, ip, from, at) + 1) as real > c.burst as real + c.rate as real * (at - from)
    ensures !Affordable(c, es, ip, at)
  {
    hide Grants;
  }
}
