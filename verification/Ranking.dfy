/** Top-domain ranking of DNSCache in dns_tls_relay.py: two decaying counters and a self-tuned decay rate. */
module Ranking {
  import opened Wire

  /** A domain stands for its place in alphabetical order. */
  type Domain = nat

  type Scores = map<Domain, real>

  const TOP_DOMAIN_COUNT: nat := 20
  const MIN_SHARE: real := 0.1
  const STABILITY_DECAY: real := 0.95
  const ADAPT_MIN: real := 0.1
  const ADAPT_MAX: real := 0.5

  function Score(m: Scores, d: Domain): real { if d in m then m[d] else 0.0 }

  /** Every score times the rate, without those that fall below `least`. */
  function Decayed(m: Scores, rate: real, least: real): Scores {
    map d | d in m && !(Scaled(m[d], rate) < least) :: Scaled(m[d], rate)
  }

  function Scaled(score: real, rate: real): real { score * rate }

  function Combined(burst: Scores, stability: Scores): Scores {
    map d | d in burst.Keys + stability.Keys :: Score(burst, d) + Score(stability, d)
  }

  /** A possible result of `Counter.most_common`: the best first, ties in any order. */
  ghost predicate MostCommon(scores: Scores, ranked: seq<Domain>) {
    && (forall i :: 0 <= i < |ranked| ==> ranked[i] in scores)
    && (forall i, j :: 0 <= i < j < |ranked| ==> ranked[i] != ranked[j])
    && (forall i, d :: 0 <= i < |ranked| && d in scores ==> d in ranked[..i] || scores[d] <= scores[ranked[i]])
    && |ranked| <= TOP_DOMAIN_COUNT && (|ranked| < TOP_DOMAIN_COUNT ==> forall d :: d in scores ==> d in ranked)
  }

  function AtLeast(scores: Scores, ranked: seq<Domain>, bar: real): seq<Domain> {
    if ranked == [] then []
    else if Score(scores, ranked[0]) >= bar then [ranked[0]] + AtLeast(scores, ranked[1..], bar)
    else AtLeast(scores, ranked[1..], bar)
  }

  /** The ranked domains with at least a tenth of the leader's score. */
  function Qualifying(scores: Scores, ranked: seq<Domain>): seq<Domain> {
    AtLeast(scores, ranked, if ranked == [] then 0.0 else Score(scores, ranked[0]) * MIN_SHARE)
  }

  /** The first `m` ranked domains are the ones with at least a tenth of the leader's score. */
  predicate CutAtTenth(scores: Scores, ranked: seq<Domain>, m: nat) {
    && m <= |ranked|
    && (forall i :: 0 <= i < m ==> 10.0 * Score(scores, ranked[i]) >= Score(scores, ranked[0]))
    && (forall i :: m <= i < |ranked| ==> 10.0 * Score(scores, ranked[i]) < Score(scores, ranked[0]))
  }

  function Elements(s: seq<Domain>): set<Domain> { set d | d in s }

  predicate IsLeast(d: Domain, s: set<Domain>) { d in s && forall e :: e in s ==> d <= e }

  lemma {:induction false} LeastExists(s: set<Domain>)
    requires s != {}
    ensures exists d :: IsLeast(d, s)
  {
    var d :| d in s;
    var rest := s - {d};
    assert forall x :: x in s ==> x in rest || x == d;
    if rest != {} {
      LeastExists(rest);
      var e :| IsLeast(e, rest);
      assert IsLeast(if e < d then e else d, s);
    } else {
      assert IsLeast(d, s);
    }
  }

  /** The alphabetically first `n` of a set: no domain outside stands before one inside. */
  function First(s: set<Domain>, n: nat): (f: set<Domain>)
    ensures f <= s && |f| == if n < |s| then n else |s|
    ensures AllBefore(f, s - f)
    decreases n
  {
    if n == 0 || s == {} then {}
    else
      LeastExists(s);
      var d :| d in s && IsLeast(d, s);
      var rest := First(s - {d}, n - 1);
      LeastAndFirst(s, d, rest);
      {d} + rest
  }

  predicate AllBefore(f: set<Domain>, s: set<Domain>) { forall d, e :: d in f && e in s ==> d < e }

  lemma LeastAndFirst(s: set<Domain>, d: Domain, rest: set<Domain>)
    requires IsLeast(d, s) && rest <= s - {d} && AllBefore(rest, s - {d} - rest)
    ensures |s - {d}| == |s| - 1 && |{d} + rest| == |rest| + 1
    ensures AllBefore({d} + rest, s - ({d} + rest))
  {
    forall x, e | x in {d} + rest && e in s - ({d} + rest) ensures x < e {
      assert e in s - {d} - rest;
    }
  }

  /** The share of the domains of either set that are in one only; all is churn when there are none. */
  function Churn(before: set<Domain>, after: set<Domain>): (c: real)
    ensures 0.0 <= c <= 1.0
    ensures before == after && before != {} ==> c == 0.0
    ensures c * |after + before| as real == (|after + before| - |after * before|) as real
    ensures before == after == {} ==> c == 1.0
  {
    var union := |after + before|;
    var shared := |after * before|;
    SharedIsPart(before, after);
    if union == 0 then 1.0
    else
      ShareBounds(shared, union);
      1.0 - shared as real / union as real
  }

  lemma CommonSize(a: set<Domain>, b: set<Domain>)
    requires a !! b
    ensures |b * a| == 0
  {
    assert b * a == {};
  }

  lemma ShareBounds(part: nat, whole: nat)
    requires part <= whole && whole > 0
    ensures 0.0 <= part as real / whole as real <= 1.0
    ensures part == whole ==> part as real / whole as real == 1.0
    ensures (1.0 - part as real / whole as real) * whole as real == (whole - part) as real
  {
  }

  lemma SharedIsPart(a: set<Domain>, b: set<Domain>)
    ensures |b * a| <= |b + a|
    ensures a == b ==> |b * a| == |b + a|
    ensures a == b && a != {} ==> |b + a| > 0
  {
    Subset(b * a, b + a);
    if a == b { assert b * a == b + a; }
  }

  lemma {:induction false} Subset(a: set<Domain>, b: set<Domain>)
    requires a <= b
    ensures |a| <= |b|
  {
    if a != {} {
      var x :| x in a;
      Subset(a - {x}, b - {x});
    }
  }

  /** The new decay rate: halfway to a target between the bounds that grows with churn. */
  function Adapted(rate: real, before: set<Domain>, after: set<Domain>): real {
    if before == {} then rate
    else
      var churn := 0.3 * Churn(before, after) + 0.7 * Churn(First(before, 5), First(after, 5));
      (rate + (ADAPT_MIN + churn * (ADAPT_MAX - ADAPT_MIN))) / 2.0
  }

  datatype State = State(stability: Scores, burst: Scores, prevTop: set<Domain>, rate: real)

  const INIT := State(map[], map[], {}, ADAPT_MAX)

  function Noted(s: State, d: Domain): State {
    s.(stability := s.stability[d := Score(s.stability, d) + 1.0], burst := s.burst[d := Score(s.burst, d) + 1.0])
  }

  function Decay(s: State): State {
    s.(stability := Decayed(s.stability, STABILITY_DECAY, 1.0), burst := Decayed(s.burst, s.rate, 0.5))
  }

  function Total(s: State): Scores { Combined(s.burst, s.stability) }

  function Ranked(s: State, ranked: seq<Domain>): State {
    var t := Decay(s);
    var top := Elements(Qualifying(Total(t), ranked));
    t.(rate := Adapted(s.rate, s.prevTop, top), prevTop := top)
  }

  predicate Distinct(s: seq<Domain>) { forall i, j :: 0 <= i < j < |s| ==> s[i] != s[j] }

  function IndexOf(s: seq<Domain>, d: Domain): (i: nat)
    requires d in s
    ensures i < |s| && s[i] == d
  {
    if s[0] == d then 0 else 1 + IndexOf(s[1..], d)
  }

  /** The seed of the domain at place `i`: its place counted from the end. */
  function Count(loaded: seq<Domain>, i: nat): real { (|loaded| - 1 - i) as real }

  /** `max(3 - rank, 1)`. */
  function Boost(i: nat): real { if 3 - (i + 1) > 1 then (3 - (i + 1)) as real else 1.0 }

  function Counts(loaded: seq<Domain>): Scores { map d | d in loaded :: Count(loaded, IndexOf(loaded, d)) }

  function Boosts(loaded: seq<Domain>): Scores { map d | d in loaded :: Boost(IndexOf(loaded, d)) }

  function Loaded(s: State, loaded: seq<Domain>): State {
    s.(stability := Counts(loaded), burst := Boosts(loaded))
  }

  class DomainRanking {
    var domCounter: Scores
    var burstCounter: Scores
    var prevTopSet: set<Domain>
    var burstDecayRate: real

    ghost function Abs(): State
      reads this
    {
      State(domCounter, burstCounter, prevTopSet, burstDecayRate)
    }

    constructor ()
      ensures Abs() == INIT
    {
      domCounter, burstCounter, prevTopSet, burstDecayRate := map[], map[], {}, ADAPT_MAX;
    }

    method NoteLookup(d: Domain)
      modifies this
      ensures Abs() == Noted(old(Abs()), d)
    {
      domCounter := domCounter[d := Score(domCounter, d) + 1.0];
      burstCounter := burstCounter[d := Score(burstCounter, d) + 1.0];
    }

    /** Ranks are places in the result, from one. */
    method RankTopDomains() returns (ranking: seq<Domain>, ghost ranked: seq<Domain>)
      modifies this
      ensures MostCommon(Total(Decay(old(Abs()))), ranked)
      ensures |ranking| <= |ranked| && ranking == ranked[..|ranking|]
      ensures CutAtTenth(Total(Decay(old(Abs()))), ranked, |ranking|)
      ensures ranking == Qualifying(Total(Decay(old(Abs()))), ranked)
      ensures Abs() == Ranked(old(Abs()), ranked)
    {
      hide MostCommon, CutAtTenth, Qualifying, Adapted, Elements, Decayed, Combined;
      burstCounter := DecayCounter(burstCounter, burstDecayRate, 0.5);
      domCounter := DecayCounter(domCounter, STABILITY_DECAY, 1.0);
      var combined := Combined(burstCounter, domCounter);
      var best := MostCommonOf(combined);
      ranking := Qualifying(combined, best);
      QualifyingCut(combined, best);
      var top := Elements(ranking);
      burstDecayRate := Adapted(burstDecayRate, prevTopSet, top);
      prevTopSet := top;
      ranked := best;
    }

    /** `_load_top_domains`: counters seeded from a persisted ranking. */
    method LoadTopDomains(loaded: seq<Domain>)
      requires Distinct(loaded)
      modifies this
      ensures Abs() == Loaded(old(Abs()), loaded)
    {
      domCounter := CountReversed(loaded);
      burstCounter := BoostRanks(loaded);
    }
  }

  /** `enumerate(reversed(loaded))`. */
  method CountReversed(loaded: seq<Domain>) returns (m: Scores)
    requires Distinct(loaded)
    ensures m == Counts(loaded)
  {
    hide Count, IndexOf;
    CountIs(loaded);
    m := map[];
    for count := 0 to |loaded|
      invariant m.Keys == Elements(loaded[|loaded| - count..])
      invariant forall i :: |loaded| - count <= i < |loaded| ==> loaded[i] in m && m[loaded[i]] == Count(loaded, i)
    {
      var place := |loaded| - 1 - count;
      assert loaded[place..] == [loaded[place]] + loaded[place + 1..];
      m := m[loaded[place] := count as real];
    }
    assert loaded[0..] == loaded;
    forall d | d in loaded ensures m[d] == Count(loaded, IndexOf(loaded, d)) {
      assert loaded[IndexOf(loaded, d)] == d;
    }
  }

  lemma CountIs(loaded: seq<Domain>)
    ensures forall i: nat :: i < |loaded| ==> Count(loaded, i) == (|loaded| - 1 - i) as real
  {
  }

  /** `enumerate(loaded, 1)`. */
  method BoostRanks(loaded: seq<Domain>) returns (m: Scores)
    requires Distinct(loaded)
    ensures m == Boosts(loaded)
  {
    m := map[];
    for place := 0 to |loaded|
      invariant m.Keys == Elements(loaded[..place])
      invariant forall i :: 0 <= i < place ==> loaded[i] in m && m[loaded[i]] == Boost(i)
    {
      var rank := place + 1;
      assert loaded[..place + 1] == loaded[..place] + [loaded[place]];
      m := m[loaded[place] := if 3 - rank > 1 then (3 - rank) as real else 1.0];
    }
    assert loaded[..|loaded|] == loaded;
    forall d | d in loaded ensures m[d] == Boost(IndexOf(loaded, d)) {
      assert loaded[IndexOf(loaded, d)] == d;
    }
  }

  method DecayCounter(m: Scores, rate: real, least: real) returns (r: Scores)
    ensures r == Decayed(m, rate, least)
  {
    hide Scaled;
    r := m;
    var todo := m.Keys;
    while todo != {}
      invariant todo <= m.Keys && r.Keys <= m.Keys
      invariant forall d :: d in todo ==> d in r && r[d] == m[d]
      invariant forall d :: d in m && d !in todo ==> (d in r <==> !(Scaled(m[d], rate) < least))
      invariant forall d :: d in r && d !in todo ==> r[d] == Scaled(m[d], rate)
      decreases todo
    {
      var d :| d in todo;
      todo := todo - {d};
      var decayed := Scaled(m[d], rate);
      r := if decayed < least then r - {d} else r[d := decayed];
    }
  }

  predicate IsBest(d: Domain, rest: set<Domain>, scores: Scores)
    requires rest <= scores.Keys
  {
    d in rest && forall e :: e in rest ==> scores[e] <= scores[d]
  }

  lemma {:induction false} BestExists(rest: set<Domain>, scores: Scores)
    requires rest != {} && rest <= scores.Keys
    ensures exists d :: IsBest(d, rest, scores)
  {
    var d :| d in rest;
    var others := rest - {d};
    assert forall x :: x in rest ==> x in others || x == d;
    if others != {} {
      BestExists(others, scores);
      var e :| IsBest(e, others, scores);
      assert IsBest(if scores[d] < scores[e] then e else d, rest, scores);
    } else {
      assert IsBest(d, rest, scores);
    }
  }

  /** `Counter.most_common(20)`, with any choice among ties. */
  method MostCommonOf(scores: Scores) returns (ranked: seq<Domain>)
    ensures MostCommon(scores, ranked)
  {
    ranked := [];
    var rest := scores.Keys;
    while rest != {} && |ranked| < TOP_DOMAIN_COUNT
      invariant |ranked| <= TOP_DOMAIN_COUNT
      invariant rest <= scores.Keys && forall d :: d in scores ==> (d in rest <==> d !in ranked)
      invariant forall i :: 0 <= i < |ranked| ==> ranked[i] in scores
      invariant forall i, j :: 0 <= i < j < |ranked| ==> ranked[i] != ranked[j]
      invariant forall i, d :: 0 <= i < |ranked| && d in scores ==> d in ranked[..i] || scores[d] <= scores[ranked[i]]
      decreases rest
    {
      BestExists(rest, scores);
      var d :| d in rest && IsBest(d, rest, scores);
      ghost var before := ranked;
      ranked := ranked + [d];
      rest := rest - {d};
      assert forall i :: 0 <= i <= |before| ==> ranked[..i] == before[..i];
    }
  }

  // ---------------------------------------------------------------------------
  // Whole runs.

  /** The lookups noted between two rankings, and how the second one broke ties. */
  datatype Cycle = Cycle(lookups: seq<Domain>, ranked: seq<Domain>)

  function NotedAll(s: State, ds: seq<Domain>): State
    decreases |ds|
  {
    if ds == [] then s else NotedAll(Noted(s, ds[0]), ds[1..])
  }

  function Cycled(s: State, c: Cycle): State { Ranked(NotedAll(s, c.lookups), c.ranked) }

  function Run(s: State, cycles: seq<Cycle>): State
    decreases |cycles|
  {
    if cycles == [] then s else Run(Cycled(s, cycles[0]), cycles[1..])
  }

  lemma {:induction false} NotedKeepsRate(s: State, ds: seq<Domain>)
    ensures NotedAll(s, ds).rate == s.rate && NotedAll(s, ds).prevTop == s.prevTop
    decreases |ds|
  {
    if ds != [] { NotedKeepsRate(Noted(s, ds[0]), ds[1..]); }
  }

  lemma AdaptedInBounds(rate: real, before: set<Domain>, after: set<Domain>)
    requires ADAPT_MIN <= rate <= ADAPT_MAX
    ensures ADAPT_MIN <= Adapted(rate, before, after) <= ADAPT_MAX
    ensures before == after && before != {} ==>
      Adapted(rate, before, after) - ADAPT_MIN == (rate - ADAPT_MIN) / 2.0
  {
    hide First, Churn;
    if before == after && before != {} { FirstNonempty(before); }
  }

  /**
   * Churn in the alphabetically first five weighs seven tenths: where they
   * stay the same the new target rises by 0.12 at most, and when every domain
   * is replaced it is the upper bound.
   */
  lemma ChurnWeights(rate: real, before: set<Domain>, after: set<Domain>)
    requires before != {}
    ensures First(before, 5) == First(after, 5) ==>
      2.0 * Adapted(rate, before, after) - rate == 0.1 + 0.12 * Churn(before, after)
    ensures before !! after ==> 2.0 * Adapted(rate, before, after) - rate == 0.5
  {
    hide First;
    FirstNonempty(before);
    if before !! after {
      CommonSize(before, after);
      CommonSize(First(before, 5), First(after, 5));
      AllChurn(before, after);
      AllChurn(First(before, 5), First(after, 5));
    }
    hide Churn;
  }

  lemma AllChurn(a: set<Domain>, b: set<Domain>)
    requires a !! b && a != {}
    ensures Churn(a, b) == 1.0
  {
    CommonSize(a, b);
  }

  lemma FirstNonempty(s: set<Domain>)
    requires s != {}
    ensures First(s, 5) != {}
  {
  }

  /** The adaptive rate stays between its bounds in every run. */
  lemma {:induction false} RateInBounds(s: State, cycles: seq<Cycle>)
    requires ADAPT_MIN <= s.rate <= ADAPT_MAX
    ensures ADAPT_MIN <= Run(s, cycles).rate <= ADAPT_MAX
    decreases |cycles|
  {
    hide NotedAll, Qualifying, Adapted, Decay, Total;
    if cycles != [] {
      var c := cycles[0];
      NotedKeepsRate(s, c.lookups);
      DecayKeepsRate(NotedAll(s, c.lookups));
      AdaptedInBounds(s.rate, s.prevTop, Cycled(s, c).prevTop);
      RateInBounds(Cycled(s, c), cycles[1..]);
    }
  }

  lemma DecayKeepsRate(s: State)
    ensures Decay(s).rate == s.rate && Decay(s).prevTop == s.prevTop
  {
  }

  /** Every ranking of the run ends with the same top set. */
  predicate Stable(s: State, cycles: seq<Cycle>)
    decreases |cycles|
  {
    cycles == [] || (Cycled(s, cycles[0]).prevTop == s.prevTop && Stable(Cycled(s, cycles[0]), cycles[1..]))
  }

  function Power(n: nat): (p: real)
    ensures p > 0.0
  {
    if n == 0 then 1.0 else 2.0 * Power(n - 1)
  }

  /** While the nonempty top set does not change, each cycle halves the distance of the rate to its lower bound. */
  lemma {:induction false} StableRateHalves(s: State, cycles: seq<Cycle>)
    requires ADAPT_MIN <= s.rate <= ADAPT_MAX && s.prevTop != {} && Stable(s, cycles)
    ensures (Run(s, cycles).rate - ADAPT_MIN) * Power(|cycles|) == s.rate - ADAPT_MIN
    decreases |cycles|
  {
    hide NotedAll, Qualifying, Adapted, Decay, Total;
    if cycles != [] {
      var c := cycles[0];
      var t := Cycled(s, c);
      NotedKeepsRate(s, c.lookups);
      DecayKeepsRate(NotedAll(s, c.lookups));
      AdaptedInBounds(s.rate, s.prevTop, t.prevTop);
      StableRateHalves(t, cycles[1..]);
      var distance, power := Run(t, cycles[1..]).rate - ADAPT_MIN, Power(|cycles| - 1);
      assert distance * (2.0 * power) == 2.0 * (distance * power);
    }
  }

  function Times(ds: seq<Domain>, d: Domain): nat { multiset(ds)[d] }

  lemma {:induction false} NotedScores(s: State, ds: seq<Domain>, d: Domain)
    ensures Score(NotedAll(s, ds).burst, d) == Score(s.burst, d) + Times(ds, d) as real
    ensures Score(NotedAll(s, ds).stability, d) == Score(s.stability, d) + Times(ds, d) as real
    decreases |ds|
  {
    if ds != [] {
      NotedScores(Noted(s, ds[0]), ds[1..], d);
      assert ds == [ds[0]] + ds[1..];
      assert multiset(ds) == multiset{ds[0]} + multiset(ds[1..]);
    }
  }

  lemma DecayedScore(m: Scores, rate: real, least: real, most: real, d: Domain)
    requires 0.0 <= rate <= most && 0.0 <= Score(m, d) && 0.0 <= least
    ensures 0.0 <= Score(Decayed(m, rate, least), d) <= Score(m, d) * most
  {
    var x := Score(m, d);
    assert x * rate <= x * most;
  }

  predicate Bounded(s: State, d: Domain, limit: nat) {
    0.0 <= Score(s.burst, d) <= limit as real && 0.0 <= Score(s.stability, d) <= 19.0 * limit as real
  }

  lemma DecayBounds(t: State, d: Domain, limit: nat)
    requires ADAPT_MIN <= t.rate <= ADAPT_MAX
    requires 0.0 <= Score(t.burst, d) <= 2.0 * limit as real && 0.0 <= Score(t.stability, d) <= 20.0 * limit as real
    ensures 0.0 <= Score(Decayed(t.burst, t.rate, 0.5), d) <= limit as real
    ensures 0.0 <= Score(Decayed(t.stability, STABILITY_DECAY, 1.0), d) <= 19.0 * limit as real
  {
    hide Score, Decayed;
    DecayedScore(t.burst, t.rate, 0.5, ADAPT_MAX, d);
    DecayedScore(t.stability, STABILITY_DECAY, 1.0, STABILITY_DECAY, d);
  }

  lemma CycleBounds(s: State, c: Cycle, d: Domain, limit: nat)
    requires ADAPT_MIN <= s.rate <= ADAPT_MAX && Bounded(s, d, limit) && Times(c.lookups, d) <= limit
    ensures ADAPT_MIN <= Cycled(s, c).rate <= ADAPT_MAX && Bounded(Cycled(s, c), d, limit)
  {
    hide NotedAll, Cycled, Decayed, Score, Times, Adapted, Decay;
    var t := NotedAll(s, c.lookups);
    NotedScores(s, c.lookups, d);
    NotedKeepsRate(s, c.lookups);
    CycledScores(s, c);
    DecayKeepsRate(t);
    AdaptedInBounds(s.rate, s.prevTop, Cycled(s, c).prevTop);
    DecayBounds(t, d, limit);
  }

  /**
   * When a domain is looked up at most `limit` times a cycle, its burst score
   * after every ranking is at most `limit` and its stability score at most
   * nineteen times that.
   */
  lemma {:induction false} ScoresAreBounded(s: State, cycles: seq<Cycle>, d: Domain, limit: nat)
    requires ADAPT_MIN <= s.rate <= ADAPT_MAX && Bounded(s, d, limit)
    requires forall i :: 0 <= i < |cycles| ==> Times(cycles[i].lookups, d) <= limit
    ensures Bounded(Run(s, cycles), d, limit)
    decreases |cycles|
  {
    hide Cycled, Bounded, Times;
    if cycles != [] {
      CycleBounds(s, cycles[0], d, limit);
      ScoresAreBounded(Cycled(s, cycles[0]), cycles[1..], d, limit);
    }
  }

  lemma CycledScores(s: State, c: Cycle)
    ensures var t := NotedAll(s, c.lookups);
      && Cycled(s, c).burst == Decayed(t.burst, t.rate, 0.5)
      && Cycled(s, c).stability == Decayed(t.stability, STABILITY_DECAY, 1.0)
      && Cycled(s, c).rate == Adapted(Decay(t).rate, Decay(t).prevTop, Cycled(s, c).prevTop)
  {
  }

  // ---------------------------------------------------------------------------
  // Restart: a persisted ranking, loaded and ranked once.

  /** The score of place `i` of a loaded ranking of `n` domains after one decay. */
  function Restarted(n: nat, i: nat): real
    requires i < n
  {
    (if i == 0 then 1.0 else 0.5) + (if n - 1 - i >= 2 then 0.95 * (n - 1 - i) as real else 0.0)
  }

  lemma {:induction false} IndexOfPlace(s: seq<Domain>, i: nat)
    requires Distinct(s) && i < |s|
    ensures s[i] in s && IndexOf(s, s[i]) == i
  {
    if i > 0 {
      assert s[0] != s[i];
      assert Distinct(s[1..]) by { assert forall k :: 0 <= k < |s| - 1 ==> s[1..][k] == s[k + 1]; }
      IndexOfPlace(s[1..], i - 1);
    }
  }

  /** The seeds of a loaded ranking: places counted from the end, and a boost of two for the first, one for the rest. */
  lemma SeedsByPlace(s: State, loaded: seq<Domain>, i: nat)
    requires Distinct(loaded) && i < |loaded|
    ensures var t, d := Loaded(s, loaded), loaded[i];
      && d in t.stability && t.stability[d] == (|loaded| - 1 - i) as real
      && d in t.burst && t.burst[d] == if i == 0 then 2.0 else 1.0
    ensures Loaded(s, loaded).stability.Keys == Loaded(s, loaded).burst.Keys == Elements(loaded)
  {
    IndexOfPlace(loaded, i);
    hide IndexOf, Distinct;
  }

  lemma PlaceScore(s: State, loaded: seq<Domain>, i: nat)
    requires Distinct(loaded) && s.rate == ADAPT_MAX && i < |loaded|
    ensures var t := Decay(Loaded(s, loaded));
      && loaded[i] in t.burst && t.burst[loaded[i]] == (if i == 0 then 1.0 else 0.5)
      && Score(t.stability, loaded[i]) == if |loaded| - 1 - i >= 2 then 0.95 * (|loaded| - 1 - i) as real else 0.0
  {
    IndexOfPlace(loaded, i);
    hide IndexOf, Distinct;
    assert Loaded(s, loaded).stability[loaded[i]] == (|loaded| - 1 - i) as real;
  }

  lemma RestartScores(s: State, loaded: seq<Domain>)
    requires Distinct(loaded) && s.rate == ADAPT_MAX
    ensures var scores := Total(Decay(Loaded(s, loaded)));
      && scores.Keys == Elements(loaded)
      && forall i :: 0 <= i < |loaded| ==> loaded[i] in scores && scores[loaded[i]] == Restarted(|loaded|, i)
  {
    forall i | 0 <= i < |loaded|
      ensures var scores := Total(Decay(Loaded(s, loaded)));
        loaded[i] in scores && scores[loaded[i]] == Restarted(|loaded|, i)
    {
      PlaceScore(s, loaded, i);
      hide Decay, Loaded;
    }
    RestartKeys(s, loaded);
  }

  lemma RestartKeys(s: State, loaded: seq<Domain>)
    requires Distinct(loaded) && s.rate == ADAPT_MAX
    ensures Total(Decay(Loaded(s, loaded))).Keys == Elements(loaded)
  {
    forall d | d in loaded ensures d in Decay(Loaded(s, loaded)).burst {
      var i :| 0 <= i < |loaded| && loaded[i] == d;
      PlaceScore(s, loaded, i);
    }
    hide Distinct, Scaled, Score;
  }

  lemma RestartedFalls(n: nat, i: nat, j: nat)
    requires i < j < n
    ensures Restarted(n, j) <= Restarted(n, i)
    ensures (i < n - 2 || n <= 2) ==> Restarted(n, j) < Restarted(n, i)
  {
  }

  lemma NextInOrder(scores: Scores, loaded: seq<Domain>, ranked: seq<Domain>, k: nat)
    requires Distinct(loaded) && MostCommon(scores, ranked) && k < |ranked| && k < |loaded|
    requires scores.Keys == Elements(loaded) && ranked[..k] == loaded[..k]
    requires forall j :: k < j < |loaded| ==> Score(scores, loaded[j]) < Score(scores, loaded[k])
    ensures ranked[k] == loaded[k]
  {
    hide *;
    RankedPlace(scores, loaded, ranked, k);
    var i := PlaceOf(scores, loaded, ranked, k);
    RankedFacts(scores, ranked);
    NotEarlier(loaded, ranked, i, k, k);
  }

  /** Where two distinct rankings share their first `k` places, a later domain of one is a later one of the other. */
  lemma NotEarlier(loaded: seq<Domain>, ranked: seq<Domain>, i: nat, k: nat, j: nat)
    requires Distinct(ranked) && k <= j < |ranked| && k <= |loaded| && ranked[..k] == loaded[..k]
    requires i < |loaded| && loaded[i] == ranked[j]
    ensures i >= k
  {
    assert forall l :: 0 <= l < k ==> ranked[l] == ranked[..k][l] == loaded[..k][l] == loaded[l];
  }

  /** A domain whose place is not yet taken scores no more than the next one ranked. */
  lemma RankedPlace(scores: Scores, loaded: seq<Domain>, ranked: seq<Domain>, k: nat)
    requires Distinct(loaded) && MostCommon(scores, ranked) && k < |ranked| && k < |loaded|
    requires scores.Keys == Elements(loaded) && ranked[..k] == loaded[..k]
    ensures Score(scores, loaded[k]) <= Score(scores, ranked[k])
  {
    var d := loaded[k];
    assert d in Elements(loaded) && d in scores && ranked[k] in scores;
    assert d !in ranked[..k] by {
      hide MostCommon;
      forall i | 0 <= i < k ensures ranked[..k][i] != d { assert ranked[..k][i] == loaded[..k][i] == loaded[i]; }
    }
  }

  /** Where the scores of the places fall strictly, every ranking puts them in order. */
  lemma {:induction false} RankedInOrder(scores: Scores, loaded: seq<Domain>, ranked: seq<Domain>, k: nat)
    requires Distinct(loaded) && MostCommon(scores, ranked) && k <= |ranked| && k <= |loaded|
    requires scores.Keys == Elements(loaded)
    requires forall i :: 0 <= i < |loaded| ==> Score(scores, loaded[i]) == Restarted(|loaded|, i)
    requires k <= |loaded| - 2 || |loaded| <= 2
    ensures ranked[..k] == loaded[..k]
  {
    hide MostCommon, Distinct, Elements, Score, Restarted;
    if k > 0 {
      RankedInOrder(scores, loaded, ranked, k - 1);
      forall j | k - 1 < j < |loaded| ensures Score(scores, loaded[j]) < Score(scores, loaded[k - 1]) {
        RestartedFalls(|loaded|, k - 1, j);
      }
      NextInOrder(scores, loaded, ranked, k - 1);
      assert ranked[..k] == ranked[..k - 1] + [ranked[k - 1]] && loaded[..k] == loaded[..k - 1] + [loaded[k - 1]];
    }
  }

  lemma {:induction false} AtLeastConcat(scores: Scores, a: seq<Domain>, b: seq<Domain>, bar: real)
    ensures AtLeast(scores, a + b, bar) == AtLeast(scores, a, bar) + AtLeast(scores, b, bar)
  {
    hide *;
    AtLeastNone(scores, bar);
    if a == [] {
      assert a + b == b;
    } else {
      AtLeastConcat(scores, a[1..], b, bar);
      FirstOfConcat(a, b);
      AtLeastFirst(scores, a, bar);
      AtLeastFirst(scores, a + b, bar);
      Associative([a[0]], AtLeast(scores, a[1..], bar), AtLeast(scores, b, bar));
    }
  }

  lemma AtLeastNone(scores: Scores, bar: real)
    ensures AtLeast(scores, [], bar) == []
  {
  }

  lemma AtLeastFirst(scores: Scores, ds: seq<Domain>, bar: real)
    requires ds != []
    ensures AtLeast(scores, ds, bar) == if Score(scores, ds[0]) >= bar then [ds[0]] + AtLeast(scores, ds[1..], bar)
                                        else AtLeast(scores, ds[1..], bar)
  {
  }

  lemma {:induction false} AtLeastAll(scores: Scores, ds: seq<Domain>, bar: real)
    ensures (forall i :: 0 <= i < |ds| ==> Score(scores, ds[i]) >= bar) ==> AtLeast(scores, ds, bar) == ds
    ensures (forall i :: 0 <= i < |ds| ==> Score(scores, ds[i]) < bar) ==> AtLeast(scores, ds, bar) == []
  {
    if ds != [] {
      AtLeastAll(scores, ds[1..], bar);
      assert forall i :: 0 <= i < |ds| - 1 ==> ds[1..][i] == ds[i + 1];
      assert ds == [ds[0]] + ds[1..];
    }
  }

  /** A bar cuts a falling sequence to a prefix. */
  lemma {:induction false} AtLeastPrefix(scores: Scores, ds: seq<Domain>, bar: real) returns (m: nat)
    requires forall i, j :: 0 <= i < j < |ds| ==> Score(scores, ds[j]) <= Score(scores, ds[i])
    ensures m <= |ds| && AtLeast(scores, ds, bar) == ds[..m]
    ensures forall i :: 0 <= i < m ==> Score(scores, ds[i]) >= bar
    ensures forall i :: m <= i < |ds| ==> Score(scores, ds[i]) < bar
  {
    m := 0;
    if ds != [] {
      if Score(scores, ds[0]) >= bar {
        assert forall i :: 0 <= i < |ds| - 1 ==> ds[1..][i] == ds[i + 1];
        m := AtLeastPrefix(scores, ds[1..], bar);
        m := m + 1;
        assert ds[..m] == [ds[0]] + ds[1..][..m - 1];
      } else {
        AtLeastAll(scores, ds, bar);
        assert forall i :: 0 < i < |ds| ==> Score(scores, ds[i]) <= Score(scores, ds[0]);
      }
    }
  }

  lemma {:induction false} DistinctSize(s: seq<Domain>)
    requires Distinct(s)
    ensures |Elements(s)| == |s|
  {
    if s != [] {
      var n := |s| - 1;
      DistinctSize(s[..n]);
      assert s[n] !in s[..n];
      assert s == s[..n] + [s[n]];
      assert Elements(s) == Elements(s[..n]) + {s[n]};
    }
  }

  lemma RankedFacts(scores: Scores, ranked: seq<Domain>)
    requires MostCommon(scores, ranked)
    ensures Distinct(ranked) && Elements(ranked) <= scores.Keys && |ranked| <= TOP_DOMAIN_COUNT
    ensures |ranked| < TOP_DOMAIN_COUNT ==> scores.Keys <= Elements(ranked)
  {
  }

  lemma SameSize(a: set<Domain>, b: set<Domain>)
    requires a <= b && |a| == |b|
    ensures a == b
  {
    if b != a {
      var x :| x in b && x !in a;
      Subset(a, b - {x});
    }
  }

  lemma RankedSize(scores: Scores, loaded: seq<Domain>, ranked: seq<Domain>)
    requires Distinct(loaded) && MostCommon(scores, ranked) && scores.Keys == Elements(loaded)
    ensures |ranked| == if |loaded| < TOP_DOMAIN_COUNT then |loaded| else TOP_DOMAIN_COUNT
    ensures |loaded| <= TOP_DOMAIN_COUNT ==> Elements(ranked) == Elements(loaded)
  {
    hide MostCommon, Distinct, Elements;
    RankedFacts(scores, ranked);
    DistinctSize(loaded);
    DistinctSize(ranked);
    Subset(Elements(ranked), Elements(loaded));
    if |ranked| < TOP_DOMAIN_COUNT { Subset(Elements(loaded), Elements(ranked)); }
    if |loaded| == TOP_DOMAIN_COUNT { SameSize(Elements(ranked), Elements(loaded)); }
  }

  /** `q` is a prefix of `loaded` as a set and, but for the last two of `loaded`, in order. */
  ghost predicate KeepsOrder(loaded: seq<Domain>, q: seq<Domain>) {
    && |q| <= |loaded|
    && Elements(q) == Elements(loaded[..|q|])
    && forall j :: 0 <= j < |q| && (j < |loaded| - 2 || |loaded| <= 2) ==> q[j] == loaded[j]
  }

  lemma SamePrefix(a: seq<Domain>, b: seq<Domain>, k: nat)
    requires k <= |a| && k <= |b| && a[..k] == b[..k]
    ensures forall j :: 0 <= j < k ==> a[j] == b[j]
  {
    assert forall j :: 0 <= j < k ==> a[j] == a[..k][j] == b[..k][j] == b[j];
  }

  lemma PlaceOf(scores: Scores, loaded: seq<Domain>, ranked: seq<Domain>, i: nat) returns (k: nat)
    requires MostCommon(scores, ranked) && scores.Keys == Elements(loaded) && i < |ranked|
    ensures k < |loaded| && loaded[k] == ranked[i]
  {
    assert ranked[i] in scores;
    k :| 0 <= k < |loaded| && loaded[k] == ranked[i];
  }

  /** Whatever the ranking, the qualifying domains are those with at least a tenth of the leader's score. */
  lemma QualifyingCut(scores: Scores, ranked: seq<Domain>)
    requires MostCommon(scores, ranked)
    ensures var q := Qualifying(scores, ranked);
      |q| <= |ranked| && q == ranked[..|q|] && CutAtTenth(scores, ranked, |q|)
  {
    RankedFalls(scores, ranked);
    hide MostCommon, Score, AtLeast;
    var m := AtLeastPrefix(scores, ranked, if ranked == [] then 0.0 else Score(scores, ranked[0]) * MIN_SHARE);
  }

  lemma RankedFalls(scores: Scores, ranked: seq<Domain>)
    requires MostCommon(scores, ranked)
    ensures forall i, j :: 0 <= i < j < |ranked| ==> Score(scores, ranked[j]) <= Score(scores, ranked[i])
  {
    forall i, j | 0 <= i < j < |ranked| ensures Score(scores, ranked[j]) <= Score(scores, ranked[i]) {
      assert ranked[j] !in ranked[..i];
    }
  }

  /** Every place of the new ranking has the score of that place of the loaded one, even where the last two swap. */
  lemma RankedScores(scores: Scores, loaded: seq<Domain>, ranked: seq<Domain>, i: nat)
    requires Distinct(loaded) && MostCommon(scores, ranked) && scores.Keys == Elements(loaded) && i < |ranked|
    requires forall i :: 0 <= i < |loaded| ==> Score(scores, loaded[i]) == Restarted(|loaded|, i)
    ensures i < |loaded| && Score(scores, ranked[i]) == Restarted(|loaded|, i)
    ensures (i < |loaded| - 2 || |loaded| <= 2) ==> ranked[i] == loaded[i]
  {
    hide *;
    RankedSize(scores, loaded, ranked);
    TopIsTwenty();
    var n := |loaded|;
    var all := if n <= 2 then n else n - 2;
    var k := if |ranked| < all then |ranked| else all;
    RankedInOrder(scores, loaded, ranked, k);
    SamePrefix(ranked, loaded, k);
    if i >= k {
      RankedFacts(scores, ranked);
      var p := PlaceOf(scores, loaded, ranked, i);
      NotEarlier(loaded, ranked, p, k, i);
      RestartedLow(n, p);
      RestartedLow(n, i);
    }
  }

  lemma TopIsTwenty()
    ensures TOP_DOMAIN_COUNT == 20
  {
  }

  lemma RestartedLow(n: nat, i: nat)
    requires 2 < n && n - 2 <= i < n
    ensures Restarted(n, i) == 0.5
  {
  }

  /**
   * How many of `n` loaded domains stay: the at most 20 places whose score is
   * at least a tenth of the first one's.
   */
  predicate StaysTo(n: nat, m: nat) {
    && m <= n && m <= 20
    && (forall i: nat :: i < m ==> 10.0 * Restarted(n, i) >= Restarted(n, 0))
    && (m < n && m < 20 ==> 10.0 * Restarted(n, m) < Restarted(n, 0))
  }

  lemma RestartSize(scores: Scores, loaded: seq<Domain>, ranked: seq<Domain>, m: nat)
    requires Distinct(loaded) && MostCommon(scores, ranked) && scores.Keys == Elements(loaded)
    requires forall i :: 0 <= i < |loaded| ==> Score(scores, loaded[i]) == Restarted(|loaded|, i)
    requires CutAtTenth(scores, ranked, m)
    ensures StaysTo(|loaded|, m)
  {
    hide MostCommon, Distinct, Elements, Score, Restarted;
    RankedSize(scores, loaded, ranked);
    forall i | 0 <= i < |ranked| ensures i < |loaded| && Score(scores, ranked[i]) == Restarted(|loaded|, i) {
      RankedScores(scores, loaded, ranked, i);
    }
  }

  /** The last two places stay together or go together. */
  lemma LastTwo(n: nat, m: nat)
    requires StaysTo(n, m) && n > 2
    ensures m <= n - 2 || m == n
    ensures n <= 5 ==> m == n
  {
    RestartedLow(n, n - 1);
    RestartedLow(n, n - 2);
    assert Restarted(n, 0) == 1.0 + 0.95 * (n - 1) as real;
    if m < n { RestartedAtLeast(n, m); }
  }

  lemma RestartedAtLeast(n: nat, i: nat)
    requires i < n
    ensures Restarted(n, i) >= 0.5
  {
  }

  lemma CutKeepsOrder(scores: Scores, loaded: seq<Domain>, ranked: seq<Domain>, m: nat)
    requires Distinct(loaded) && MostCommon(scores, ranked) && scores.Keys == Elements(loaded)
    requires forall i :: 0 <= i < |loaded| ==> Score(scores, loaded[i]) == Restarted(|loaded|, i)
    requires m <= |ranked| && StaysTo(|loaded|, m)
    ensures KeepsOrder(loaded, ranked[..m])
    ensures |loaded| <= 5 ==> m == |loaded|
  {
    hide MostCommon, Distinct, Elements, Score, Restarted, StaysTo;
    RankedSize(scores, loaded, ranked);
    forall i | 0 <= i < m && (i < |loaded| - 2 || |loaded| <= 2) ensures i < |loaded| && ranked[i] == loaded[i] {
      RankedScores(scores, loaded, ranked, i);
    }
    var n := |loaded|;
    if n > 2 { LastTwo(n, m); } else { FewStay(n, m); }
    if m == n {
      assert ranked[..m] == ranked && loaded[..m] == loaded;
    } else {
      assert ranked[..m] == loaded[..m];
    }
  }

  lemma FewStay(n: nat, m: nat)
    requires StaysTo(n, m) && n <= 2
    ensures m == n
  {
    if n == 2 { assert Restarted(2, 1) == 0.5 && Restarted(2, 0) == 1.0; }
  }

  /**
   * Loading a persisted ranking of any length and ranking once without
   * lookups gives, however ties are broken, at most 20 domains: a prefix of
   * it as a set, in the same order except that its last two may swap. It is
   * the prefix of the places with at least a tenth of the first one's score,
   * and so all of a ranking of at most five.
   */
  lemma RestartKeepsOrder(s: State, loaded: seq<Domain>, ranked: seq<Domain>)
    requires Distinct(loaded) && s.rate == ADAPT_MAX
    requires MostCommon(Total(Decay(Loaded(s, loaded))), ranked)
    ensures var q := Qualifying(Total(Decay(Loaded(s, loaded))), ranked);
      && |q| <= 20 && KeepsOrder(loaded, q) && StaysTo(|loaded|, |q|)
      && (|loaded| <= 5 ==> |q| == |loaded|)
  {
    var scores := Total(Decay(Loaded(s, loaded)));
    RestartScores(s, loaded);
    hide *;
    QualifyingCut(scores, ranked);
    var m := |Qualifying(scores, ranked)|;
    RestartSize(scores, loaded, ranked, m);
    StaysAtMost(|loaded|, m);
    CutKeepsOrder(scores, loaded, ranked, m);
  }

  lemma StaysAtMost(n: nat, m: nat)
    requires StaysTo(n, m)
    ensures m <= 20
  {
  }

  /** What is left of a score after one decay. */
  function Left(score: real, rate: real, least: real): real {
    if score * rate < least then 0.0 else score * rate
  }

  /**
   * The scores that a ranking after some lookups goes by: the burst score
   * decays with the adaptive rate and is dropped below 0.5, the stability
   * score decays by 0.95 and is dropped below 1.
   */
  lemma RankedBy(s: State, lookups: seq<Domain>, d: Domain)
    ensures var total, n := Total(Decay(NotedAll(s, lookups))), Times(lookups, d) as real;
      Score(total, d) == Left(Score(s.burst, d) + n, s.rate, 0.5) + Left(Score(s.stability, d) + n, 0.95, 1.0)
  {
    NotedScores(s, lookups, d);
    NotedKeepsRate(s, lookups);
    hide NotedAll, Times;
    var t := NotedAll(s, lookups);
    LeftOf(t.burst, t.rate, 0.5, d);
    LeftOf(t.stability, STABILITY_DECAY, 1.0, d);
    hide Left, Decayed;
  }

  lemma LeftOf(m: Scores, rate: real, least: real, d: Domain)
    requires least > 0.0
    ensures Score(Decayed(m, rate, least), d) == Left(Score(m, d), rate, least)
  {
  }
}
