/** DNSCache of dns_tls_relay.py: records with a lazily cleaned expiry heap, and the negative cache. */
module Cache {
  import opened Wire
  import opened Rewrite

  const NEGATIVE_TTL: real := 30.0

  datatype Lookup = Miss | Hit(ttl: nat, records: seq<Record>)

  /** The two dictionaries, without the heap that indexes the first. */
  datatype Table = Table(store: map<Octets, CacheEntry>, negative: map<Octets, real>)

  /** What a search at clock reading `now` answers from an entry. */
  function Served(e: CacheEntry, now: real): Lookup {
    var left := e.expire - now.Floor;
    if left > DEFAULT_TTL then Hit(DEFAULT_TTL, e.records)
    else if left > 0 then Hit(left, e.records)
    else Miss
  }

  function SearchIn(store: map<Octets, CacheEntry>, qname: Octets, now: real): Lookup {
    if qname == [] || qname !in store then Miss else Served(store[qname], now)
  }

  function Swept(store: map<Octets, CacheEntry>, now: real): map<Octets, CacheEntry> {
    map q | q in store && store[q].expire as real > now :: store[q]
  }

  predicate IsNegativeIn(negative: map<Octets, real>, qname: Octets, now: real) {
    qname in negative && now < negative[qname]
  }

  datatype Op =
    | Add(qname: Octets, entry: CacheEntry)
    | Sweep(at: real)
    | AddNegative(qname: Octets, at: real)
    | CheckNegative(qname: Octets, at: real)
    | SweepNegative(at: real)

  function Step(t: Table, op: Op): Table {
    match op
    case Add(q, e) => t.(store := t.store[q := e])
    case Sweep(at) => t.(store := Swept(t.store, at))
    case AddNegative(q, at) => t.(negative := t.negative[q := at + NEGATIVE_TTL])
    case CheckNegative(q, at) =>
      if q in t.negative && !(at < t.negative[q]) then t.(negative := t.negative - {q}) else t
    case SweepNegative(at) => t.(negative := map q | q in t.negative && !(t.negative[q] < at) :: t.negative[q])
  }

  type Expiry = (int, Octets)

  lemma {:induction false} LeastExists(heap: multiset<Expiry>) returns (e: Expiry)
    requires heap != multiset{}
    ensures e in heap && forall x :: x in heap ==> e.0 <= x.0
    decreases |heap|
  {
    var first :| first in heap;
    var rest := heap - multiset{first};
    assert forall x :: x in heap ==> x in rest || x == first;
    e := first;
    if rest != multiset{} {
      var f := LeastExists(rest);
      if f.0 < first.0 { e := f; }
    }
  }

  /** `left` is `whole` without some of the entries that are due at `now`. */
  ghost predicate Thinned(whole: map<Octets, CacheEntry>, left: map<Octets, CacheEntry>, now: real) {
    && (forall q :: q in left ==> q in whole && left[q] == whole[q])
    && (forall q :: q in whole && whole[q].expire as real > now ==> q in left)
  }

  ghost predicate Remaining(whole: multiset<Expiry>, left: multiset<Expiry>, now: real) {
    && left <= whole
    && forall e: Expiry :: e.0 as real > now ==> left[e] == whole[e]
  }

  lemma NothingDropped(store: map<Octets, CacheEntry>, heap: multiset<Expiry>, now: real)
    ensures Thinned(store, store, now) && Remaining(heap, heap, now)
  {
  }

  lemma ThinnedByOne(whole: map<Octets, CacheEntry>, left: map<Octets, CacheEntry>, q: Octets, now: real)
    requires Thinned(whole, left, now) && q in left && left[q].expire as real <= now
    ensures Thinned(whole, left - {q}, now)
  {
  }

  lemma RemainingWithoutOne(whole: multiset<Expiry>, left: multiset<Expiry>, e: Expiry, now: real)
    requires Remaining(whole, left, now) && e in left && e.0 as real <= now
    ensures Remaining(whole, left - multiset{e}, now)
  {
  }

  lemma SweptIsThinned(whole: map<Octets, CacheEntry>, left: map<Octets, CacheEntry>, now: real)
    requires Thinned(whole, left, now) && forall q :: q in left ==> left[q].expire as real > now
    ensures left == Swept(whole, now)
    ensures forall q :: q in left <==> q in whole && whole[q].expire as real > now
    ensures forall q :: q in left ==> left[q] == whole[q]
  {
  }

  lemma SweepStep(t: Table, at: real)
    ensures Step(t, Sweep(at)) == t.(store := Swept(t.store, at))
  {
    hide Swept;
  }

  /** The expiry of every stored record is in the heap, among stale and duplicate entries. */
  ghost predicate Indexed(store: map<Octets, CacheEntry>, heap: multiset<Expiry>) {
    forall q :: q in store ==> (store[q].expire, q) in heap
  }

  lemma IndexedLater(store: map<Octets, CacheEntry>, heap: multiset<Expiry>, now: real)
    requires Indexed(store, heap) && forall x :: x in heap ==> x.0 as real > now
    ensures forall q :: q in store ==> store[q].expire as real > now
  {
    forall q | q in store ensures store[q].expire as real > now {
      assert (store[q].expire, q) in heap;
    }
  }

  /** Popping an entry and dropping the record it speaks of, unless that was replaced. */
  lemma PopKeepsIndex(store: map<Octets, CacheEntry>, heap: multiset<Expiry>, e: Expiry)
    requires Indexed(store, heap) && e in heap
    ensures var stale := e.1 in store && store[e.1].expire == e.0;
      Indexed(if stale then store - {e.1} else store, heap - multiset{e})
  {
    var stale := e.1 in store && store[e.1].expire == e.0;
    var left := if stale then store - {e.1} else store;
    forall q | q in left ensures (left[q].expire, q) in heap - multiset{e} {
      assert (store[q].expire, q) in heap && (store[q].expire, q) != e;
    }
  }

  class DnsCache {
    var store: map<Octets, CacheEntry>
    var expiryHeap: multiset<Expiry>
    var negative: map<Octets, real>

    ghost function Abs(): Table
      reads this
    {
      Table(store, negative)
    }

    ghost predicate Valid()
      reads this
    {
      Indexed(store, expiryHeap)
    }

    constructor ()
      ensures Valid() && Abs() == Table(map[], map[])
    {
      store, expiryHeap, negative := map[], multiset{}, map[];
    }

    method AddRecord(qname: Octets, entry: CacheEntry)
      requires Valid()
      modifies this
      ensures Valid() && Abs() == Step(old(Abs()), Add(qname, entry))
      ensures expiryHeap == old(expiryHeap) + multiset{(entry.expire, qname)}
    {
      store := store[qname := entry];
      expiryHeap := expiryHeap + multiset{(entry.expire, qname)};
    }

    method Search(qname: Octets, now: real) returns (r: Lookup)
      ensures r == SearchIn(store, qname, now)
      ensures r.Hit? <==> qname != [] && qname in store && store[qname].expire > now.Floor
      ensures r.Hit? ==>
        && var left := store[qname].expire - now.Floor;
        r.records == store[qname].records && r.ttl <= left && r.ttl <= 3600 && (r.ttl == left || r.ttl == 3600)
    {
      if qname == [] { return Miss; }
      if qname !in store { return Miss; }
      var record := store[qname];
      var left := record.expire - now.Floor;
      if left > DEFAULT_TTL {
        return Hit(DEFAULT_TTL, record.records);
      } else if left > 0 {
        return Hit(left, record.records);
      } else {
        return Miss;
      }
    }

    /** `heapq.heappop`: removes one entry with the least expiry; ties go to any. */
    method HeapPop() returns (e: Expiry)
      requires expiryHeap != multiset{}
      modifies this`expiryHeap
      ensures e in old(expiryHeap) && forall x :: x in old(expiryHeap) ==> e.0 <= x.0
      ensures expiryHeap == old(expiryHeap) - multiset{e}
    {
      ghost var least := LeastExists(expiryHeap);
      e :| e in expiryHeap && forall x :: x in expiryHeap ==> e.0 <= x.0;
      expiryHeap := expiryHeap - multiset{e};
    }

    /** Whether `heap[0][0] <= now`. */
    predicate HeapDue(now: real)
      reads this`expiryHeap
    {
      exists x :: x in expiryHeap && x.0 as real <= now
    }

    /** Drops due heap entries; an entry takes its record along only if the record has not been replaced since. */
    method AutoClearCache(now: real)
      requires Valid()
      modifies this
      ensures Valid() && Abs() == Step(old(Abs()), Sweep(now))
      ensures forall q :: q in store <==> q in old(store) && old(store)[q].expire as real > now
      ensures forall q :: q in store ==> store[q] == old(store)[q]
      ensures Remaining(old(expiryHeap), expiryHeap, now) && forall x :: x in expiryHeap ==> x.0 as real > now
    {
      hide Thinned, Remaining, Swept, Step, Indexed;
      SweepStep(Abs(), now);
      NothingDropped(store, expiryHeap, now);
      while HeapDue(now)
        invariant Valid() && negative == old(negative)
        invariant Thinned(old(store), store, now)
        invariant Remaining(old(expiryHeap), expiryHeap, now)
        decreases |expiryHeap|
      {
        ghost var heap, kept := expiryHeap, store;
        var entry := HeapPop();
        PopKeepsIndex(kept, heap, entry);
        var (expire, qname) := entry;
        assert expire as real <= now;
        if qname in store && store[qname].expire == expire {
          store := store - {qname};
          ThinnedByOne(old(store), kept, qname, now);
        }
        RemainingWithoutOne(old(expiryHeap), heap, entry, now);
      }
      IndexedLater(store, expiryHeap, now);
      SweptIsThinned(old(store), store, now);
    }

    method AddNegativeName(qname: Octets, now: real)
      requires Valid()
      modifies this`negative
      ensures Valid() && Abs() == Step(old(Abs()), AddNegative(qname, now))
    {
      negative := negative[qname := now + NEGATIVE_TTL];
    }

    method IsNegative(qname: Octets, now: real) returns (r: bool)
      requires Valid()
      modifies this`negative
      ensures Valid() && Abs() == Step(old(Abs()), CheckNegative(qname, now))
      ensures r <==> qname in old(negative) && now < old(negative)[qname]
      ensures negative == if r then old(negative) else old(negative) - {qname}
    {
      if qname in negative {
        if now < negative[qname] { return true; }
        negative := negative - {qname};
      }
      return false;
    }

    method AutoClearNegative(now: real)
      requires Valid()
      modifies this`negative
      ensures Valid() && Abs() == Step(old(Abs()), SweepNegative(now))
      ensures forall q :: q in negative <==> q in old(negative) && now <= old(negative)[q]
      ensures forall q :: q in negative ==> negative[q] == old(negative)[q]
    {
      negative := map q | q in negative && !(negative[q] < now) :: negative[q];
    }
  }

  // ---------------------------------------------------------------------------
  // Runs.

  function Run(t: Table, ops: seq<Op>): Table
    decreases |ops|
  {
    if ops == [] then t else Step(Run(t, ops[..|ops| - 1]), ops[|ops| - 1])
  }

  const EMPTY := Table(map[], map[])

  /** The record the last add stored under `qname`. */
  function LastAdded(ops: seq<Op>, qname: Octets): Option<CacheEntry>
    decreases |ops|
  {
    if ops == [] then None
    else
      var op := ops[|ops| - 1];
      if op.Add? && op.qname == qname then Some(op.entry) else LastAdded(ops[..|ops| - 1], qname)
  }

  /** When the name was last entered into the negative cache. */
  function LastNegative(ops: seq<Op>, qname: Octets): Option<real>
    decreases |ops|
  {
    if ops == [] then None
    else
      var op := ops[|ops| - 1];
      if op.AddNegative? && op.qname == qname then Some(op.at) else LastNegative(ops[..|ops| - 1], qname)
  }

  /** The clock readings of the operations are not after `now`. */
  predicate Before(ops: seq<Op>, now: real) {
    forall i :: 0 <= i < |ops| && !ops[i].Add? ==> ops[i].at <= now
  }

  lemma {:induction false} StoreFollowsAdds(ops: seq<Op>, qname: Octets, now: real)
    requires Before(ops, now)
    ensures var store := Run(EMPTY, ops).store;
      && (qname in store ==> LastAdded(ops, qname) == Some(store[qname]))
      && (qname !in store && LastAdded(ops, qname).Some? ==> LastAdded(ops, qname).value.expire as real <= now)
    decreases |ops|
  {
    if ops != [] {
      var before := ops[..|ops| - 1];
      assert forall i :: 0 <= i < |before| ==> before[i] == ops[i];
      StoreFollowsAdds(before, qname, now);
    }
  }

  /**
   * Under any interleaving of adds and sweeps a search answers what the last
   * add alone would: sweeps, stale and duplicate heap entries cannot be observed.
   */
  lemma SweepsUnobservable(ops: seq<Op>, qname: Octets, now: real)
    requires Before(ops, now)
    ensures SearchIn(Run(EMPTY, ops).store, qname, now) ==
      if qname == [] || LastAdded(ops, qname).None? then Miss else Served(LastAdded(ops, qname).value, now)
  {
    StoreFollowsAdds(ops, qname, now);
  }

  lemma {:induction false} NegativesFollowAdds(ops: seq<Op>, qname: Octets, now: real)
    requires Before(ops, now)
    ensures var negative := Run(EMPTY, ops).negative;
      && (qname in negative ==> LastNegative(ops, qname) == Some(negative[qname] - NEGATIVE_TTL))
      && (qname !in negative && LastNegative(ops, qname).Some? ==> LastNegative(ops, qname).value + NEGATIVE_TTL <= now)
    decreases |ops|
  {
    if ops != [] {
      var before := ops[..|ops| - 1];
      assert forall i :: 0 <= i < |before| ==> before[i] == ops[i];
      NegativesFollowAdds(before, qname, now);
    }
  }

  /** A name counts as nonexistent for exactly 30 seconds after it was last entered, whatever was checked or swept. */
  lemma NegativeForThirtySeconds(ops: seq<Op>, qname: Octets, now: real)
    requires Before(ops, now)
    ensures IsNegativeIn(Run(EMPTY, ops).negative, qname, now) <==>
      LastNegative(ops, qname).Some? && now < LastNegative(ops, qname).value + 30.0
  {
    NegativesFollowAdds(ops, qname, now);
  }

  /**
   * A rewritten response cached at clock reading `then` is served with the
   * clamped TTL minus the whole seconds passed, always in 1 to 3600, until
   * that reaches zero.
   */
  lemma ServedTtlCountsDown(data: Octets, dnsId: U16, stored: real, now: real)
    requires stored <= now && Rewritten(data, dnsId, stored.Floor).Ok?
    requires Rewritten(data, dnsId, stored.Floor).value.cache.Some?
    ensures var e := Rewritten(data, dnsId, stored.Floor).value.cache.value;
      var left := e.ttl - (now.Floor - stored.Floor);
      && MINIMUM_TTL <= e.ttl <= DEFAULT_TTL
      && Served(e, now) == if left > 0 then Hit(left, e.records) else Miss
  {
    hide *;
    RewrittenIsLong(data, dnsId, stored.Floor);
    RewrittenCases(data, dnsId, stored.Floor);
    var s := Parsed(data).value;
    ReplyParts(data, s, dnsId, stored.Floor);
    LastTtlRange(s.records);
    ServedFrom(ReplyFor(data, s, dnsId, stored.Floor).cache.value, stored, now);
  }

  lemma {:induction false} LastTtlRange(rs: seq<Record>)
    ensures Cached(rs) != [] ==> MINIMUM_TTL <= LastTtl(rs) <= DEFAULT_TTL
    decreases |rs|
  {
    if rs != [] { LastTtlRange(rs[..|rs| - 1]); }
  }

  lemma ServedFrom(e: CacheEntry, stored: real, now: real)
    requires stored <= now && e.expire == stored.Floor + e.ttl && e.ttl <= DEFAULT_TTL
    ensures var left := e.ttl - (now.Floor - stored.Floor);
      Served(e, now) == if left > 0 then Hit(left, e.records) else Miss
  {
    assert stored.Floor <= now.Floor;
  }
}
