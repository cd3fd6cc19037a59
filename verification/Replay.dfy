/** Which records are cached, and how a replayed answer lines up with the forwarded one. */
module Replay {
  import opened Wire
  import opened Names
  import opened Rewrite
  import opened Messages
  import opened Preserve
  import opened Client

  // ---------------------------------------------------------------------------
  // The cached list.

  lemma CachedPush(rs: seq<Record>)
    requires rs != []
    ensures var n := |rs| - 1; var before := Cached(rs[..n]);
      Cached(rs) == if Enters(rs[n], |before|) then before + [Retimed(rs[n])] else before
  {
  }

  /** `cached` holds the records at the places `picked`, in order, with A records in the first three places only. */
  ghost predicate Picked(rs: seq<Record>, cached: seq<Record>, picked: seq<nat>) {
    && |picked| == |cached|
    && (forall i :: 0 <= i < |picked| ==> picked[i] < |rs| && cached[i] == Retimed(rs[picked[i]]))
    && (forall i, j :: 0 <= i < j < |picked| ==> picked[i] < picked[j])
    && (forall i :: 0 <= i < |picked| && cached[i].rtype == A ==> i < 3)
  }

  /** The places of all CNAME and AAAA records, and of the A records with fewer than three cached before them. */
  ghost predicate AllPicked(rs: seq<Record>, picked: seq<nat>) {
    forall j :: 0 <= j < |rs| ==>
      (j in picked <==> rs[j].rtype in {CNAME, AAAA} || (rs[j].rtype == A && |Cached(rs[..j])| < 3))
  }

  lemma PickOne(rs: seq<Record>, r: Record, cached: seq<Record>, picked: seq<nat>)
    requires Picked(rs, cached, picked)
    ensures Enters(r, |cached|) ==> Picked(rs + [r], cached + [Retimed(r)], picked + [|rs|])
    ensures Picked(rs + [r], cached, picked)
  {
    hide ClampTtl;
  }

  lemma PickAll(rs: seq<Record>, r: Record, cached: seq<Record>, picked: seq<nat>)
    requires AllPicked(rs, picked) && Picked(rs, cached, picked)
    ensures AllPicked(rs + [r], if Enters(r, |Cached(rs)|) then picked + [|rs|] else picked)
  {
    hide Cached;
    var all := rs + [r];
    assert all[..|rs|] == rs;
    assert forall j :: 0 <= j < |rs| ==> all[j] == rs[j] && all[..j] == rs[..j];
    assert |rs| !in picked;
  }

  /**
   * The cached list is a subsequence of the parsed records, in wire order and
   * with clamped TTLs: every CNAME and AAAA record is in it, an A record
   * exactly when fewer than three were cached before it.
   */
  lemma {:induction false} CachedSubsequence(rs: seq<Record>) returns (picked: seq<nat>)
    ensures Picked(rs, Cached(rs), picked) && AllPicked(rs, picked)
    decreases |rs|
  {
    hide *;
    picked := [];
    if rs == [] {
      NothingPicked();
    } else {
      var n := |rs| - 1;
      picked := CachedSubsequence(rs[..n]);
      CachedPush(rs);
      PickOne(rs[..n], rs[n], Cached(rs[..n]), picked);
      PickAll(rs[..n], rs[n], Cached(rs[..n]), picked);
      assert rs[..n] + [rs[n]] == rs;
      if Enters(rs[n], |Cached(rs[..n])|) {
        picked := picked + [n];
      }
    }
  }

  lemma NothingPicked()
    ensures Picked([], Cached([]), []) && AllPicked([], [])
  {
  }

  /** The cached TTL is the clamped TTL of the last A, CNAME or AAAA record, even when that one was not cached. */
  lemma {:induction false} CachedTtl(rs: seq<Record>) returns (last: nat)
    requires Cached(rs) != []
    ensures last < |rs| && Clampable(rs[last]) && LastTtl(rs) == ClampTtl(rs[last].ttl)
    ensures forall j :: last < j < |rs| ==> !Clampable(rs[j])
    ensures MINIMUM_TTL <= LastTtl(rs) <= DEFAULT_TTL
    decreases |rs|
  {
    var n := |rs| - 1;
    CachedPush(rs);
    hide Cached;
    if Clampable(rs[n]) {
      last := n;
    } else {
      last := CachedTtl(rs[..n]);
      assert forall j :: 0 <= j < n ==> rs[..n][j] == rs[j];
    }
  }

  lemma {:induction false} CachedPrefix(rs: seq<Record>, k: nat)
    requires k <= |rs|
    ensures Cached(rs[..k]) <= Cached(rs)
    decreases |rs|
  {
    if k < |rs| {
      var n := |rs| - 1;
      CachedPush(rs);
      CachedPrefix(rs[..n], k);
      hide Cached;
      assert rs[..n][..k] == rs[..k];
    } else {
      assert rs[..k] == rs;
    }
  }

  lemma {:induction false} AllCached(rs: seq<Record>)
    ensures |Cached(rs)| <= |rs|
    ensures |Cached(rs)| == |rs| ==> Cached(rs) == RetimedAll(rs)
    decreases |rs|
  {
    if rs != [] {
      var n := |rs| - 1;
      CachedPush(rs);
      AllCached(rs[..n]);
      assert rs[..n] + [rs[n]] == rs;
      RetimedSplit(rs, n);
      OneRetimed(rs[n]);
      assert rs[n..] == [rs[n]];
      hide Cached, RetimedAll, Retimed, Enters;
    }
  }

  lemma OneRetimed(r: Record)
    ensures RetimedAll([r]) == [Retimed(r)]
  {
  }

  lemma RetimedSplit(rs: seq<Record>, k: nat)
    requires k <= |rs|
    ensures RetimedAll(rs) == RetimedAll(rs[..k]) + RetimedAll(rs[k..])
  {
    hide *;
    var front, back := RetimedAll(rs[..k]), RetimedAll(rs[k..]);
    forall i | 0 <= i < |rs| ensures RetimedAll(rs)[i] == (front + back)[i] {
      if i < k {
        assert front[i] == Retimed(rs[..k][i]) && rs[..k][i] == rs[i];
      } else {
        assert back[i - k] == Retimed(rs[k..][i - k]) && rs[k..][i - k] == rs[i];
      }
    }
  }

  // ---------------------------------------------------------------------------
  // Alignment.

  /** The TTL fields of all the records, clamped or not. */
  function AllFields(rs: seq<Record>, base: nat): seq<nat> {
    if rs == [] then [] else [base + |rs[0].name| + 4] + AllFields(rs[1..], base + |rs[0].Bytes()|)
  }

  lemma {:induction false} RecordsAgree(p: Octets, q: Octets, rs: seq<Record>, ss: seq<Record>, t: Octets, u: Octets)
    requires |p| == |q| && AllSameButTtl(rs, ss)
    ensures Agree(p + RecordBytes(rs) + t, q + RecordBytes(ss) + u, AllFields(rs, |p|), |p|, |p| + |RecordBytes(rs)|)
    decreases |rs|
  {
    hide RecordBytes, Agree;
    if rs == [] {
      NothingAgrees(p, q, ss, t, u);
    } else {
      var a, b := rs[0].Bytes(), ss[0].Bytes();
      assert SameButTtl(rs[0], ss[0]) && AllSameButTtl(rs[1..], ss[1..]);
      OneAgrees(p, q, rs[0], ss[0], RecordBytes(rs[1..]) + t, RecordBytes(ss[1..]) + u);
      RecordsAgree(p + a, q + b, rs[1..], ss[1..], t, u);
      RecordsUnfold(p, rs, t);
      RecordsUnfold(q, ss, u);
      RecordsUnfold([], rs, []);
      AgreeJoined(p + RecordBytes(rs) + t, q + RecordBytes(ss) + u,
                  [|p| + |rs[0].name| + 4], AllFields(rs[1..], |p + a|),
                  |p|, |p + a|, |p + a| + |RecordBytes(rs[1..])|);
    }
  }

  lemma NothingAgrees(p: Octets, q: Octets, ss: seq<Record>, t: Octets, u: Octets)
    requires |p| == |q| && ss == []
    ensures Agree(p + RecordBytes([]) + t, q + RecordBytes(ss) + u, [], |p|, |p| + |RecordBytes([])|)
  {
  }

  lemma OneAgrees(p: Octets, q: Octets, r: Record, s: Record, t: Octets, u: Octets)
    requires |p| == |q| && SameButTtl(r, s)
    ensures |s.Bytes()| == |r.Bytes()|
    ensures Agree(p + r.Bytes() + t, q + s.Bytes() + u, [|p| + |r.name| + 4], |p|, |p| + |r.Bytes()|)
  {
    var f := |p| + |r.name| + 4;
    Spliced(p, q, r.name + Pack16(r.rtype) + Pack16(r.rclass), Pack32(r.ttl), Pack32(s.ttl), r.data, t, u);
    hide Pack16, Pack32, InField;
    forall i | |p| <= i < |p| + |r.Bytes()| && !InField([f], i)
      ensures (p + r.Bytes() + t)[i] == (q + s.Bytes() + u)[i]
    {
      OneField(f, i);
    }
  }

  /** A cache hit: the client's ID and flags, and the time left. */
  datatype Hit = Hit(clientId: U16, rd: Bit, cd: Bit, ttl: U32)

  /** The reply replayed from the records of `data` to a client that asks with the same question bytes. */
  function ReplayFor(data: Octets, hit: Hit): Result<Octets>
    requires |data| >= 12 && Parsed(data).Ok?
  {
    CachedReply(hit.clientId, hit.rd, hit.cd, Take(data[12..], QuestionSize(data)), hit.ttl,
                Cached(Parsed(data).value.records))
  }

  lemma ReplayIs(data: Octets, hit: Hit)
    requires |data| >= 12 && Parsed(data).Ok?
    ensures var question, cached := Take(data[12..], QuestionSize(data)), Cached(Parsed(data).value.records);
      && RecordsStart(data) == 12 + |question|
      && (ReplayFor(data, hit).Ok? <==> |cached| < 0x1_0000)
      && (ReplayFor(data, hit).Ok? ==>
            && var header := ResponseHeader(hit.clientId, |cached|, hit.rd, hit.cd, 0);
            ReplayFor(data, hit).value == header + question + RecordBytes(WithTtl(cached, hit.ttl)))
  {
    hide *;
    RecordsStartIs(data);
    ReplayForIs(data, hit);
    var question, cached := Take(data[12..], QuestionSize(data)), Cached(Parsed(data).value.records);
    CachedReplyIs(hit.clientId, hit.rd, hit.cd, question, hit.ttl, cached);
  }

  lemma ReplayForIs(data: Octets, hit: Hit)
    requires |data| >= 12 && Parsed(data).Ok?
    ensures ReplayFor(data, hit) == CachedReply(hit.clientId, hit.rd, hit.cd, Take(data[12..], QuestionSize(data)),
                                                hit.ttl, Cached(Parsed(data).value.records))
  {
  }

  /**
   * Replaying a cached answer. If the first `k` parsed records were all cached
   * and the client asks with the response's question bytes, the replayed
   * answer has the forwarded one's bytes over the question and those records,
   * except in their TTL fields.
   */
  lemma ReplayAligns(data: Octets, dnsId: U16, now: int, k: nat, hit: Hit)
    requires Rewritten(data, dnsId, now).Ok? && ReplayFor(data, hit).Ok?
    requires k <= |Parsed(data).value.records| && |Cached(Parsed(data).value.records[..k])| == k
    ensures var leading := Parsed(data).value.records[..k];
      Agree(Rewritten(data, dnsId, now).value.bytes, ReplayFor(data, hit).value,
            AllFields(leading, RecordsStart(data)), 12, RecordsStart(data) + |RecordBytes(leading)|)
  {
    hide *;
    RewrittenIsLong(data, dnsId, now);
    RewrittenCases(data, dnsId, now);
    var s := Parsed(data).value;
    var rs, question, ttl := s.records, Take(data[12..], QuestionSize(data)), hit.ttl;
    ReplyParts(data, s, dnsId, now);
    ReplayIs(data, hit);
    CachedPrefix(rs, k);
    AllCached(rs[..k]);
    var front, back := RetimedAll(rs[..k]), Cached(rs)[k..];
    RetimedSplit(rs, k);
    RecordBytesConcat(front, RetimedAll(rs[k..]));
    var p, q := Pack16(dnsId) + data[2..12] + question,
                ResponseHeader(hit.clientId, |Cached(rs)|, hit.rd, hit.cd, 0) + question;
    WithTtlSplit(front, back, ttl);
    assert Cached(rs) == front + back;
    RecordBytesConcat(WithTtl(front, ttl), WithTtl(back, ttl));
    SameAsOriginals(rs[..k], ttl);
    var forwardedTail := RecordBytes(RetimedAll(rs[k..])) + Drop(AfterQuestion(data), s.used);
    var replayedTail := RecordBytes(WithTtl(back, ttl));
    RecordsAgree(p, q, front, WithTtl(front, ttl), forwardedTail, replayedTail);
    Regroup(p, RecordBytes(front), RecordBytes(RetimedAll(rs[k..])), Drop(AfterQuestion(data), s.used));
    Regroup(q, RecordBytes(WithTtl(front, ttl)), replayedTail, []);
    assert p[12..] == question && q[12..] == question;
    ShareQuestion(p + RecordBytes(front) + forwardedTail, q + RecordBytes(WithTtl(front, ttl)) + replayedTail,
                  AllFields(rs[..k], |p|), question, |p| + |RecordBytes(front)|, p, q);
  }

  lemma WithTtlSplit(a: seq<Record>, b: seq<Record>, ttl: U32)
    ensures WithTtl(a + b, ttl) == WithTtl(a, ttl) + WithTtl(b, ttl)
  {
  }

  lemma {:induction false} SameAsOriginals(rs: seq<Record>, ttl: U32)
    ensures AllSameButTtl(RetimedAll(rs), WithTtl(RetimedAll(rs), ttl))
    ensures |RecordBytes(RetimedAll(rs))| == |RecordBytes(rs)|
    ensures forall base: nat :: AllFields(RetimedAll(rs), base) == AllFields(rs, base)
  {
    hide *;
    WithTtlIsSame(RetimedAll(rs), ttl);
    RetimedTwice(rs);
    SameLengths(rs, RetimedAll(rs));
    forall base: nat ensures AllFields(RetimedAll(rs), base) == AllFields(rs, base) {
      SameFields(rs, base);
    }
  }

  lemma {:induction false} SameFields(rs: seq<Record>, base: nat)
    ensures AllFields(RetimedAll(rs), base) == AllFields(rs, base)
  {
    if rs != [] {
      hide RetimedAll, Retimed;
      RetimedRest(rs);
      RetimedSize(rs[0]);
      SameFields(rs[1..], base + |rs[0].Bytes()|);
    }
  }

  lemma RetimedSize(r: Record)
    ensures |Retimed(r).Bytes()| == |r.Bytes()| && Retimed(r).name == r.name
  {
  }

  lemma Regroup(a: Octets, b: Octets, c: Octets, d: Octets)
    ensures a + (b + c) + d == a + b + (c + d) && a + (b + c) == a + b + c
  {
  }

  lemma ShareQuestion(x: Octets, y: Octets, fields: seq<nat>, question: Octets, to: nat, p: Octets, q: Octets)
    requires |p| == |q| == 12 + |question| && p[12..] == question == q[12..] && p <= x && q <= y
    requires |p| <= to && Agree(x, y, fields, |p|, to)
    ensures Agree(x, y, fields, 12, to)
  {
    forall i | 12 <= i < |p| ensures x[i] == y[i] {
      assert x[i] == p[i] == question[i - 12] == q[i] == y[i];
    }
  }

  // ---------------------------------------------------------------------------
  // Names in a replayed answer.

  predicate Shared(i: nat, fields: seq<nat>, to: nat) { 12 <= i < to && !InField(fields, i) }

  /** Every byte that the expansion of the name at `at` looks at lies in front of `to` and outside the fields. */
  ghost predicate LooksAtShared(m: Octets, at: nat, fuel: nat, fields: seq<nat>, to: nat)
    decreases fuel
  {
    fuel > 0 && at < |m| ==>
      if m[at] == 0 then Shared(at, fields, to)
      else if IsPointer(m[at]) then
        && Shared(at, fields, to) && Shared(at + 1, fields, to)
        && (at + 2 <= |m| ==> LooksAtShared(m, PointerValue(m[at], m[at + 1]), fuel - 1, fields, to))
      else
        && (forall i: nat :: at <= i <= at + m[at] ==> Shared(i, fields, to))
        && LooksAtShared(m, at + 1 + m[at], fuel - 1, fields, to)
  }

  lemma {:induction false} SharedNames(x: Octets, y: Octets, fields: seq<nat>, to: nat, at: nat, fuel: nat)
    requires Agree(x, y, fields, 12, to)
    requires Expand(x, at, fuel).Some? && LooksAtShared(x, at, fuel, fields, to)
    ensures Expand(y, at, fuel) == Expand(x, at, fuel)
    decreases fuel
  {
    hide InField;
    assert Shared(at, fields, to);
    if x[at] == 0 {
    } else if IsPointer(x[at]) {
      assert Shared(at + 1, fields, to);
      SharedNames(x, y, fields, to, PointerValue(x[at], x[at + 1]), fuel - 1);
    } else {
      var next := at + 1 + x[at];
      SharedNames(x, y, fields, to, next, fuel - 1);
      forall i: nat | at <= i < next ensures i < to && y[i] == x[i] {
        assert Shared(i, fields, to);
      }
      assert Shared(next - 1, fields, to);
      assert x[at + 1..next] == y[at + 1..next];
    }
  }

  /** What the name at `a` in `x` expands to, the one at `b` in `y` does too. */
  ghost predicate Kept(x: Octets, a: nat, y: Octets, b: nat) {
    forall labels :: ExpandsTo(x, a, labels) ==> ExpandsTo(y, b, labels)
  }

  /** The name at `at` has an expansion, and finding it takes a look at shared bytes only. */
  ghost predicate StaysShared(m: Octets, at: nat, fields: seq<nat>, to: nat) {
    exists fuel :: Expand(m, at, fuel).Some? && LooksAtShared(m, at, fuel, fields, to)
  }

  /**
   * With the leading `k` records all cached and equal question bytes, a name
   * of the forwarded reply that is read from question and leading records, and
   * from no TTL field, has the same labels in the replayed one.
   */
  lemma ReplayedNames(data: Octets, dnsId: U16, now: int, k: nat, hit: Hit, at: nat)
    requires Rewritten(data, dnsId, now).Ok? && ReplayFor(data, hit).Ok?
    requires k <= |Parsed(data).value.records| && |Cached(Parsed(data).value.records[..k])| == k
    requires var leading := Parsed(data).value.records[..k];
      StaysShared(Rewritten(data, dnsId, now).value.bytes, at, AllFields(leading, RecordsStart(data)),
                  RecordsStart(data) + |RecordBytes(leading)|)
    ensures Kept(Rewritten(data, dnsId, now).value.bytes, at, ReplayFor(data, hit).value, at)
  {
    hide *;
    RewrittenIsLong(data, dnsId, now);
    RewrittenCases(data, dnsId, now);
    ReplayAligns(data, dnsId, now, k, hit);
    var leading := Parsed(data).value.records[..k];
    SharedIsKept(Rewritten(data, dnsId, now).value.bytes, ReplayFor(data, hit).value,
                 AllFields(leading, RecordsStart(data)), RecordsStart(data) + |RecordBytes(leading)|, at);
  }

  lemma SharedIsKept(x: Octets, y: Octets, fields: seq<nat>, to: nat, at: nat)
    requires Agree(x, y, fields, 12, to) && StaysShared(x, at, fields, to)
    ensures Kept(x, at, y, at)
  {
    hide Agree, LooksAtShared;
    var fuel: nat :| Expand(x, at, fuel).Some? && LooksAtShared(x, at, fuel, fields, to);
    SharedNames(x, y, fields, to, at, fuel);
    var found := Expand(x, at, fuel).value;
    assert ExpandsTo(x, at, found) && ExpandsTo(y, at, found);
    forall labels | ExpandsTo(x, at, labels) ensures ExpandsTo(y, at, labels) {
      OneExpansion(x, at, labels, found);
    }
  }

  // ---------------------------------------------------------------------------
  // Names that move: a record behind one that was not cached stands further
  // ahead in the replayed answer, but pointers still name the old places.

  /** A name that was copied elsewhere is kept exactly when it has no pointer or its pointer's target is kept. */
  lemma CopiedName(x: Octets, a: nat, y: Octets, b: nat, n: Name)
    requires Sits(x, a, EncodeName(n)) && Sits(y, b, EncodeName(n)) && (n.ending.Pointer? ==> n.ending.target >= 12)
    ensures Kept(x, a, y, b) <==> n.ending.Root? || Kept(x, n.ending.target, y, n.ending.target)
  {
    hide ExpandsTo, EncodeName, EncodeLabels;
    var target := if n.ending.Root? then 12 else n.ending.target;
    if n.ending.Root? || Kept(x, target, y, target) {
      forall whole | ExpandsTo(x, a, whole) ensures ExpandsTo(y, b, whole) {
        EncodedNameExpands(x, a, n.labels, n.ending, whole);
        EncodedNameExpands(y, b, n.labels, n.ending, whole);
      }
    }
    if Kept(x, a, y, b) && n.ending.Pointer? {
      forall rest | ExpandsTo(x, target, rest) ensures ExpandsTo(y, target, rest) {
        var labels: seq<Octets> := n.labels;
        assert (labels + rest)[..|labels|] == labels && (labels + rest)[|labels|..] == rest;
        EncodedNameExpands(x, a, n.labels, n.ending, labels + rest);
        EncodedNameExpands(y, b, n.labels, n.ending, labels + rest);
      }
    }
  }

  /** Where record `j` starts when the first one starts at `base`. */
  function StartOf(rs: seq<Record>, j: nat, base: nat): nat
    requires j <= |rs|
  {
    base + |RecordBytes(rs[..j])|
  }

  lemma RecordSits(front: Octets, rs: seq<Record>, tail: Octets, j: nat)
    requires j < |rs|
    ensures Sits(front + RecordBytes(rs) + tail, StartOf(rs, j, |front|), rs[j].Bytes())
  {
    hide *;
    var a, r, b := RecordBytes(rs[..j]), rs[j].Bytes(), RecordBytes(rs[j + 1..]);
    RecordBytesAround(rs, j);
    assert front + RecordBytes(rs) + tail == (front + a) + (r + (b + tail));
    SitsBehind(front + a, r, b + tail);
    StartIs(rs, j, |front|);
  }

  lemma StartIs(rs: seq<Record>, j: nat, base: nat)
    requires j <= |rs|
    ensures StartOf(rs, j, base) == base + |RecordBytes(rs[..j])|
  {
  }

  lemma RecordBytesAround(rs: seq<Record>, j: nat)
    requires j < |rs|
    ensures RecordBytes(rs) == RecordBytes(rs[..j]) + (rs[j].Bytes() + RecordBytes(rs[j + 1..]))
  {
    hide *;
    var later := rs[j..];
    FirstRecordBytes(later);
    RecordBytesConcat(rs[..j], later);
    assert rs[..j] + later == rs && later[0] == rs[j] && later[1..] == rs[j + 1..];
  }

  /** The name stands in the owner field or the rdata of the record, `d` bytes from its start. */
  predicate Holds(r: Record, d: nat, n: Name) {
    Sits(r.name, d, EncodeName(n)) || (d >= |r.name| + 10 && Sits(r.data, d - |r.name| - 8, EncodeName(n)))
  }

  lemma NameSits(m: Octets, at: nat, r: Record, d: nat, n: Name)
    requires Sits(m, at, r.Bytes()) && Holds(r, d, n)
    ensures Sits(m, at + d, EncodeName(n))
  {
    var e, fixed := EncodeName(n), Pack16(r.rtype) + Pack16(r.rclass) + Pack32(r.ttl);
    hide EncodeName, Pack16, Pack32;
    var bytes := r.name + fixed + r.data;
    if Sits(r.name, d, e) {
      assert bytes[d..d + |e|] == r.name[d..d + |e|];
    } else {
      var k := d - |r.name| - 8;
      assert bytes[d..d + |e|] == r.data[k..k + |e|];
    }
    SitsInside(m, at, bytes, d, e);
  }

  /** Record `j` enters the cache. */
  predicate IsCached(rs: seq<Record>, j: nat)
    requires j < |rs|
  {
    Enters(rs[j], |Cached(rs[..j])|)
  }

  /** Where record `j` starts in the replay when the first cached one starts at `base`. */
  function MovedTo(rs: seq<Record>, j: nat, base: nat): nat
    requires j <= |rs|
  {
    base + |RecordBytes(Cached(rs[..j]))|
  }

  lemma CachedPlace(rs: seq<Record>, j: nat)
    requires j < |rs| && IsCached(rs, j)
    ensures var c, cached := |Cached(rs[..j])|, Cached(rs);
      c < |cached| && cached[c] == Retimed(rs[j]) && cached[..c] == Cached(rs[..j])
  {
    hide Enters;
    var front := rs[..j + 1];
    assert front[..j] == rs[..j] && front[j] == rs[j];
    CachedPush(front);
    CachedPrefix(rs, j + 1);
    hide Cached;
    var c := |Cached(rs[..j])|;
    assert Cached(rs)[..c + 1] == Cached(front);
    assert Cached(rs)[..c] == Cached(rs)[..c + 1][..c];
  }

  /**
   * A name in a cached record, its owner or one in its rdata: wherever the
   * record moves to, the name is kept exactly when it has no pointer or what
   * its pointer leads to is kept in its old place.
   */
  lemma MovedName(data: Octets, dnsId: U16, now: int, hit: Hit, j: nat, d: nat, n: Name)
    requires Rewritten(data, dnsId, now).Ok? && ReplayFor(data, hit).Ok?
    requires var rs := Parsed(data).value.records;
      j < |rs| && IsCached(rs, j) && Holds(rs[j], d, n) && (n.ending.Pointer? ==> n.ending.target >= 12)
    ensures var rs, start := Parsed(data).value.records, RecordsStart(data);
      var x, y := Rewritten(data, dnsId, now).value.bytes, ReplayFor(data, hit).value;
      Kept(x, StartOf(rs, j, start) + d, y, MovedTo(rs, j, start) + d) <==>
        n.ending.Root? || Kept(x, n.ending.target, y, n.ending.target)
  {
    hide *;
    RewrittenIsLong(data, dnsId, now);
    RewrittenCases(data, dnsId, now);
    var rs, start := Parsed(data).value.records, RecordsStart(data);
    var x, y := Rewritten(data, dnsId, now).value.bytes, ReplayFor(data, hit).value;
    BothSit(data, dnsId, now, hit, j, d, n);
    CopiedName(x, StartOf(rs, j, start) + d, y, MovedTo(rs, j, start) + d, n);
  }

  /** The name stands in both replies, in the old and in the new place of its record. */
  lemma BothSit(data: Octets, dnsId: U16, now: int, hit: Hit, j: nat, d: nat, n: Name)
    requires Rewritten(data, dnsId, now).Ok? && ReplayFor(data, hit).Ok?
    requires var rs := Parsed(data).value.records; j < |rs| && IsCached(rs, j) && Holds(rs[j], d, n)
    ensures var rs, start := Parsed(data).value.records, RecordsStart(data);
      && Sits(Rewritten(data, dnsId, now).value.bytes, StartOf(rs, j, start) + d, EncodeName(n))
      && Sits(ReplayFor(data, hit).value, MovedTo(rs, j, start) + d, EncodeName(n))
  {
    hide *;
    RewrittenIsLong(data, dnsId, now);
    RewrittenCases(data, dnsId, now);
    var rs, start := Parsed(data).value.records, RecordsStart(data);
    var c, r := |Cached(rs[..j])|, Retimed(rs[j]);
    CachedPlace(rs, j);
    MovedIs(rs, j, start);
    StartIs(Cached(rs), c, start);
    ForwardedSits(data, dnsId, now, j);
    ReplayedSits(data, hit, c);
    HeldAnyTtl(rs[j], d, n, hit.ttl);
    NameSits(Rewritten(data, dnsId, now).value.bytes, StartOf(rs, j, start), r, d, n);
    NameSits(ReplayFor(data, hit).value, StartOf(Cached(rs), c, start), r.(ttl := hit.ttl), d, n);
  }

  lemma MovedIs(rs: seq<Record>, j: nat, base: nat)
    requires j <= |rs|
    ensures MovedTo(rs, j, base) == base + |RecordBytes(Cached(rs[..j]))|
  {
  }

  /**
   * A name in a cached record that moved or not: it is kept when its pointer,
   * if it has one, leads to something that is read from the question and the
   * leading records, all of them cached, and from no TTL field.
   */
  lemma LeadingTargetKept(data: Octets, dnsId: U16, now: int, k: nat, hit: Hit, j: nat, d: nat, n: Name)
    requires Rewritten(data, dnsId, now).Ok? && ReplayFor(data, hit).Ok?
    requires var rs := Parsed(data).value.records;
      && k <= |rs| && |Cached(rs[..k])| == k
      && j < |rs| && IsCached(rs, j) && Holds(rs[j], d, n)
    requires n.ending.Pointer? ==>
      var leading := Parsed(data).value.records[..k];
      StaysShared(Rewritten(data, dnsId, now).value.bytes, n.ending.target, AllFields(leading, RecordsStart(data)),
                  RecordsStart(data) + |RecordBytes(leading)|)
    ensures var rs, start := Parsed(data).value.records, RecordsStart(data);
      Kept(Rewritten(data, dnsId, now).value.bytes, StartOf(rs, j, start) + d,
           ReplayFor(data, hit).value, MovedTo(rs, j, start) + d)
  {
    hide *;
    RewrittenIsLong(data, dnsId, now);
    RewrittenCases(data, dnsId, now);
    if n.ending.Pointer? {
      var leading := Parsed(data).value.records[..k];
      SharedIsBehindHeader(Rewritten(data, dnsId, now).value.bytes, n.ending.target,
                           AllFields(leading, RecordsStart(data)), RecordsStart(data) + |RecordBytes(leading)|);
      ReplayedNames(data, dnsId, now, k, hit, n.ending.target);
    }
    MovedName(data, dnsId, now, hit, j, d, n);
  }

  lemma SharedIsBehindHeader(m: Octets, at: nat, fields: seq<nat>, to: nat)
    requires StaysShared(m, at, fields, to)
    ensures at >= 12
  {
    var fuel: nat :| Expand(m, at, fuel).Some? && LooksAtShared(m, at, fuel, fields, to);
    assert Shared(at, fields, to);
  }

  /**
   * When the first record that is not cached stands in front of one that is,
   * and that one's owner points to the former's owner, then it moves to the
   * very place it points to: in every replay its owner never comes to an end.
   */
  lemma PointsToItself(data: Octets, hit: Hit, i: nat, j: nat, labels: seq<Label>, whole: seq<Octets>)
    requires |data| >= 12 && Parsed(data).Ok? && ReplayFor(data, hit).Ok?
    requires var rs := Parsed(data).value.records;
      && i < j < |rs| && |Cached(rs[..i])| == i && |Cached(rs[..j])| == i && IsCached(rs, j)
      && StartOf(rs, i, RecordsStart(data)) < 16384
      && rs[j].name == EncodeName(Name(labels, Pointer(StartOf(rs, i, RecordsStart(data)))))
    ensures var rs, start := Parsed(data).value.records, RecordsStart(data);
      && MovedTo(rs, j, start) == StartOf(rs, i, start)
      && !ExpandsTo(ReplayFor(data, hit).value, MovedTo(rs, j, start), whole)
  {
    hide *;
    var rs, start := Parsed(data).value.records, RecordsStart(data);
    var at := StartOf(rs, i, start);
    var n := Name(labels, Pointer(at));
    CachedPlace(rs, j);
    LeadingStart(rs, i, j, start);
    StartIs(Cached(rs), i, start);
    MovedIs(rs, j, start);
    ReplayedSits(data, hit, i);
    OwnerSits(rs[j], n);
    HeldAnyTtl(rs[j], 0, n, hit.ttl);
    NameSits(ReplayFor(data, hit).value, at, Retimed(rs[j]).(ttl := hit.ttl), 0, n);
    NeverExpands(ReplayFor(data, hit).value, at, labels, whole);
  }

  lemma OwnerSits(r: Record, n: Name)
    requires r.name == EncodeName(n)
    ensures Holds(r, 0, n)
  {
    hide EncodeName;
  }

  lemma LeadingStart(rs: seq<Record>, i: nat, j: nat, base: nat)
    requires i <= j <= |rs| && |Cached(rs[..i])| == i && |Cached(rs[..j])| == i
    ensures MovedTo(rs, j, base) == StartOf(rs, i, base)
  {
    hide *;
    CachedPrefix(rs[..j], i);
    assert rs[..j][..i] == rs[..i];
    AllCached(rs[..i]);
    RetimedTwice(rs[..i]);
    SameLengths(rs[..i], RetimedAll(rs[..i]));
    MovedIs(rs, j, base);
    StartIs(rs, i, base);
    assert Cached(rs[..j]) == Cached(rs[..i]);
  }

  lemma HeldAnyTtl(r: Record, d: nat, n: Name, ttl: U32)
    requires Holds(r, d, n)
    ensures Holds(Retimed(r), d, n) && Holds(Retimed(r).(ttl := ttl), d, n)
  {
  }

  lemma ForwardedSits(data: Octets, dnsId: U16, now: int, j: nat)
    requires Rewritten(data, dnsId, now).Ok? && |data| >= 12 && Parsed(data).Ok? && j < |Parsed(data).value.records|
    ensures var rs := Parsed(data).value.records;
      Sits(Rewritten(data, dnsId, now).value.bytes, StartOf(rs, j, RecordsStart(data)), Retimed(rs[j]).Bytes())
  {
    hide *;
    RewrittenCases(data, dnsId, now);
    var s, question := Parsed(data).value, Take(data[12..], QuestionSize(data));
    var front, cs := Pack16(dnsId) + data[2..12] + question, RetimedAll(s.records);
    ReplyParts(data, s, dnsId, now);
    RecordsStartIs(data);
    RetimedTwice(s.records);
    AllSameSplit(s.records, cs, j);
    SameLengths(s.records[..j], cs[..j]);
    RecordSits(front, cs, Drop(AfterQuestion(data), s.used), j);
    StartIs(s.records, j, |front|);
    StartIs(cs, j, |front|);
    assert cs[j] == Retimed(s.records[j]);
  }

  lemma AllSameSplit(rs: seq<Record>, ss: seq<Record>, j: nat)
    requires AllSameButTtl(rs, ss) && j <= |rs|
    ensures |ss| == |rs| && AllSameButTtl(rs[..j], ss[..j])
  {
  }

  lemma ReplayedSits(data: Octets, hit: Hit, i: nat)
    requires |data| >= 12 && Parsed(data).Ok? && i < |Cached(Parsed(data).value.records)| && ReplayFor(data, hit).Ok?
    ensures var cached := Cached(Parsed(data).value.records);
      Sits(ReplayFor(data, hit).value, StartOf(cached, i, RecordsStart(data)), cached[i].(ttl := hit.ttl).Bytes())
  {
    hide *;
    ReplayIs(data, hit);
    var cached := Cached(Parsed(data).value.records);
    var ss := WithTtl(cached, hit.ttl);
    var front := ResponseHeader(hit.clientId, |cached|, hit.rd, hit.cd, 0) + Take(data[12..], QuestionSize(data));
    RecordSits(front, ss, [], i);
    assert front + RecordBytes(ss) + [] == front + RecordBytes(ss);
    WithTtlIsSame(cached, hit.ttl);
    AllSameSplit(cached, ss, i);
    SameLengths(cached[..i], ss[..i]);
    StartIs(cached, i, |front|);
    StartIs(ss, i, |front|);
  }

  lemma WithTtlIsSame(rs: seq<Record>, ttl: U32)
    ensures AllSameButTtl(rs, WithTtl(rs, ttl))
  {
  }

  // A message whose signature record in front is not cached: the CNAME behind
  // it moves ahead, and the last owner name, which points into its rdata, is
  // read from the length field of the last record instead.

  const SIGNATURE := Rr(Name([], Pointer(12)), 46, 1, 300, [0])
  const ALIAS := Rr(Name([], Pointer(12)), CNAME, 1, 300, [1, 98, 0])
  const ADDRESS := Rr(Name([], Pointer(44)), A, 1, 300, [1, 2, 3, 4])
  const SIGNED := Message(7, 0x8180, Name([[97]], Root), A, 1, [SIGNATURE, ALIAS, ADDRESS], [], 0, [])

  lemma SignedSizes()
    ensures EncodeRr(SIGNATURE) == [192, 12, 0, 46, 0, 1] + Pack32(300) + [0, 1, 0]
    ensures EncodeRr(ALIAS) == [192, 12, 0, 5, 0, 1] + Pack32(300) + [0, 3, 1, 98, 0]
    ensures EncodeRr(ADDRESS) == [192, 44, 0, 1, 0, 1] + Pack32(300) + [0, 4, 1, 2, 3, 4]
    ensures EncodeName(SIGNED.question) == [1, 97, 0]
  {
  }

  lemma SignedParsed()
    ensures WellFormed(SIGNED) && Reached(SIGNED) == 3 && All(SIGNED)[..3] == [SIGNATURE, ALIAS, ADDRESS]
    ensures |Encode(SIGNED)| >= 12 && RecordsStart(Encode(SIGNED)) == 19
  {
    SignedSizes();
    var all := [SIGNATURE, ALIAS, ADDRESS];
    assert All(SIGNED) == all && all[1..] == [ALIAS, ADDRESS] && all[2..] == [ADDRESS];
    hide EncodeRr, EncodeName, Reached, QuestionSize;
    RrsFirst(all);
    RrsFirst(all[1..]);
    RrsFirst(all[2..]);
    assert |EncodeRrs(all)| == 44;
    assert |Encode(SIGNED)| == 63;
    TwelveBytesSuffice(SIGNED);
    QuestionParsed(SIGNED);
  }

  lemma SecondAndThird(a: Record, b: Record, c: Record)
    requires !Clampable(a) && Enters(b, 0) && Enters(c, 1) && Retimed(b) == b && Retimed(c) == c
    ensures Cached([a, b, c]) == [b, c]
    ensures RecordBytes([a]) == a.Bytes() && RecordBytes([b]) == b.Bytes()
    ensures RecordBytes([a, b]) == a.Bytes() + b.Bytes()
  {
    hide Clampable, Retimed;
    var rs := [a, b, c];
    assert rs[..2] == [a, b] && rs[..2][..1] == [a] && [a][..0] == [];
    CachedPush(rs);
    CachedPush(rs[..2]);
    CachedPush([a]);
    assert [a, b][1..] == [b] && [b][1..] == [] && [a][1..] == [];
  }

  lemma SignedCached()
    ensures var rs := AsRecords([SIGNATURE, ALIAS, ADDRESS]);
      && Cached(rs) == [rs[1], rs[2]]
      && StartOf(rs, 1, 19) == 32 && StartOf(rs, 2, 19) == 47 && StartOf(Cached(rs), 1, 19) == 34
  {
    var rs := AsRecords([SIGNATURE, ALIAS, ADDRESS]);
    SignedSizes();
    RrBytes(SIGNATURE, []);
    RrBytes(ALIAS, []);
    var a, b, c := rs[0], rs[1], rs[2];
    assert rs == [a, b, c] && rs[..1] == [a] && rs[..2] == [a, b] && [b, c][..1] == [b];
    assert Retimed(b) == b && Retimed(c) == c && Enters(b, 0) && Enters(c, 1) && !Clampable(a);
    hide AsRecords, EncodeName, EncodeRr, Retimed, RecordBytes, Enters, Clampable, Cached;
    SecondAndThird(a, b, c);
  }

  /** The owner of the address record is `b` in the forwarded reply and the root in every replayed one. */
  lemma ReplayMisreadsName(dnsId: U16, now: int, hit: Hit)
    ensures WellFormed(SIGNED) && Rewritten(Encode(SIGNED), dnsId, now).Ok? && ReplayFor(Encode(SIGNED), hit).Ok?
    ensures var rs, start := Parsed(Encode(SIGNED)).value.records, RecordsStart(Encode(SIGNED));
      && rs == AsRecords([SIGNATURE, ALIAS, ADDRESS]) && Cached(rs) == [rs[1], rs[2]]
      && ExpandsTo(Rewritten(Encode(SIGNED), dnsId, now).value.bytes, StartOf(rs, 2, start), [[98]])
      && ExpandsTo(ReplayFor(Encode(SIGNED), hit).value, StartOf(Cached(rs), 1, start), [])
  {
    hide *;
    var data, rs := Encode(SIGNED), AsRecords([SIGNATURE, ALIAS, ADDRESS]);
    SignedParsed();
    SignedCached();
    RewriteClampsMessage(SIGNED, dnsId, now);
    RewrittenCases(data, dnsId, now);
    ReplayIs(data, hit);
    ForwardedSits(data, dnsId, now, 1);
    ForwardedSits(data, dnsId, now, 2);
    ReplayedSits(data, hit, 1);
    SignedForwarded(Rewritten(data, dnsId, now).value.bytes, rs);
    SignedReplayed(ReplayFor(data, hit).value, rs, hit.ttl);
  }

  lemma SignedForwarded(x: Octets, rs: seq<Record>)
    requires rs == AsRecords([SIGNATURE, ALIAS, ADDRESS])
    requires Sits(x, 32, Retimed(rs[1]).Bytes()) && Sits(x, 47, Retimed(rs[2]).Bytes())
    ensures ExpandsTo(x, 47, [[98]])
  {
    hide *;
    var none: seq<Label>, b: seq<Label> := [], [[98]];
    SignedHolds(rs, b, none);
    HeldAnyTtl(rs[1], 12, Name(b, Root), 0);
    HeldAnyTtl(rs[2], 0, Name(none, Pointer(44)), 0);
    NameSits(x, 32, Retimed(rs[1]), 12, Name(b, Root));
    NameSits(x, 47, Retimed(rs[2]), 0, Name(none, Pointer(44)));
    FromPointer(x, 47, 44, b);
  }

  lemma SignedHolds(rs: seq<Record>, b: seq<Label>, none: seq<Label>)
    requires rs == AsRecords([SIGNATURE, ALIAS, ADDRESS]) && b == [[98]] && none == []
    ensures |rs| == 3 && Holds(rs[1], 12, Name(b, Root)) && Holds(rs[2], 0, Name(none, Pointer(44)))
  {
    assert rs[1].name == EncodeName(ALIAS.name) && rs[2].name == EncodeName(ADDRESS.name);
    assert rs[1].data == Pack16(3) + [1, 98, 0];
    hide AsRecords;
    OwnerSits(rs[2], ADDRESS.name);
    TargetEncoded(b);
    BareSize(12);
    hide EncodeName, Pack16;
    assert rs[1].data[2..5] == [1, 98, 0];
  }

  lemma TargetEncoded(b: seq<Label>)
    requires b == [[98]]
    ensures EncodeName(Name(b, Root)) == [1, 98, 0]
  {
    assert b[1..] == [] && EncodeLabels([]) == [];
    assert EncodeLabels(b) == [1, 98];
  }

  lemma FromPointer(x: Octets, at: nat, target: Offset14, labels: seq<Label>)
    requires Sits(x, target, EncodeName(Name(labels, Root))) && 12 <= target
    requires Sits(x, at, EncodeName(Name([], Pointer(target))))
    ensures ExpandsTo(x, at, labels)
  {
    var whole: seq<Octets> := labels;
    EncodedNameExpands(x, target, labels, Root, whole);
    OneEnding(x, at, Pointer(target), whole);
  }

  lemma SignedReplayed(y: Octets, rs: seq<Record>, ttl: U32)
    requires rs == AsRecords([SIGNATURE, ALIAS, ADDRESS]) && Sits(y, 34, rs[2].(ttl := ttl).Bytes())
    ensures ExpandsTo(y, 34, [])
  {
    assert Holds(rs[2].(ttl := ttl), 0, ADDRESS.name);
    NameSits(y, 34, rs[2].(ttl := ttl), 0, ADDRESS.name);
    var bytes := rs[2].(ttl := ttl).Bytes();
    assert y[44] == y[34..34 + |bytes|][10] == bytes[10] == 0;
    assert Expand(y, 44, 1) == Some([]);
    OneEnding(y, 34, Pointer(44), []);
  }

  // ---------------------------------------------------------------------------
  // TTLs in the reply and in the cache.

  lemma InputSits(data: Octets, j: nat)
    requires |data| >= 12 && Parsed(data).Ok? && j < |Parsed(data).value.records|
    ensures var rs := Parsed(data).value.records; Sits(data, StartOf(rs, j, RecordsStart(data)), rs[j].Bytes())
  {
    hide *;
    var s, question := Parsed(data).value, Take(data[12..], QuestionSize(data));
    InputTiles(data);
    RecordsStartIs(data);
    RecordSits(data[..12] + question, s.records, Drop(AfterQuestion(data), s.used), j);
  }

  lemma FieldsSit(m: Octets, at: nat, r: Record)
    requires Sits(m, at, r.Bytes())
    ensures var f := at + |r.name| + 4;
      && f + 4 <= |m| && Unpack16(m, f - 4) == r.rtype && Unpack16(m, f - 2) == r.rclass && Unpack32(m, f) == r.ttl
  {
    hide *;
    SitsTail(m, at, r.Bytes());
    FieldsAt(r, m[at + |r.Bytes()|..]);
    RecordLong(r);
    var n := |r.name|;
    Unpack16Drop(m[at..], n);
    Shifted(m, at, n);
  }

  lemma SitsTail(m: Octets, at: nat, b: Octets)
    requires Sits(m, at, b)
    ensures at + |b| <= |m| && m[at..] == b + m[at + |b|..]
  {
    assert m[at..] == m[at..at + |b|] + m[at + |b|..];
  }

  lemma RecordLong(r: Record)
    ensures |r.Bytes()| >= |r.name| + 8
  {
  }

  lemma Shifted(m: Octets, at: nat, n: nat)
    requires at + n + 8 <= |m|
    ensures Unpack16(m[at..], n) == Unpack16(m, at + n) && Unpack16(m[at..], n + 2) == Unpack16(m, at + n + 2)
    ensures Unpack32(m[at..], n + 4) == Unpack32(m, at + n + 4)
  {
  }

  /**
   * What stands in the TTL field of every parsed record, in the response and
   * in the reply: types 1, 5 and 28 get the nearest TTL of 300 to 3600, all
   * others keep theirs.
   */
  lemma RepliedTtls(data: Octets, dnsId: U16, now: int, j: nat)
    requires Rewritten(data, dnsId, now).Ok? && j < |Parsed(data).value.records|
    ensures var rs, out := Parsed(data).value.records, Rewritten(data, dnsId, now).value.bytes;
      var f := StartOf(rs, j, RecordsStart(data)) + |rs[j].name| + 4;
      && f + 4 <= |data| == |out| && Unpack16(out, f - 4) == Unpack16(data, f - 4)
      && if Unpack16(data, f - 4) in {1, 5, 28} then NearestTtl(Unpack32(data, f), Unpack32(out, f))
         else Unpack32(out, f) == Unpack32(data, f)
  {
    hide *;
    RewrittenIsLong(data, dnsId, now);
    RewrittenCases(data, dnsId, now);
    var rs := Parsed(data).value.records;
    InputSits(data, j);
    ForwardedSits(data, dnsId, now, j);
    FieldsSit(data, StartOf(rs, j, RecordsStart(data)), rs[j]);
    RetimedIs(rs[j]);
    FieldsSit(Rewritten(data, dnsId, now).value.bytes, StartOf(rs, j, RecordsStart(data)), Retimed(rs[j]));
    OnlyTtlsChange(data, dnsId, now);
  }

  lemma RetimedIs(r: Record)
    ensures var c := Retimed(r);
      && c == r.(ttl := c.ttl) && if r.rtype in {1, 5, 28} then NearestTtl(r.ttl, c.ttl) else c.ttl == r.ttl
  {
    hide NearestTtl;
  }

  /**
   * The cache entry of a response. There is one exactly when a record of type
   * 1, 5 or 28 was parsed. Its TTL is the nearest of 300 to 3600 to that of
   * the last such record, and its expiry is as many seconds away; it holds the
   * picked records, each with its own nearest TTL and otherwise as it came.
   */
  lemma CacheEntryOf(data: Octets, dnsId: U16, now: int) returns (picked: seq<nat>, last: nat)
    requires Rewritten(data, dnsId, now).Ok?
    ensures var rs, cache := Parsed(data).value.records, Rewritten(data, dnsId, now).value.cache;
      && (cache.Some? <==> exists j :: 0 <= j < |rs| && rs[j].rtype in {1, 5, 28})
      && (cache.Some? ==>
            && var e := cache.value;
            && last < |rs| && rs[last].rtype in {1, 5, 28}
            && (forall j :: last < j < |rs| ==> rs[j].rtype !in {1, 5, 28})
            && NearestTtl(rs[last].ttl, e.ttl) && e.expire == now + e.ttl
            && |picked| == |e.records|
            && (forall i :: 0 <= i < |picked| ==>
                  && picked[i] < |rs| && NearestTtl(rs[picked[i]].ttl, e.records[i].ttl)
                  && e.records[i] == rs[picked[i]].(ttl := e.records[i].ttl))
            && (forall i, j :: 0 <= i < j < |picked| ==> picked[i] < picked[j])
            && (forall j :: 0 <= j < |rs| ==>
                  (j in picked <==> rs[j].rtype in {5, 28} || (rs[j].rtype == 1 && |Cached(rs[..j])| < 3))))
  {
    hide *;
    RewrittenIsLong(data, dnsId, now);
    RewrittenCases(data, dnsId, now);
    var s := Parsed(data).value;
    ReplyParts(data, s, dnsId, now);
    picked := CachedSubsequence(s.records);
    last := 0;
    CachedWhen(s.records);
    if Cached(s.records) != [] {
      last := CachedTtl(s.records);
      EntryRecords(s.records, picked);
      LastIs(s.records, last);
    }
  }

  /** The first record of type 1, 5 or 28 always enters. */
  lemma {:induction false} CachedWhen(rs: seq<Record>)
    ensures Cached(rs) != [] <==> exists j :: 0 <= j < |rs| && rs[j].rtype in {1, 5, 28}
    decreases |rs|
  {
    if rs != [] {
      var n := |rs| - 1;
      CachedPush(rs);
      CachedWhen(rs[..n]);
      hide Cached;
      assert forall j :: 0 <= j < n ==> rs[..n][j] == rs[j];
    } else {
      assert Cached(rs) == [];
    }
  }

  lemma EntryRecords(rs: seq<Record>, picked: seq<nat>)
    requires Picked(rs, Cached(rs), picked) && AllPicked(rs, picked)
    ensures var cached := Cached(rs);
      && |picked| == |cached|
      && (forall i :: 0 <= i < |picked| ==>
            && picked[i] < |rs| && NearestTtl(rs[picked[i]].ttl, cached[i].ttl)
            && cached[i] == rs[picked[i]].(ttl := cached[i].ttl))
      && (forall i, j :: 0 <= i < j < |picked| ==> picked[i] < picked[j])
      && (forall j :: 0 <= j < |rs| ==>
            (j in picked <==> rs[j].rtype in {5, 28} || (rs[j].rtype == 1 && |Cached(rs[..j])| < 3)))
  {
    hide Cached, NearestTtl, Retimed;
    forall i | 0 <= i < |picked| ensures
      && NearestTtl(rs[picked[i]].ttl, Cached(rs)[i].ttl) && Cached(rs)[i] == rs[picked[i]].(ttl := Cached(rs)[i].ttl)
    {
      assert picked[i] in picked;
      RetimedIs(rs[picked[i]]);
    }
  }

  lemma LastIs(rs: seq<Record>, last: nat)
    requires last < |rs| && Clampable(rs[last]) && LastTtl(rs) == ClampTtl(rs[last].ttl)
    requires forall j :: last < j < |rs| ==> !Clampable(rs[j])
    ensures rs[last].rtype in {1, 5, 28} && NearestTtl(rs[last].ttl, LastTtl(rs))
    ensures forall j :: last < j < |rs| ==> rs[j].rtype !in {1, 5, 28}
  {
    hide LastTtl, NearestTtl;
  }
}
