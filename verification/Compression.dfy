/**
 * Compressed names in replayed answers: which layouts of cached and uncached
 * records let every name survive the replay of a message.
 */
module Compression {
  import opened Wire
  import opened Names
  import opened Rewrite
  import opened Messages
  import opened Preserve
  import opened Client
  import opened Replay

  /** The least offset that no pointer can name. */
  const POINTER_REACH: nat := 16384

  /** A name in a record, its owner or one in its rdata, `offset` bytes from the start of the record. */
  datatype Spot = Spot(record: nat, offset: nat, name: Name)

  function Records(m: Message): (rs: seq<Record>)
    ensures |rs| == |All(m)|
  {
    AsRecords(All(m))
  }

  function FirstStart(m: Message): nat { 12 + |EncodeQuestion(m)| }

  /** Where record `j` starts in the message, and so in the forwarded reply. */
  function Start(m: Message, j: nat): nat
    requires j <= |All(m)|
  {
    FirstStart(m) + |EncodeRrs(All(m)[..j])|
  }

  predicate StandsIn(m: Message, s: Spot) {
    s.record < |All(m)| && Holds(Records(m)[s.record], s.offset, s.name)
  }

  /** `names` are the names of the records: all owners, and any names known to stand in rdata. */
  ghost predicate NamesOf(m: Message, names: set<Spot>) {
    && (forall s :: s in names ==> StandsIn(m, s))
    && (forall j :: 0 <= j < |All(m)| ==> Spot(j, 0, All(m)[j].name) in names)
  }

  function Offset(m: Message, s: Spot): nat
    requires s.record < |All(m)|
  {
    Start(m, s.record) + s.offset
  }

  /** A label or the ending of the name at `at` stands at `t`. */
  predicate InName(at: nat, n: Name, t: nat) {
    exists k :: 0 <= k <= |n.labels| && t == at + |EncodeLabels(n.labels[..k])|
  }

  /** `t` is a place inside the question name, or inside a name in front of `s`. */
  ghost predicate LeadsBack(m: Message, names: set<Spot>, s: Spot, t: nat)
    requires NamesOf(m, names) && s in names
  {
    || InName(12, m.question, t)
    || exists p :: p in names && Offset(m, p) < Offset(m, s) && InName(Offset(m, p), p.name, t)
  }

  /** Section 4.1.4 of RFC 1035: a pointer names a prior occurrence of a name. */
  ghost predicate Prior(m: Message, names: set<Spot>)
    requires NamesOf(m, names)
  {
    && m.question.ending.Root?
    && forall s :: s in names && s.name.ending.Pointer? ==> LeadsBack(m, names, s, s.name.ending.target)
  }

  // ---------------------------------------------------------------------------
  // The condition, and what it is about.

  /** The first record that is not cached has place `i`, in front of one that is cached. */
  predicate GapAt(rs: seq<Record>, i: nat) {
    i < |rs| && |Cached(rs[..i])| == i && !IsCached(rs, i) && |Cached(rs)| > i
  }

  /** No uncached record stands in front of a cached one, or only where no pointer reaches. */
  ghost predicate Tight(m: Message) {
    forall i: nat :: GapAt(Records(m), i) ==> Start(m, i) >= POINTER_REACH
  }

  ghost predicate SameLabels(x: Octets, a: nat, y: Octets, b: nat) {
    exists labels :: ExpandsTo(x, a, labels) && ExpandsTo(y, b, labels)
  }

  /** Every name in a cached record has an expansion in `x`, and the same one in `y` where its record moved to. */
  ghost predicate NamesKept(m: Message, names: set<Spot>, x: Octets, y: Octets) {
    forall s :: s in names && s.record < Reached(m) && StandsIn(m, s) && IsCached(Records(m), s.record) ==>
      SameLabels(x, Offset(m, s), y, MovedTo(Records(m), s.record, FirstStart(m)) + s.offset)
  }

  /** What is forwarded for the message and what is replayed of it later. */
  ghost predicate KeptInReplay(m: Message, names: set<Spot>, dnsId: U16, now: int, hit: Hit) {
    && Rewritten(Encode(m), dnsId, now).Ok? && ReplayFor(Encode(m), hit).Ok?
    && NamesKept(m, names, Rewritten(Encode(m), dnsId, now).value.bytes, ReplayFor(Encode(m), hit).value)
  }

  // ---------------------------------------------------------------------------
  // Where things stand.

  lemma Forwarded(m: Message, dnsId: U16, now: int, hit: Hit)
    requires WellFormed(m) && |Cached(Records(m))| < 0x1_0000
    ensures Rewritten(Encode(m), dnsId, now).Ok? && |Encode(m)| >= 12 && Parsed(Encode(m)).Ok?
    ensures ReplayFor(Encode(m), hit).Ok?
    ensures Parsed(Encode(m)).value.records == Records(m)[..Reached(m)]
    ensures RecordsStart(Encode(m)) == FirstStart(m)
  {
    hide *;
    var data := Encode(m);
    RewriteClampsMessage(m, dnsId, now);
    RewrittenIsLong(data, dnsId, now);
    RewrittenCases(data, dnsId, now);
    RecordsPrefix(m, Reached(m));
    CachedPrefix(Records(m), Reached(m));
    ReplayIs(data, hit);
    QuestionParsed(m);
    FirstStartIs(m);
  }

  lemma FirstStartIs(m: Message)
    ensures FirstStart(m) == 12 + |EncodeQuestion(m)|
  {
  }

  lemma RecordsPrefix(m: Message, k: nat)
    requires k <= |All(m)|
    ensures Records(m)[..k] == AsRecords(All(m)[..k])
  {
    hide AsRecord;
  }

  lemma StartIsOffset(m: Message, j: nat)
    requires j <= |All(m)|
    ensures StartOf(Records(m), j, FirstStart(m)) == Start(m, j)
  {
    hide *;
    RecordsPrefix(m, j);
    AsRecordsBytes(All(m)[..j]);
    StartIs(Records(m), j, FirstStart(m));
    OffsetIs(m, j);
  }

  lemma OffsetIs(m: Message, j: nat)
    requires j <= |All(m)|
    ensures Start(m, j) == FirstStart(m) + |EncodeRrs(All(m)[..j])|
  {
  }

  /** What holds of a record among the reached ones holds among all. */
  lemma ReachedSame(rs: seq<Record>, k: nat, j: nat, base: nat)
    requires j < k <= |rs|
    ensures rs[..k][j] == rs[j] && (IsCached(rs[..k], j) <==> IsCached(rs, j))
    ensures StartOf(rs[..k], j, base) == StartOf(rs, j, base) && MovedTo(rs[..k], j, base) == MovedTo(rs, j, base)
  {
    hide Enters, Cached, RecordBytes;
    assert rs[..k][..j] == rs[..j];
  }

  lemma SpotSits(m: Message, s: Spot, dnsId: U16, now: int, hit: Hit)
    requires WellFormed(m) && StandsIn(m, s) && s.record < Reached(m) && IsCached(Records(m), s.record)
    requires Rewritten(Encode(m), dnsId, now).Ok? && ReplayFor(Encode(m), hit).Ok?
    requires |Cached(Records(m))| < 0x1_0000
    ensures Sits(Rewritten(Encode(m), dnsId, now).value.bytes, Offset(m, s), EncodeName(s.name))
    ensures Sits(ReplayFor(Encode(m), hit).value, MovedTo(Records(m), s.record, FirstStart(m)) + s.offset,
                 EncodeName(s.name))
  {
    hide Encode, Rewritten, ReplayFor, IsCached, Holds, Sits, EncodeName, Records, Reached, Start, MovedTo, FirstStart;
    Forwarded(m, dnsId, now, hit);
    ReachedSame(Records(m), Reached(m), s.record, FirstStart(m));
    StartIsOffset(m, s.record);
    BothSit(Encode(m), dnsId, now, hit, s.record, s.offset, s.name);
  }

  lemma QuestionSits(m: Message, dnsId: U16, now: int, hit: Hit)
    requires WellFormed(m) && |Cached(Records(m))| < 0x1_0000
    ensures Rewritten(Encode(m), dnsId, now).Ok? && ReplayFor(Encode(m), hit).Ok?
    ensures Sits(Rewritten(Encode(m), dnsId, now).value.bytes, 12, EncodeName(m.question))
    ensures Sits(ReplayFor(Encode(m), hit).value, 12, EncodeName(m.question))
  {
    hide *;
    var data := Encode(m);
    Forwarded(m, dnsId, now, hit);
    RewrittenIsLong(data, dnsId, now);
    RewrittenCases(data, dnsId, now);
    QuestionParsed(m);
    ReplyParts(data, Parsed(data).value, dnsId, now);
    ReplayIs(data, hit);
    QuestionFirst(m);
    var s, cached := Parsed(data).value, Cached(Parsed(data).value.records);
    var front, q := EncodeName(m.question), Pack16(m.qtype) + Pack16(m.qclass);
    var tail := RecordBytes(RetimedAll(s.records)) + Drop(AfterQuestion(data), s.used);
    var header := Pack16(dnsId) + data[2..12];
    assert header + (front + q) + RecordBytes(RetimedAll(s.records)) + Drop(AfterQuestion(data), s.used)
        == header + (front + (q + tail));
    SitsBehind(header, front, q + tail);
    var replyHeader := ResponseHeader(hit.clientId, |cached|, hit.rd, hit.cd, 0);
    assert replyHeader + (front + q) + RecordBytes(WithTtl(cached, hit.ttl))
        == replyHeader + (front + (q + RecordBytes(WithTtl(cached, hit.ttl))));
    SitsBehind(replyHeader, front, q + RecordBytes(WithTtl(cached, hit.ttl)));
  }

  lemma QuestionFirst(m: Message)
    ensures EncodeQuestion(m) == EncodeName(m.question) + (Pack16(m.qtype) + Pack16(m.qclass))
  {
  }

  lemma StartsGrow(m: Message, i: nat, j: nat)
    requires i <= j <= |All(m)|
    ensures Start(m, i) <= Start(m, j)
  {
    hide EncodeRr, EncodeRrs;
    RrsSplit(All(m)[..j], i);
    assert All(m)[..j][..i] == All(m)[..i];
  }

  /** A name ends before the next record starts. */
  lemma SpotInside(m: Message, s: Spot)
    requires StandsIn(m, s)
    ensures Offset(m, s) + |EncodeName(s.name)| <= Start(m, s.record + 1)
  {
    hide *;
    var j := s.record;
    SpotIs(m, s);
    OffsetIs(m, j);
    OffsetIs(m, j + 1);
    RrsSplit(All(m)[..j + 1], j);
    assert All(m)[..j + 1][..j] == All(m)[..j] && All(m)[..j + 1][j..] == [All(m)[j]];
    OneRr(All(m)[j]);
    RrBytes(All(m)[j], []);
    HeldInside(AsRecord(All(m)[j]), s.offset, s.name);
  }

  lemma SpotIs(m: Message, s: Spot)
    requires StandsIn(m, s)
    ensures s.record < |All(m)| && Records(m)[s.record] == AsRecord(All(m)[s.record])
    ensures Holds(AsRecord(All(m)[s.record]), s.offset, s.name)
    ensures Offset(m, s) == Start(m, s.record) + s.offset
  {
    hide Holds, AsRecord;
  }

  lemma OneRr(r: Rr)
    ensures EncodeRrs([r]) == EncodeRr(r) && EncodeRr(r) + [] == EncodeRr(r)
  {
  }

  lemma HeldInside(r: Record, d: nat, n: Name)
    requires Holds(r, d, n)
    ensures d + |EncodeName(n)| <= |r.Bytes()| && r.Bytes() + [] == r.Bytes()
  {
    hide EncodeName;
  }

  /** The labels of a name in front of place `k`, and the name that is left from there. */
  lemma {:induction false} NameSplit(labels: seq<Label>, ending: Ending, k: nat)
    requires k <= |labels|
    ensures EncodeName(Name(labels, ending)) == EncodeLabels(labels[..k]) + EncodeName(Name(labels[k..], ending))
  {
    hide *;
    if k == 0 {
      NoLabels();
      assert labels[..0] == [] && labels[0..] == labels;
    } else {
      NameSplit(labels[1..], ending, k - 1);
      FirstLabel(labels, ending);
      LabelsFirst(labels[..k]);
      assert labels[..k][1..] == labels[1..][..k - 1] && labels[1..][k - 1..] == labels[k..];
      Associative([|labels[0]|] + labels[0], EncodeLabels(labels[..k][1..]), EncodeName(Name(labels[k..], ending)));
    }
  }

  lemma NoLabels()
    ensures EncodeLabels([]) == []
  {
  }

  lemma LabelsFirst(labels: seq<Label>)
    requires labels != []
    ensures EncodeLabels(labels) == [|labels[0]|] + labels[0] + EncodeLabels(labels[1..])
  {
  }

  // ---------------------------------------------------------------------------
  // Reading names.

  /** A name that stands in both reads the same when it has no pointer or its target reads the same. */
  lemma PlacedReads(x: Octets, a: nat, y: Octets, b: nat, n: Name)
    requires Sits(x, a, EncodeName(n)) && Sits(y, b, EncodeName(n))
    requires n.ending.Pointer? ==> n.ending.target >= 12 && SameLabels(x, n.ending.target, y, n.ending.target)
    ensures SameLabels(x, a, y, b)
  {
    hide EncodeName, EncodeLabels, ExpandsTo;
    var labels, rest: seq<Octets> := n.labels, [];
    if n.ending.Pointer? {
      rest :| ExpandsTo(x, n.ending.target, rest) && ExpandsTo(y, n.ending.target, rest);
    }
    var whole := labels + rest;
    assert whole[..|labels|] == labels && whole[|labels|..] == rest;
    EncodedNameExpands(x, a, n.labels, n.ending, whole);
    EncodedNameExpands(y, b, n.labels, n.ending, whole);
  }

  /** The same from any label of the name on. */
  lemma InnerReads(x: Octets, y: Octets, at: nat, n: Name, t: nat)
    requires Sits(x, at, EncodeName(n)) && Sits(y, at, EncodeName(n)) && InName(at, n, t)
    requires n.ending.Pointer? ==> n.ending.target >= 12 && SameLabels(x, n.ending.target, y, n.ending.target)
    ensures SameLabels(x, t, y, t)
  {
    hide *;
    var k := InNameAt(at, n, t);
    NameSplit(n.labels, n.ending, k);
    assert n == Name(n.labels, n.ending);
    SitsSplit(x, at, EncodeLabels(n.labels[..k]), EncodeName(Name(n.labels[k..], n.ending)));
    SitsSplit(y, at, EncodeLabels(n.labels[..k]), EncodeName(Name(n.labels[k..], n.ending)));
    PlacedReads(x, t, y, t, Name(n.labels[k..], n.ending));
  }

  lemma InNameAt(at: nat, n: Name, t: nat) returns (k: nat)
    requires InName(at, n, t)
    ensures k <= |n.labels| && t == at + |EncodeLabels(n.labels[..k])| && t >= at
  {
    k :| 0 <= k <= |n.labels| && t == at + |EncodeLabels(n.labels[..k])|;
  }

  /** Question name and the names of the first `i` records stand in the same places of `x` and `y`. */
  ghost predicate LeadingSits(m: Message, names: set<Spot>, x: Octets, y: Octets, i: nat) {
    && Sits(x, 12, EncodeName(m.question)) && Sits(y, 12, EncodeName(m.question))
    && forall p :: p in names && StandsIn(m, p) && p.record < i ==>
         Sits(x, Offset(m, p), EncodeName(p.name)) && Sits(y, Offset(m, p), EncodeName(p.name))
  }

  /** Whatever leads back into the leading records reads the same. */
  lemma {:induction false} LeadingReads(m: Message, names: set<Spot>, x: Octets, y: Octets, i: nat, s: Spot, t: nat)
    requires NamesOf(m, names) && Prior(m, names) && i <= |All(m)| && LeadingSits(m, names, x, y, i)
    requires s in names && LeadsBack(m, names, s, t) && (s.record < i || t < Start(m, i))
    ensures t >= 12 && SameLabels(x, t, y, t)
    decreases Offset(m, s)
  {
    hide SameLabels, InName, Sits, Start, Holds, Records;
    if InName(12, m.question, t) {
      var k := InNameAt(12, m.question, t);
      InnerReads(x, y, 12, m.question, t);
    } else {
      var p := SpotBefore(m, names, s, t);
      var k := InNameAt(Offset(m, p), p.name, t);
      BeforeStart(m, p, s, t, i);
      if p.name.ending.Pointer? {
        LeadingReads(m, names, x, y, i, p, p.name.ending.target);
      }
      InnerReads(x, y, Offset(m, p), p.name, t);
      FirstStartIs(m);
      OffsetIs(m, p.record);
    }
  }

  lemma SpotBefore(m: Message, names: set<Spot>, s: Spot, t: nat) returns (p: Spot)
    requires NamesOf(m, names) && s in names && LeadsBack(m, names, s, t) && !InName(12, m.question, t)
    ensures p in names && StandsIn(m, p) && Offset(m, p) < Offset(m, s) && InName(Offset(m, p), p.name, t)
  {
    hide InName, Holds, Start, Records;
    p :| p in names && Offset(m, p) < Offset(m, s) && InName(Offset(m, p), p.name, t);
  }

  /** A name in front of one in the leading records, or in front of where these end, stands in them itself. */
  lemma BeforeStart(m: Message, p: Spot, s: Spot, t: nat, i: nat)
    requires StandsIn(m, p) && StandsIn(m, s) && i <= |All(m)| && Offset(m, p) < Offset(m, s) && Offset(m, p) <= t
    requires s.record < i || t < Start(m, i)
    ensures p.record < i
  {
    hide *;
    SpotIs(m, p);
    SpotInside(m, s);
    if s.record < i { StartsGrow(m, s.record + 1, i); }
    if p.record >= i { StartsGrow(m, i, p.record); }
  }

  // ---------------------------------------------------------------------------
  // Without a gap in reach of pointers every name is kept.

  /** The records in front of the first one that is not cached. */
  lemma LeadingOf(rs: seq<Record>) returns (i: nat)
    ensures i <= |rs| && |Cached(rs[..i])| == i && (i < |rs| ==> !IsCached(rs, i))
  {
    hide *;
    i := 0;
    NoneCached(rs);
    while i < |rs| && IsCached(rs, i)
      invariant i <= |rs| && |Cached(rs[..i])| == i
    {
      OneMoreCached(rs, i);
      i := i + 1;
    }
  }

  lemma NoneCached(rs: seq<Record>)
    ensures |Cached(rs[..0])| == 0
  {
  }

  lemma OneMoreCached(rs: seq<Record>, j: nat)
    requires j < |rs|
    ensures |Cached(rs[..j + 1])| == |Cached(rs[..j])| + if IsCached(rs, j) then 1 else 0
  {
    hide Enters;
    assert rs[..j + 1][..j] == rs[..j];
    CachedPush(rs[..j + 1]);
  }

  lemma {:induction false} LeadingCached(rs: seq<Record>, i: nat, j: nat)
    requires j < i <= |rs| && |Cached(rs[..i])| == i
    ensures IsCached(rs, j) && |Cached(rs[..j])| == j
    decreases i
  {
    hide *;
    OneMoreCached(rs, i - 1);
    AllCached(rs[..i - 1]);
    if j < i - 1 { LeadingCached(rs, i - 1, j); }
  }

  /** A cached record behind the first one that is not makes a gap. */
  lemma GapInFront(rs: seq<Record>, i: nat, j: nat)
    requires i <= j < |rs| && |Cached(rs[..i])| == i && !IsCached(rs, i) && IsCached(rs, j)
    ensures GapAt(rs, i)
  {
    hide Cached, IsCached;
    OneMoreCached(rs, j);
    CachedPrefix(rs[..j], i);
    assert rs[..j][..i] == rs[..i];
    CachedPrefix(rs, j + 1);
  }

  lemma LeadingSpots(m: Message, names: set<Spot>, dnsId: U16, now: int, hit: Hit, i: nat)
    requires WellFormed(m) && |Cached(Records(m))| < 0x1_0000
    requires i <= Reached(m) && |Cached(Records(m)[..i])| == i
    ensures Rewritten(Encode(m), dnsId, now).Ok? && ReplayFor(Encode(m), hit).Ok?
    ensures LeadingSits(m, names, Rewritten(Encode(m), dnsId, now).value.bytes, ReplayFor(Encode(m), hit).value, i)
  {
    hide Encode, Rewritten, ReplayFor, IsCached, Holds, Sits, EncodeName, Records, Reached, Start, MovedTo, FirstStart;
    hide Cached, WellFormed;
    Forwarded(m, dnsId, now, hit);
    QuestionSits(m, dnsId, now, hit);
    forall p | p in names && StandsIn(m, p) && p.record < i ensures
      && Sits(Rewritten(Encode(m), dnsId, now).value.bytes, Offset(m, p), EncodeName(p.name))
      && Sits(ReplayFor(Encode(m), hit).value, Offset(m, p), EncodeName(p.name))
    {
      var j := p.record;
      LeadingCached(Records(m), i, j);
      SpotSits(m, p, dnsId, now, hit);
      LeadingStart(Records(m), j, j, FirstStart(m));
      StartIsOffset(m, j);
    }
  }

  /**
   * A well-formed message with pointers to prior names, and without a gap in
   * their reach, has every name of its cached records kept in every replay.
   */
  lemma TightKeepsNames(m: Message, names: set<Spot>, dnsId: U16, now: int, hit: Hit)
    requires WellFormed(m) && NamesOf(m, names) && Prior(m, names) && Tight(m) && |Cached(Records(m))| < 0x1_0000
    ensures KeptInReplay(m, names, dnsId, now, hit)
  {
    hide *;
    Forwarded(m, dnsId, now, hit);
    var x, y := Rewritten(Encode(m), dnsId, now).value.bytes, ReplayFor(Encode(m), hit).value;
    var rs := Records(m);
    ReachedIs(m);
    var i := LeadingOf(rs[..Reached(m)]);
    assert rs[..Reached(m)][..i] == rs[..i];
    if i < Reached(m) { ReachedSame(rs, Reached(m), i, 0); }
    LeadingSpots(m, names, dnsId, now, hit, i);
    forall s | s in names && s.record < Reached(m) && StandsIn(m, s) && IsCached(rs, s.record)
      ensures SameLabels(x, Offset(m, s), y, MovedTo(rs, s.record, FirstStart(m)) + s.offset)
    {
      KeptSpot(m, names, dnsId, now, hit, i, s);
    }
    AllKept(m, names, dnsId, now, hit);
  }

  lemma AllKept(m: Message, names: set<Spot>, dnsId: U16, now: int, hit: Hit)
    requires Rewritten(Encode(m), dnsId, now).Ok? && ReplayFor(Encode(m), hit).Ok?
    requires forall s :: s in names && s.record < Reached(m) && StandsIn(m, s) && IsCached(Records(m), s.record) ==>
      SameLabels(Rewritten(Encode(m), dnsId, now).value.bytes, Offset(m, s), ReplayFor(Encode(m), hit).value,
                 MovedTo(Records(m), s.record, FirstStart(m)) + s.offset)
    ensures KeptInReplay(m, names, dnsId, now, hit)
  {
    hide Encode, Rewritten, ReplayFor, SameLabels, IsCached, StandsIn, Reached, Records, MovedTo, FirstStart, Offset;
  }

  lemma PointerOf(m: Message, names: set<Spot>, s: Spot, i: nat)
    requires NamesOf(m, names) && Prior(m, names) && Tight(m) && s in names && s.name.ending.Pointer? && i <= |All(m)|
    ensures LeadsBack(m, names, s, s.name.ending.target)
    ensures GapAt(Records(m), i) ==> s.name.ending.target < Start(m, i)
  {
    hide Records, GapAt, Start, LeadsBack, NamesOf;
  }

  lemma KeptSpot(m: Message, names: set<Spot>, dnsId: U16, now: int, hit: Hit, i: nat, s: Spot)
    requires WellFormed(m) && NamesOf(m, names) && Prior(m, names) && Tight(m) && |Cached(Records(m))| < 0x1_0000
    requires Rewritten(Encode(m), dnsId, now).Ok? && ReplayFor(Encode(m), hit).Ok?
    requires s in names && s.record < Reached(m) && StandsIn(m, s) && IsCached(Records(m), s.record)
    requires i <= Reached(m) && |Cached(Records(m)[..i])| == i && (i < Reached(m) ==> !IsCached(Records(m), i))
    requires LeadingSits(m, names, Rewritten(Encode(m), dnsId, now).value.bytes, ReplayFor(Encode(m), hit).value, i)
    ensures SameLabels(Rewritten(Encode(m), dnsId, now).value.bytes, Offset(m, s), ReplayFor(Encode(m), hit).value,
                       MovedTo(Records(m), s.record, FirstStart(m)) + s.offset)
  {
    hide *;
    Forwarded(m, dnsId, now, hit);
    ReachedIs(m);
    var x, y := Rewritten(Encode(m), dnsId, now).value.bytes, ReplayFor(Encode(m), hit).value;
    if s.name.ending.Pointer? {
      if s.record >= i { GapInFront(Records(m), i, s.record); }
      PointerOf(m, names, s, i);
      LeadingReads(m, names, x, y, i, s, s.name.ending.target);
    }
    SpotSits(m, s, dnsId, now, hit);
    PlacedReads(x, Offset(m, s), y, MovedTo(Records(m), s.record, FirstStart(m)) + s.offset, s.name);
  }

  // ---------------------------------------------------------------------------
  // Pointers to prior names are in range.

  lemma InnerBound(at: nat, n: Name, t: nat)
    requires InName(at, n, t)
    ensures at <= t < at + |EncodeName(n)|
  {
    hide *;
    var k := InNameAt(at, n, t);
    NameSplit(n.labels, n.ending, k);
    assert n == Name(n.labels, n.ending);
    NotEmpty(Name(n.labels[k..], n.ending));
  }

  lemma NotEmpty(n: Name)
    ensures |EncodeName(n)| >= 1 && (n.ending.Pointer? ==> |EncodeName(n)| >= 2)
  {
    hide EncodeLabels;
  }

  lemma EncodedSize(m: Message)
    ensures |Encode(m)| == Start(m, |All(m)|) + |m.additional|
    ensures FirstStart(m) == 12 + |EncodeName(m.question)| + 4 && Start(m, 0) == FirstStart(m)
  {
    hide EncodeHeader, EncodeName, EncodeRr;
    assert All(m)[..|All(m)|] == All(m) && All(m)[..0] == [];
  }

  lemma BackIsInRange(m: Message, names: set<Spot>, s: Spot, t: nat)
    requires NamesOf(m, names) && s in names && LeadsBack(m, names, s, t)
    ensures 12 <= t < |Encode(m)|
  {
    hide InName, Sits, Start, Holds, Records, Encode, FirstStart, EncodeName;
    EncodedSize(m);
    StartsGrow(m, 0, |All(m)|);
    if InName(12, m.question, t) {
      InnerBound(12, m.question, t);
    } else {
      var p := SpotBefore(m, names, s, t);
      InnerBound(Offset(m, p), p.name, t);
      SpotInside(m, p);
      StartsGrow(m, p.record + 1, |All(m)|);
      StartsGrow(m, 0, p.record);
    }
  }

  lemma PriorIsWellFormed(m: Message, names: set<Spot>)
    requires NamesOf(m, names) && Prior(m, names)
    ensures WellFormed(m)
  {
    hide Encode, LeadsBack, StandsIn;
    forall j | 0 <= j < |All(m)| ensures InRange(All(m)[j].name, |Encode(m)|) {
      var s := Spot(j, 0, All(m)[j].name);
      assert s in names;
      if s.name.ending.Pointer? { BackIsInRange(m, names, s, s.name.ending.target); }
    }
    assert AllInRange(All(m), |Encode(m)|);
  }

  // ---------------------------------------------------------------------------
  // With a gap in reach of pointers some message of the same layout loses a name.

  /** The same question, numbers and types of records, and the same records in front of a gap. */
  ghost predicate SameLayout(m: Message, o: Message) {
    && o.question == m.question && |o.answers| == |m.answers| && |o.authority| == |m.authority|
    && (forall k :: 0 <= k < |All(m)| ==> All(o)[k].rtype == All(m)[k].rtype)
    && (forall i: nat :: GapAt(Records(m), i) ==> All(o)[..i] == All(m)[..i])
  }

  predicate SameTypes(a: seq<Record>, b: seq<Record>) {
    |a| == |b| && forall k :: 0 <= k < |a| ==> a[k].rtype == b[k].rtype
  }

  lemma {:induction false} CachedByType(a: seq<Record>, b: seq<Record>)
    requires SameTypes(a, b)
    ensures |Cached(a)| == |Cached(b)|
    decreases |a|
  {
    if a != [] {
      var n := |a| - 1;
      CachedPush(a);
      CachedPush(b);
      CachedByType(a[..n], b[..n]);
      hide Cached;
    }
  }

  lemma PrefixesByType(a: seq<Record>, b: seq<Record>, k: nat)
    requires SameTypes(a, b) && k <= |a|
    ensures |Cached(a[..k])| == |Cached(b[..k])|
    ensures k < |a| ==> (IsCached(a, k) <==> IsCached(b, k))
  {
    hide Cached;
    CachedByType(a[..k], b[..k]);
  }

  lemma GapByType(a: seq<Record>, b: seq<Record>, i: nat)
    requires SameTypes(a, b)
    ensures GapAt(a, i) <==> GapAt(b, i)
  {
    hide Cached, IsCached, SameTypes;
    CachedByType(a, b);
    SameSizes(a, b);
    if i < |a| { PrefixesByType(a, b, i); }
  }

  lemma SameSizes(a: seq<Record>, b: seq<Record>)
    requires SameTypes(a, b)
    ensures |a| == |b|
  {
  }

  lemma LayoutTypes(m: Message, o: Message)
    requires SameLayout(m, o)
    ensures SameTypes(Records(m), Records(o)) && |All(o)| == |All(m)|
  {
    hide EncodeName, GapAt;
  }

  lemma SameStart(m: Message, o: Message, i: nat)
    requires o.question == m.question && i <= |All(m)| && i <= |All(o)| && All(o)[..i] == All(m)[..i]
    ensures Start(o, i) == Start(m, i) && FirstStart(o) == FirstStart(m)
  {
    hide EncodeName, EncodeRrs;
  }

  lemma LayoutKeepsTight(m: Message, o: Message)
    requires SameLayout(m, o) && Tight(m)
    ensures Tight(o) && |Cached(Records(o))| == |Cached(Records(m))|
  {
    hide Start, Records, Cached, IsCached;
    LayoutTypes(m, o);
    CachedByType(Records(m), Records(o));
    forall i: nat | GapAt(Records(o), i) ensures Start(o, i) >= POINTER_REACH {
      GapByType(Records(m), Records(o), i);
      GapBound(Records(m), i);
      SameStart(m, o, i);
    }
  }

  lemma GapBound(rs: seq<Record>, i: nat)
    requires GapAt(rs, i)
    ensures i < |rs| && |Cached(rs[..i])| == i && !IsCached(rs, i)
  {
  }

  /** The first cached record behind a gap. */
  lemma BehindGap(rs: seq<Record>, i: nat) returns (j: nat)
    requires GapAt(rs, i)
    ensures i < j < |rs| && |Cached(rs[..j])| == i && IsCached(rs, j)
  {
    var all := |Cached(rs)|;
    assert all > i && rs[..|rs|] == rs;
    GapBound(rs, i);
    hide *;
    OneMoreCached(rs, i);
    j := i + 1;
    while j < |rs| && !IsCached(rs, j)
      invariant i < j <= |rs| && |Cached(rs[..j])| == i
    {
      OneMoreCached(rs, j);
      j := j + 1;
    }
  }

  /**
   * Leading records as they are; behind them bare owners that point to the
   * question name, but for record `j`, which points to `target`. Record `i` is
   * long enough to make up for short records in front of it, so that the caps
   * let all records through.
   */
  function RemadeRr(r: Rr, k: nat, i: nat, j: nat, target: Offset14): Rr
    requires i < 0xFFFF
  {
    if k < i then r
    else r.(name := Name([], Pointer(if k == j then target else 12)),
            rdata := if k == i then seq(i + 1, _ => 0) else [0])
  }

  function Remade(rs: seq<Rr>, i: nat, j: nat, target: Offset14): (o: seq<Rr>)
    requires i < 0xFFFF
    ensures |o| == |rs| && forall k :: 0 <= k < |rs| ==> o[k] == RemadeRr(rs[k], k, i, j, target)
  {
    seq(|rs|, k requires 0 <= k < |rs| => RemadeRr(rs[k], k, i, j, target))
  }

  function RemadeMessage(m: Message, i: nat, j: nat, target: Offset14): (o: Message)
    requires i < 0xFFFF
  {
    var n, rs := |m.answers|, Remade(All(m), i, j, target);
    m.(answers := rs[..n], authority := rs[n..])
  }

  lemma RemadeAll(m: Message, i: nat, j: nat, target: Offset14)
    requires i < 0xFFFF && i < j < |All(m)| && GapAt(Records(m), i)
    ensures var o := RemadeMessage(m, i, j, target);
      && All(o) == Remade(All(m), i, j, target) && All(o)[..i] == All(m)[..i]
      && SameLayout(m, o) && |All(o)| == |All(m)| && o.question == m.question
  {
    hide Records, Cached, IsCached;
    var o := RemadeMessage(m, i, j, target);
    forall l: nat | GapAt(Records(m), l) ensures All(o)[..l] == All(m)[..l] {
      OneGap(Records(m), i, l);
    }
  }

  lemma OneGap(rs: seq<Record>, i: nat, l: nat)
    requires GapAt(rs, i) && GapAt(rs, l)
    ensures i == l
  {
    GapBound(rs, i);
    GapBound(rs, l);
    hide *;
    if i < l { LeadingCached(rs, l, i); }
    if l < i { LeadingCached(rs, i, l); }
  }

  lemma {:induction false} ElevenEach(rs: seq<Rr>)
    ensures |EncodeRrs(rs)| >= 11 * |rs|
  {
    hide EncodeRr;
    if rs != [] {
      ShortestRecord(rs[0]);
      ElevenEach(rs[1..]);
    }
  }

  /** Only so many records fit in front of an offset. */
  lemma FewInFront(m: Message, i: nat)
    requires i <= |All(m)| && Start(m, i) < POINTER_REACH
    ensures i < 0xFFFF
  {
    hide EncodeRrs, EncodeRr;
    ElevenEach(All(m)[..i]);
  }

  lemma LongEnough(rs: seq<Rr>, i: nat)
    requires i < |rs| && |EncodeRr(rs[i])| >= 12 + i
    requires forall k :: i < k < |rs| ==> |EncodeRr(rs[k])| >= 12
    ensures |EncodeRrs(rs)| >= 12 * |rs|
  {
    hide EncodeRr, EncodeRrs;
    var later := rs[i..];
    RrsSplit(rs, i);
    ElevenEach(rs[..i]);
    RrsFirst(later);
    LongRecords(later[1..]);
  }

  lemma RemadeSizes(rs: seq<Rr>, i: nat, j: nat, target: Offset14)
    requires i < 0xFFFF && i < |rs|
    ensures var o := Remade(rs, i, j, target);
      |EncodeRr(o[i])| >= 12 + i && forall k :: i <= k < |rs| ==> |EncodeRr(o[k])| >= 12
  {
    var o := Remade(rs, i, j, target);
    forall k | i <= k < |rs| ensures |EncodeRr(o[k])| == 12 + |o[k].rdata| {
      RrBytes(o[k], []);
      BareSize(o[k].name.ending.target);
    }
    hide EncodeRr;
  }

  lemma RemadeReached(m: Message, i: nat, j: nat, target: Offset14)
    requires i < 0xFFFF && i < j < |All(m)| && GapAt(Records(m), i)
    ensures var o := RemadeMessage(m, i, j, target); Reached(o) == |All(o)|
  {
    hide *;
    var o, n, all := RemadeMessage(m, i, j, target), |m.answers|, Remade(All(m), i, j, target);
    RemadeAll(m, i, j, target);
    RemadeParts(m, i, j, target);
    RemadeSizes(All(m), i, j, target);
    LongEnough(all, i);
    RrsConcat(o.answers, o.authority);
    if n > i {
      LongRecords(o.authority);
    } else {
      LongEnough(o.authority, i - n);
    }
    CapNeverBites(o);
  }

  lemma RemadeParts(m: Message, i: nat, j: nat, target: Offset14)
    requires i < 0xFFFF
    ensures var o, all := RemadeMessage(m, i, j, target), Remade(All(m), i, j, target);
      && |all| == |All(m)| == |m.answers| + |m.authority|
      && o.answers == all[..|m.answers|] && o.authority == all[|m.answers|..]
      && o.answers + o.authority == All(o) == all
      && Behind(o) >= |EncodeRrs(All(o))| && |o.answers| == |m.answers| && |o.authority| == |m.authority|
  {
    hide EncodeRrs, RemadeRr;
  }

  /** The names of the remade message: its owners, and in the leading records the names of `m`. */
  function RemadeNames(m: Message, names: set<Spot>, i: nat, o: Message): set<Spot> {
    (set s | s in names && s.record < i) + (set k | 0 <= k < |All(o)| :: Spot(k, 0, All(o)[k].name))
  }

  lemma LeadingSame(m: Message, o: Message, i: nat, s: Spot)
    requires i <= |All(m)| && i <= |All(o)| && o.question == m.question && All(o)[..i] == All(m)[..i] && s.record < i
    ensures StandsIn(o, s) <==> StandsIn(m, s)
    ensures Offset(o, s) == Offset(m, s) && All(o)[s.record] == All(m)[s.record]
  {
    hide Holds, EncodeRrs, EncodeName, AsRecord;
    var j := s.record;
    assert All(o)[j] == All(o)[..i][j] == All(m)[..i][j] == All(m)[j];
    assert All(o)[..j] == All(o)[..i][..j] && All(m)[..j] == All(m)[..i][..j];
    SameStart(m, o, j);
  }

  lemma OwnerStands(o: Message, k: nat)
    requires k < |All(o)|
    ensures StandsIn(o, Spot(k, 0, All(o)[k].name)) && Offset(o, Spot(k, 0, All(o)[k].name)) == Start(o, k)
  {
    hide EncodeName, Start, Holds;
    OwnerSits(Records(o)[k], All(o)[k].name);
  }

  lemma RemadeNamesOf(m: Message, names: set<Spot>, i: nat, o: Message)
    requires NamesOf(m, names) && o.question == m.question
    requires i <= |All(m)| && i <= |All(o)| && All(o)[..i] == All(m)[..i]
    ensures NamesOf(o, RemadeNames(m, names, i, o))
    ensures forall s :: s in RemadeNames(m, names, i, o) && s.record < i ==> s in names
    ensures forall s :: s in names && s.record < i ==> s in RemadeNames(m, names, i, o)
    ensures forall s :: s in RemadeNames(m, names, i, o) && s.record >= i ==>
      s == Spot(s.record, 0, All(o)[s.record].name)
  {
    hide StandsIn, Start;
    var all := RemadeNames(m, names, i, o);
    forall s | s in all ensures StandsIn(o, s) {
      if s in names && s.record < i {
        LeadingSame(m, o, i, s);
      } else {
        OwnerStands(o, s.record);
      }
    }
    forall s | s in all && s.record < i ensures s in names {
      LeadingSame(m, o, i, s);
    }
  }

  lemma AtStart(at: nat, n: Name)
    ensures InName(at, n, at)
  {
    assert n.labels[..0] == [] && EncodeLabels([]) == [];
  }

  lemma LeadsBackStill(m: Message, names: set<Spot>, o: Message, others: set<Spot>, i: nat, s: Spot, t: nat)
    requires NamesOf(m, names) && NamesOf(o, others) && o.question == m.question
    requires i <= |All(m)| && i <= |All(o)| && All(o)[..i] == All(m)[..i]
    requires forall p :: p in names && p.record < i ==> p in others
    requires s in names && s.record < i && s in others && LeadsBack(m, names, s, t)
    ensures LeadsBack(o, others, s, t)
  {
    hide InName, Start, Holds, Records;
    LeadingSame(m, o, i, s);
    if !InName(12, m.question, t) {
      var p := SpotBefore(m, names, s, t);
      var k := InNameAt(Offset(m, p), p.name, t);
      BeforeStart(m, p, s, t, i);
      LeadingSame(m, o, i, p);
      assert p in others && Offset(o, p) < Offset(o, s) && InName(Offset(o, p), p.name, t);
    }
  }

  lemma RemadePrior(m: Message, names: set<Spot>, i: nat, j: nat)
    requires i < 0xFFFF && i < j < |All(m)| && GapAt(Records(m), i) && Start(m, i) < POINTER_REACH
    requires NamesOf(m, names) && Prior(m, names)
    ensures var o := RemadeMessage(m, i, j, Start(m, i));
      NamesOf(o, RemadeNames(m, names, i, o)) && Prior(o, RemadeNames(m, names, i, o))
  {
    hide GapAt, LeadsBack, StandsIn, Start, Records, Remade, RemadeNames;
    var o := RemadeMessage(m, i, j, Start(m, i));
    RemadeAll(m, i, j, Start(m, i));
    RemadeNamesOf(m, names, i, o);
    var others := RemadeNames(m, names, i, o);
    forall s | s in others && s.name.ending.Pointer? ensures LeadsBack(o, others, s, s.name.ending.target) {
      if s.record < i {
        LeadingSame(m, o, i, s);
        LeadsBackStill(m, names, o, others, i, s, s.name.ending.target);
      } else {
        RemadeLeadsBack(m, o, others, i, j, s);
      }
    }
  }

  lemma RemadeLeadsBack(m: Message, o: Message, others: set<Spot>, i: nat, j: nat, s: Spot)
    requires i < 0xFFFF && i < j < |All(m)| && Start(m, i) < POINTER_REACH && NamesOf(o, others)
    requires o.question == m.question && All(o) == Remade(All(m), i, j, Start(m, i)) && All(o)[..i] == All(m)[..i]
    requires s in others && s.record >= i && s == Spot(s.record, 0, All(o)[s.record].name)
    ensures s.name.ending.Pointer? && LeadsBack(o, others, s, s.name.ending.target)
  {
    hide Holds, Start, Records, EncodeLabels, EncodeName, InName;
    AtStart(12, o.question);
    if s.record == j {
      var p := Spot(i, 0, All(o)[i].name);
      assert p in others;
      SameStart(m, o, i);
      OwnerStands(o, i);
      OwnerStands(o, j);
      SpotInside(o, p);
      NotEmpty(p.name);
      StartsGrow(o, i + 1, j);
      AtStart(Start(o, i), p.name);
    }
  }

  lemma Reachable(at: nat)
    ensures at < POINTER_REACH <==> at < 16384
  {
  }

  lemma RemadeFacts(m: Message, i: nat, j: nat, target: Offset14)
    requires i < 0xFFFF && i < j < |All(m)| && GapAt(Records(m), i)
    ensures var o := RemadeMessage(m, i, j, target);
      && SameLayout(m, o) && |All(o)| == |All(m)| && o.question == m.question && Reached(o) == |All(o)|
      && All(o)[j] == RemadeRr(All(m)[j], j, i, j, target) && All(o)[..i] == All(m)[..i]
  {
    hide *;
    RemadeAll(m, i, j, target);
    RemadeReached(m, i, j, target);
  }

  lemma LosesName(m: Message, names: set<Spot>, i: nat) returns (o: Message, others: set<Spot>)
    requires NamesOf(m, names) && Prior(m, names) && |Cached(Records(m))| < 0x1_0000
    requires GapAt(Records(m), i) && Start(m, i) < POINTER_REACH
    ensures SameLayout(m, o) && NamesOf(o, others) && Prior(o, others)
    ensures forall dnsId, now, hit :: !KeptInReplay(o, others, dnsId, now, hit)
  {
    hide *;
    GapBound(Records(m), i);
    Reachable(Start(m, i));
    var j := BehindGap(Records(m), i);
    FewInFront(m, i);
    o := RemadeMessage(m, i, j, Start(m, i));
    others := RemadeNames(m, names, i, o);
    RemadeFacts(m, i, j, Start(m, i));
    RemadePrior(m, names, i, j);
    LayoutTypes(m, o);
    CachedByType(Records(m), Records(o));
    PriorIsWellFormed(o, others);
    forall dnsId, now, hit ensures !KeptInReplay(o, others, dnsId, now, hit) {
      MisreadInReplay(m, o, others, i, j, dnsId, now, hit);
    }
  }

  lemma MisreadInReplay(m: Message, o: Message, others: set<Spot>, i: nat, j: nat, dnsId: U16, now: int, hit: Hit)
    requires i < 0xFFFF && i < j < |All(m)| && Start(m, i) < POINTER_REACH
    requires |All(o)| == |All(m)| && All(o)[..i] == All(m)[..i]
    requires All(o)[j] == RemadeRr(All(m)[j], j, i, j, Start(m, i))
    requires o.question == m.question && WellFormed(o) && NamesOf(o, others) && Reached(o) == |All(o)|
    requires SameTypes(Records(m), Records(o)) && |Cached(Records(o))| < 0x1_0000
    requires |Cached(Records(m)[..i])| == i && |Cached(Records(m)[..j])| == i && IsCached(Records(m), j)
    ensures !KeptInReplay(o, others, dnsId, now, hit)
  {
    hide *;
    var rs, start := Records(o), FirstStart(o);
    Reachable(Start(m, i));
    Forwarded(o, dnsId, now, hit);
    assert rs[..|rs|] == rs && |rs| == |All(o)|;
    SameSizes(Records(m), rs);
    PrefixesByType(Records(m), rs, i);
    PrefixesByType(Records(m), rs, j);
    SameStart(m, o, i);
    StartIsOffset(o, i);
    RemadeOwner(All(m)[j], i, j, Start(m, i));
    SelfOwner(o, j);
    if KeptInReplay(o, others, dnsId, now, hit) {
      var labels := KeptOwner(o, others, j, dnsId, now, hit);
      PointsToItself(Encode(o), hit, i, j, [], labels);
    }
  }

  lemma RemadeOwner(r: Rr, i: nat, j: nat, target: Offset14)
    requires i < 0xFFFF && i < j
    ensures RemadeRr(r, j, i, j, target).name == Name([], Pointer(target))
  {
  }

  lemma SelfOwner(o: Message, j: nat)
    requires j < |All(o)|
    ensures Records(o)[j].name == EncodeName(All(o)[j].name)
  {
    hide EncodeName;
  }

  lemma KeptOwner(o: Message, names: set<Spot>, j: nat, dnsId: U16, now: int, hit: Hit) returns (labels: seq<Octets>)
    requires KeptInReplay(o, names, dnsId, now, hit) && NamesOf(o, names)
    requires j < Reached(o) && j < |All(o)| && IsCached(Records(o), j)
    ensures |Encode(o)| >= 12 && Parsed(Encode(o)).Ok? && ReplayFor(Encode(o), hit).Ok?
    ensures ExpandsTo(ReplayFor(Encode(o), hit).value, MovedTo(Records(o), j, FirstStart(o)), labels)
  {
    hide Encode, ReplayFor, MovedTo, IsCached, StandsIn, ExpandsTo, Offset, Records, FirstStart, Reached;
    RewrittenIsLong(Encode(o), dnsId, now);
    RewrittenCases(Encode(o), dnsId, now);
    hide Rewritten;
    var x, y := Rewritten(Encode(o), dnsId, now).value.bytes, ReplayFor(Encode(o), hit).value;
    var s := Spot(j, 0, All(o)[j].name);
    assert s in names && StandsIn(o, s);
    labels :| ExpandsTo(x, Offset(o, s), labels) && ExpandsTo(y, MovedTo(Records(o), j, FirstStart(o)), labels);
  }

  /** Every message of the layout with pointers to prior names, whatever names it has, survives every replay. */
  ghost predicate LayoutKeepsNames(m: Message) {
    forall o, names, dnsId, now, hit :: SameLayout(m, o) && NamesOf(o, names) && Prior(o, names) ==>
      KeptInReplay(o, names, dnsId, now, hit)
  }

  /**
   * Replays keep the names of all messages of a layout exactly when no record
   * that is not cached stands in front of a cached one, at an offset that a
   * pointer can name.
   */
  lemma ReplayConditionIsExact(m: Message, names: set<Spot>)
    requires NamesOf(m, names) && Prior(m, names) && |Cached(Records(m))| < 0x1_0000
    ensures Tight(m) <==> LayoutKeepsNames(m)
  {
    hide Records, Cached, SameLayout, NamesOf, Prior, KeptInReplay, IsCached, Start;
    if Tight(m) {
      forall o, others, dnsId, now, hit | SameLayout(m, o) && NamesOf(o, others) && Prior(o, others)
        ensures KeptInReplay(o, others, dnsId, now, hit)
      {
        LayoutKeepsTight(m, o);
        PriorIsWellFormed(o, others);
        TightKeepsNames(o, others, dnsId, now, hit);
      }
    } else {
      var i: nat :| GapAt(Records(m), i) && Start(m, i) < POINTER_REACH;
      var o, others := LosesName(m, names, i);
      assert !KeptInReplay(o, others, 0, 0, Hit(0, 0, 0, 0));
    }
  }

  /** The names of the signed message: three owners, and the target of its CNAME record. */
  const SIGNED_NAMES: set<Spot> :=
    {Spot(0, 0, SIGNATURE.name), Spot(1, 0, ALIAS.name), Spot(2, 0, ADDRESS.name), Spot(1, 12, Name([[98]], Root))}

  lemma SignedSpots()
    ensures NamesOf(SIGNED, SIGNED_NAMES)
    ensures |All(SIGNED)| == 3 && Start(SIGNED, 0) == 19 && Start(SIGNED, 1) == 32 && Start(SIGNED, 2) == 47
  {
    SignedSizes();
    assert All(SIGNED) == [SIGNATURE, ALIAS, ADDRESS];
    var b: seq<Label> := [[98]];
    assert EncodeName(Name(b, Root)) == [1, 98, 0] && Holds(AsRecord(ALIAS), 12, Name(b, Root));
    assert FirstStart(SIGNED) == 19;
    OwnerSits(AsRecord(SIGNATURE), SIGNATURE.name);
    OwnerSits(AsRecord(ALIAS), ALIAS.name);
    OwnerSits(AsRecord(ADDRESS), ADDRESS.name);
    hide EncodeName, Holds, EncodeRr, FirstStart, AsRecord;
    SignedStarts();
  }

  lemma SignedStarts()
    ensures |EncodeRrs(All(SIGNED)[..0])| == 0
    ensures |EncodeRrs(All(SIGNED)[..1])| == 13
    ensures |EncodeRrs(All(SIGNED)[..2])| == 28
  {
    SignedSizes();
    var all := All(SIGNED);
    assert all[..0] == [] && all[..1] == [SIGNATURE] && all[..2] == [SIGNATURE, ALIAS] == [SIGNATURE] + [ALIAS];
    hide EncodeRr;
    OneRr(SIGNATURE);
    OneRr(ALIAS);
    RrsConcat([SIGNATURE], [ALIAS]);
  }

  /** The signed message has a gap in reach, so its layout does lose names. */
  lemma SignedLayoutLosesNames()
    ensures NamesOf(SIGNED, SIGNED_NAMES) && Prior(SIGNED, SIGNED_NAMES)
    ensures GapAt(Records(SIGNED), 0) && !LayoutKeepsNames(SIGNED)
  {
    SignedSpots();
    SignedGap();
    AtStart(12, SIGNED.question);
    AtStart(44, Name([[98]], Root));
    assert Offset(SIGNED, Spot(1, 12, Name([[98]], Root))) == 44 && Offset(SIGNED, Spot(2, 0, ADDRESS.name)) == 47;
    hide StandsIn, InName, Start, Records, LayoutKeepsNames, GapAt;
    assert Prior(SIGNED, SIGNED_NAMES);
    ReplayConditionIsExact(SIGNED, SIGNED_NAMES);
    assert !Tight(SIGNED);
  }

  lemma SignedGap()
    ensures GapAt(Records(SIGNED), 0) && |Cached(Records(SIGNED))| == 2
  {
    assert All(SIGNED) == [SIGNATURE, ALIAS, ADDRESS];
    SignedCached();
    assert Records(SIGNED)[..0] == [];
    hide EncodeName;
  }
}
