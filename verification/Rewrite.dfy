/** ttl_rewrite of dns_tls_packets.py: record framing, TTL clamping and the list of records to cache. */
module Rewrite {
  import opened Wire
  import opened Names

  const A: U16 := 1
  const CNAME: U16 := 5
  const AAAA: U16 := 28
  const MINIMUM_TTL: U32 := 300
  const DEFAULT_TTL: U32 := 3600
  const MAX_A_RECORD_COUNT: nat := 3

  /**
   * A resource record as the code keeps it. Type, class and TTL stand for their
   * two, two and four bytes, and `data` starts with the two bytes of rdlength.
   */
  datatype Record = Record(name: Octets, rtype: U16, rclass: U16, ttl: U32, data: Octets) {
    function Bytes(): Octets { name + Pack16(rtype) + Pack16(rclass) + Pack32(ttl) + data }
  }

  /** The types whose TTL is clamped and that may be cached. */
  predicate Clampable(r: Record) { r.rtype in {A, CNAME, AAAA} }

  function Distance(a: int, b: int): nat { if a < b then b - a else a - b }

  /** `c` is nearest in 300 to 3600 to the TTL, which counts as 0 with its top bit set (section 8 of RFC 2181). */
  predicate NearestTtl(ttl: nat, c: int) {
    var effective := if ttl >= 0x8000_0000 then 0 else ttl;
    300 <= c <= 3600 && forall x :: 300 <= x <= 3600 ==> Distance(effective, c) <= Distance(effective, x)
  }

  /** `max(300, min(ttl, 3600))`. */
  function ClampTtl(ttl: U32): (c: U32)
    ensures NearestTtl(ttl, c)
    ensures MINIMUM_TTL <= c <= DEFAULT_TTL
    ensures MINIMUM_TTL <= ttl <= DEFAULT_TTL <==> c == ttl
  {
    var effective := if ttl >= 0x8000_0000 then 0 else ttl;
    Nearest(effective);
    if effective < MINIMUM_TTL then MINIMUM_TTL
    else if effective > DEFAULT_TTL then DEFAULT_TTL
    else effective
  }

  lemma Nearest(e: int)
    ensures forall x :: 300 <= x <= 3600 ==>
      && (e < 300 ==> Distance(e, 300) <= Distance(e, x))
      && (e > 3600 ==> Distance(e, 3600) <= Distance(e, x))
      && Distance(e, e) <= Distance(e, x)
  {
  }

  function Retimed(r: Record): (c: Record) {
    if Clampable(r) then r.(ttl := ClampTtl(r.ttl)) else r
  }

  function RetimedAll(rs: seq<Record>): (cs: seq<Record>)
    ensures |cs| == |rs| && forall i :: 0 <= i < |rs| ==> cs[i] == Retimed(rs[i])
  {
    if rs == [] then [] else [Retimed(rs[0])] + RetimedAll(rs[1..])
  }

  function RecordBytes(rs: seq<Record>): Octets {
    if rs == [] then [] else rs[0].Bytes() + RecordBytes(rs[1..])
  }

  // ---------------------------------------------------------------------------
  // Framing.

  datatype Front = Front(record: Record, size: nat)

  datatype Section = Section(records: seq<Record>, used: nat)

  /** The record at the front of `cur`. An overlong rdlength yields clipped rdata and a size past the end. */
  function FrontRecord(cur: Octets, refLen: nat): (r: Result<Front>) {
    var n := NameLength(cur, refLen);
    if |cur| < n + 10 then Err(TruncatedRecord)
    else
      var rdlength := Unpack16(cur, n + 8);
      Ok(Front(Record(cur[..n], Unpack16(cur, n), Unpack16(cur, n + 2), Unpack32(cur, n + 4),
                      Take(cur[n + 8..], 2 + rdlength)),
               n + 10 + rdlength))
  }

  /** `r` after the records `rs` and `used` bytes. */
  function Prefixed(rs: seq<Record>, used: nat, r: Result<Section>): Result<Section> {
    match r
    case Err(e) => Err(e)
    case Ok(s) => Ok(Section(rs + s.records, used + s.used))
  }

  lemma PrefixedNothing(r: Result<Section>)
    ensures Prefixed([], 0, r) == r
  {
    if r.Ok? { assert [] + r.value.records == r.value.records; }
  }

  lemma PrefixedTwice(a: seq<Record>, i: nat, b: seq<Record>, j: nat, r: Result<Section>)
    ensures Prefixed(a, i, Prefixed(b, j, r)) == Prefixed(a + b, i + j, r)
  {
    if r.Ok? { assert a + (b + r.value.records) == a + b + r.value.records; }
  }

  function ParseSection(cur: Octets, refLen: nat, count: nat): (r: Result<Section>)
    ensures r.Ok? ==> |r.value.records| == count
    decreases count
  {
    if count == 0 then Ok(Section([], 0))
    else
      match FrontRecord(cur, refLen)
      case Err(e) => Err(e)
      case Ok(front) =>
        Prefixed([front.record], front.size, ParseSection(Drop(cur, front.size), refLen, count - 1))
  }

  /** `min(count, max(remaining // 12, 0))`: as many records as there is room for twelve bytes each. */
  function Cap(count: nat, remaining: int): (c: nat)
    ensures c <= count && (c > 0 ==> 12 * c <= remaining) && (c < count ==> remaining < 12 * (c + 1))
  {
    var most := if remaining / 12 > 0 then remaining / 12 else 0;
    if count < most then count else most
  }

  function ParseSections(cur: Octets, refLen: nat, counts: seq<nat>): (r: Result<Section>)
    decreases |counts|
  {
    if counts == [] then Ok(Section([], 0))
    else
      match ParseSection(cur, refLen, Cap(counts[0], |cur|))
      case Err(e) => Err(e)
      case Ok(first) =>
        Prefixed(first.records, first.used, ParseSections(Drop(cur, first.used), refLen, counts[1..]))
  }

  /** Question name, type and class. The pointer reference here is the whole packet. */
  function QuestionSize(data: Octets): nat
    requires |data| >= 12
  {
    NameLength(data[12..], |data|) + 4
  }

  function AfterQuestion(data: Octets): Octets
    requires |data| >= 12
  {
    Drop(data[12..], QuestionSize(data))
  }

  /** The answer and authority counts of the header. */
  function SectionCounts(data: Octets): (c: seq<nat>)
    requires |data| >= 12
    ensures |c| == 2
  {
    [Unpack16(data, 6), Unpack16(data, 8)]
  }

  /** The answer and authority records that are parsed, and how many bytes they claim. */
  function Parsed(data: Octets): Result<Section>
    requires |data| >= 12
  {
    ParseSections(AfterQuestion(data), |data| - 12, SectionCounts(data))
  }

  /** Where the fields of a record end up in its bytes. */
  lemma FieldsAt(s: Record, tail: Octets)
    ensures var n, out := |s.name|, s.Bytes() + tail;
      && n + 8 <= |out| && out[..n] == s.name && out[n + 8..] == s.data + tail
      && Unpack16(out, n) == s.rtype && Unpack16(out, n + 2) == s.rclass && Unpack32(out, n + 4) == s.ttl
      && out[n] == Pack16(s.rtype)[0]
  {
    var n, out := |s.name|, s.Bytes() + tail;
    var fixed := Pack16(s.rtype) + Pack16(s.rclass) + Pack32(s.ttl);
    assert out == s.name + (fixed + (s.data + tail)) && |fixed| == 8;
    assert out[n..] == fixed + (s.data + tail);
    FixedFields(s, s.data + tail);
  }

  lemma FixedFields(s: Record, rest: Octets)
    ensures var b := Pack16(s.rtype) + Pack16(s.rclass) + Pack32(s.ttl) + rest;
      Unpack16(b, 0) == s.rtype && Unpack16(b, 2) == s.rclass && Unpack32(b, 4) == s.ttl
  {
  }

  /** The front record, read off its fields. */
  lemma FrontIs(cur: Octets, refLen: nat, s: Record, rdlength: nat)
    requires var n := |s.name|;
      && NameLength(cur, refLen) == n && n + 10 <= |cur| && cur[..n] == s.name
      && Unpack16(cur, n) == s.rtype && Unpack16(cur, n + 2) == s.rclass && Unpack32(cur, n + 4) == s.ttl
      && Unpack16(cur, n + 8) == rdlength && Take(cur[n + 8..], 2 + rdlength) == s.data
    ensures FrontRecord(cur, refLen) == Ok(Front(s, |s.name| + 10 + rdlength))
  {
  }

  // ---------------------------------------------------------------------------
  // Caching and the reply.

  datatype CacheEntry = CacheEntry(expire: int, ttl: nat, records: seq<Record>)

  datatype Reply = Reply(bytes: Octets, cache: Option<CacheEntry>, rcode: nat)

  /** `record_cache` after the records `rs`: A records stop entering once three records are in. */
  function Cached(rs: seq<Record>): (c: seq<Record>)
    decreases |rs|
  {
    if rs == [] then []
    else
      var n := |rs| - 1;
      var before := Cached(rs[..n]);
      if Enters(rs[n], |before|) then before + [Retimed(rs[n])] else before
  }

  predicate Enters(r: Record, cached: nat) {
    Clampable(r) && (cached < MAX_A_RECORD_COUNT || r.rtype != A)
  }

  /** `clamped_ttl` after the records `rs`, cached or not. */
  function LastTtl(rs: seq<Record>): nat {
    if rs == [] then 0
    else if Clampable(rs[|rs| - 1]) then ClampTtl(rs[|rs| - 1].ttl)
    else LastTtl(rs[..|rs| - 1])
  }

  /** The client's ID, the rest of the header and the question. */
  function ReplyHead(data: Octets, dnsId: U16): Octets
    requires |data| >= 12
  {
    Pack16(dnsId) + data[2..12] + Take(data[12..], QuestionSize(data))
  }

  function ReplyFor(data: Octets, s: Section, dnsId: U16, now: int): Reply
    requires |data| >= 12
  {
    var cached := Cached(s.records);
    Reply(ReplyHead(data, dnsId) + RecordBytes(RetimedAll(s.records)) + Drop(AfterQuestion(data), s.used),
          if cached == [] then None else Some(CacheEntry(now + LastTtl(s.records), LastTtl(s.records), cached)),
          Unpack16(data, 2) % 16)
  }

  function Rewritten(data: Octets, dnsId: U16, now: int): Result<Reply> {
    if |data| < 12 then Err(ShortPacket)
    else
      var s :- Parsed(data);
      Ok(ReplyFor(data, s, dnsId, now))
  }

  // ---------------------------------------------------------------------------
  // The code.

  /**
   * The record at the front of `cur`, in full: it is refused exactly when the
   * fixed fields behind its name do not fit; rdata that claims more than there
   * is gets clipped, and the next record starts behind what was claimed.
   */
  lemma FrontCut(cur: Octets, refLen: nat)
    ensures var n := NameLength(cur, refLen);
      && (|cur| < n + 10 ==> FrontRecord(cur, refLen) == Err(TruncatedRecord))
      && (n + 10 <= |cur| ==>
            FrontRecord(cur, refLen) ==
            Ok(Front(Record(cur[..n], Unpack16(cur, n), Unpack16(cur, n + 2), Unpack32(cur, n + 4),
                            Take(cur[n + 8..], 2 + Unpack16(cur, n + 8))),
                     n + 10 + Unpack16(cur, n + 8))))
  {
    hide NameLength, Unpack16, Unpack32, Take;
  }

  method ParseRecord(resourceRecords: Octets, totalOffset: nat, payload: Octets)
    returns (r: Result<(U16, Record, nat)>)
    ensures r == match FrontRecord(Drop(resourceRecords, totalOffset), |payload|)
                 case Err(e) => Err(e)
                 case Ok(f) => Ok((f.record.rtype, f.record, totalOffset + f.size))
  {
    hide *;
    var current := Drop(resourceRecords, totalOffset);
    FrontCut(current, |payload|);
    var offset, _, _ := ParseQueryName(current, payload);
    if |current| < offset + 10 {
      return Err(TruncatedRecord);
    }
    var length: nat := Unpack16(current, offset + 8);
    var record := Record(current[..offset], Unpack16(current, offset), Unpack16(current, offset + 2),
                         Unpack32(current, offset + 4), Take(current[offset + 8..], 2 + length));
    return Ok((record.rtype, record, totalOffset + offset + 10 + length));
  }

  lemma NothingParsed(cur: Octets, refLen: nat)
    ensures ParseSection(cur, refLen, 0) == Ok(Section([], 0)) && Drop(cur, 0) == cur
  {
    DropNothing(cur);
  }

  lemma FirstParsed(cur: Octets, refLen: nat, count: nat)
    requires count > 0
    ensures ParseSection(cur, refLen, count) ==
      match FrontRecord(cur, refLen)
      case Err(e) => Err(e)
      case Ok(f) => Prefixed([f.record], f.size, ParseSection(Drop(cur, f.size), refLen, count - 1))
  {
    hide FrontRecord, Prefixed, Drop;
  }

  lemma PrefixedCases(rs: seq<Record>, used: nat, r: Result<Section>)
    ensures Prefixed(rs, used, r).Ok? <==> r.Ok?
    ensures r.Ok? ==> Prefixed(rs, used, r).value.used == used + r.value.used
    ensures r.Err? ==> Prefixed(rs, used, r) == Err(r.error)
  {
  }

  /** A section is refused only for a record that is refused itself, behind ones that are not. */
  lemma {:induction false} SectionFails(cur: Octets, refLen: nat, count: nat) returns (k: nat)
    requires ParseSection(cur, refLen, count).Err?
    ensures k < count && ParseSection(cur, refLen, k).Ok?
    ensures FrontRecord(Drop(cur, ParseSection(cur, refLen, k).value.used), refLen)
         == Err(ParseSection(cur, refLen, count).error)
    decreases count
  {
    hide *;
    NothingParsed(cur, refLen);
    k := 0;
    if count > 0 {
      FirstParsed(cur, refLen, count);
      if FrontRecord(cur, refLen).Ok? {
        var f := FrontRecord(cur, refLen).value;
        var rest := Drop(cur, f.size);
        PrefixedCases([f.record], f.size, ParseSection(rest, refLen, count - 1));
        var j := SectionFails(rest, refLen, count - 1);
        FirstParsed(cur, refLen, j + 1);
        PrefixedCases([f.record], f.size, ParseSection(rest, refLen, j));
        DropDrop(cur, f.size, ParseSection(rest, refLen, j).value.used);
        k := j + 1;
      }
    }
  }

  /** What the loops have built from the records parsed so far. */
  datatype Progress = Progress(sendData: Octets, clampedTtl: nat, cache: seq<Record>)

  ghost function ProgressOn(head: Octets, parsed: seq<Record>): Progress {
    Progress(head + RecordBytes(RetimedAll(parsed)), LastTtl(parsed), Cached(parsed))
  }

  method RewriteRecord(record0: Record, p: Progress, ghost head: Octets, ghost parsed: seq<Record>)
    returns (q: Progress)
    requires p == ProgressOn(head, parsed)
    ensures q == ProgressOn(head, parsed + [record0])
  {
    AppendRecord(parsed, record0);
    hide RecordBytes, RetimedAll, Cached, LastTtl;
    var record := record0;
    q := p;
    if record.rtype in {A, CNAME, AAAA} {
      var originalTtl := record.ttl;
      record := record.(ttl := ClampTtl(originalTtl));
      q := q.(clampedTtl := record.ttl, sendData := q.sendData + record.Bytes());
      if |q.cache| < MAX_A_RECORD_COUNT || record.rtype != A {
        q := q.(cache := q.cache + [record]);
      }
    } else {
      q := q.(sendData := q.sendData + record.Bytes());
    }
    assert q.sendData == head + (RecordBytes(RetimedAll(parsed)) + record.Bytes());
  }

  lemma NextRecord(records: Octets, offset: nat, refLen: nat, count: nat, parsed: seq<Record>, used: nat)
    requires 0 < count
    ensures Prefixed(parsed, used, ParseSection(Drop(records, offset), refLen, count)) ==
      match FrontRecord(Drop(records, offset), refLen)
      case Err(e) => Err(e)
      case Ok(f) => Prefixed(parsed + [f.record], used + f.size,
                             ParseSection(Drop(records, offset + f.size), refLen, count - 1))
  {
    hide FrontRecord, Drop;
    var front := FrontRecord(Drop(records, offset), refLen);
    if front.Ok? {
      var f := front.value;
      DropDrop(records, offset, f.size);
      PrefixedTwice(parsed, used, [f.record], f.size, ParseSection(Drop(records, offset + f.size), refLen, count - 1));
    }
  }

  lemma LastPrefix(parsed: seq<Record>, used: nat, cur: Octets, refLen: nat)
    ensures Prefixed(parsed, used, ParseSection(cur, refLen, 0)) == Ok(Section(parsed, used))
    ensures Prefixed(parsed, used, ParseSections(cur, refLen, [])) == Ok(Section(parsed, used))
  {
    assert parsed + [] == parsed;
  }

  /** The inner loop: at most `count` records from `offset` on. */
  method RewriteSection(records: Octets, offset0: nat, payload: Octets, count: nat, p: Progress,
                        ghost head: Octets, ghost parsed0: seq<Record>)
    returns (r: Result<(Progress, nat)>)
    requires p == ProgressOn(head, parsed0)
    ensures var section := ParseSection(Drop(records, offset0), |payload|, Cap(count, |records| - offset0));
      && (section.Err? ==> r == Err(section.error))
      && (section.Ok? ==>
            r == Ok((ProgressOn(head, parsed0 + section.value.records), offset0 + section.value.used)))
  {
    hide FrontRecord, ParseSection, Prefixed, ProgressOn;
    var q, offset := p, offset0;
    ghost var parsed: seq<Record> := [];
    var maxRecords := Cap(count, |records| - offset0);
    ghost var section := ParseSection(Drop(records, offset0), |payload|, maxRecords);
    PrefixedNothing(section);
    assert parsed0 + parsed == parsed0;
    for i := 0 to maxRecords
      invariant offset0 <= offset && q == ProgressOn(head, parsed0 + parsed)
      invariant section == Prefixed(parsed, offset - offset0,
                                    ParseSection(Drop(records, offset), |payload|, maxRecords - i))
    {
      var next := ParseRecord(records, offset, payload);
      NextRecord(records, offset, |payload|, maxRecords - i, parsed, offset - offset0);
      if next.Err? {
        return Err(next.error);
      }
      var (_, record, end) := next.value;
      q := RewriteRecord(record, q, head, parsed0 + parsed);
      assert parsed0 + parsed + [record] == parsed0 + (parsed + [record]);
      offset, parsed := end, parsed + [record];
    }
    LastPrefix(parsed, offset - offset0, Drop(records, offset), |payload|);
    return Ok((q, offset));
  }

  lemma NoProgress(head: Octets)
    ensures ProgressOn(head, []) == Progress(head, 0, [])
  {
    assert head + [] == head;
  }

  lemma FinalProgress(data: Octets, s: Section, dnsId: U16, now: int, p: Progress)
    requires |data| >= 12 && p == ProgressOn(ReplyHead(data, dnsId), s.records)
    ensures ReplyFor(data, s, dnsId, now) ==
      Reply(p.sendData + Drop(AfterQuestion(data), s.used),
            if p.cache != [] then Some(CacheEntry(now + p.clampedTtl, p.clampedTtl, p.cache)) else None,
            Unpack16(data, 2) % 16)
  {
  }

  lemma ReplyParts(data: Octets, s: Section, dnsId: U16, now: int)
    requires |data| >= 12
    ensures var r := ReplyFor(data, s, dnsId, now);
      && r.bytes == Pack16(dnsId) + data[2..12] + Take(data[12..], QuestionSize(data))
                    + RecordBytes(RetimedAll(s.records)) + Drop(AfterQuestion(data), s.used)
      && r.rcode == Unpack16(data, 2) % 16
      && r.cache == if Cached(s.records) == [] then None
                    else Some(CacheEntry(now + LastTtl(s.records), LastTtl(s.records), Cached(s.records)))
  {
  }

  lemma RewrittenIsLong(data: Octets, dnsId: U16, now: int)
    requires Rewritten(data, dnsId, now).Ok?
    ensures |data| >= 12
  {
  }

  lemma RewrittenCases(data: Octets, dnsId: U16, now: int)
    requires |data| >= 12
    ensures var q := NameLength(data[12..], |data|) + 4;
      && AfterQuestion(data) == Drop(data[12..], q)
      && ReplyHead(data, dnsId) == Pack16(dnsId) + data[2..12] + Take(data[12..], q)
    ensures Parsed(data) == ParseSections(AfterQuestion(data), |data| - 12, SectionCounts(data))
    ensures Parsed(data).Err? ==> Rewritten(data, dnsId, now) == Err(Parsed(data).error)
    ensures Parsed(data).Ok? ==> Rewritten(data, dnsId, now) == Ok(ReplyFor(data, Parsed(data).value, dnsId, now))
  {
  }

  /** The outer loop: the answer section, then the authority section. */
  method RewriteSections(records: Octets, payload: Octets, counts: seq<nat>, head: Octets)
    returns (r: Result<(Progress, nat)>)
    requires |counts| == 2
    ensures var s := ParseSections(records, |payload|, counts);
      && (s.Err? ==> r == Err(s.error))
      && (s.Ok? ==> r == Ok((ProgressOn(head, s.value.records), s.value.used)))
  {
    hide *;
    var offset, p := 0, Progress(head, 0, []);
    ghost var parsed: seq<Record> := [];
    ghost var all := ParseSections(records, |payload|, counts);
    NoProgress(head);
    DropNothing(records);
    assert counts[0..] == counts;
    PrefixedNothing(all);
    for k := 0 to 2
      invariant p == ProgressOn(head, parsed)
      invariant all == Prefixed(parsed, offset, ParseSections(Drop(records, offset), |payload|, counts[k..]))
    {
      var next := RewriteSection(records, offset, payload, counts[k], p, head, parsed);
      NextSection(records, offset, |payload|, counts[k..], parsed);
      if next.Err? {
        return Err(next.error);
      }
      ghost var section := ParseSection(Drop(records, offset), |payload|, Cap(counts[k], |records| - offset)).value;
      assert counts[k..][1..] == counts[k + 1..];
      parsed := parsed + section.records;
      p, offset := next.value.0, next.value.1;
    }
    LastPrefix(parsed, offset, Drop(records, offset), |payload|);
    assert counts[2..] == [];
    return Ok((p, offset));
  }

  method TtlRewrite(data: Octets, dnsId: U16, now: int) returns (r: Result<Reply>)
    ensures r == Rewritten(data, dnsId, now)
  {
    if |data| < 12 { return Err(ShortPacket); }
    hide *;
    var payload, sendData := data[12..], Pack16(dnsId);
    var counts, rcode := SectionCounts(data), Unpack16(data, 2) % 16;
    sendData := sendData + data[2..12];
    var nameLength, _, _ := ParseQueryName(payload, data);
    sendData := sendData + Take(payload, nameLength + 4);
    var records := Drop(payload, nameLength + 4);
    RewrittenCases(data, dnsId, now);
    assert sendData == ReplyHead(data, dnsId) && records == AfterQuestion(data) && |payload| == |data| - 12;
    var done := RewriteSections(records, payload, counts, sendData);
    if done.Err? {
      return Err(done.error);
    }
    var (p, offset) := done.value;
    FinalProgress(data, Parsed(data).value, dnsId, now, p);
    sendData := p.sendData + Drop(records, offset);
    return Ok(Reply(sendData,
                    if p.cache != [] then Some(CacheEntry(now + p.clampedTtl, p.clampedTtl, p.cache)) else None,
                    rcode));
  }

  lemma CapOfDrop(count: nat, records: Octets, offset: nat)
    ensures Cap(count, |records| - offset) == Cap(count, |Drop(records, offset)|)
  {
  }

  /** One section of the outer loop. Past the end of the records nothing fits, so no record is parsed. */
  lemma NextSection(records: Octets, offset: nat, refLen: nat, counts: seq<nat>, parsed: seq<Record>)
    requires counts != []
    ensures var section := ParseSection(Drop(records, offset), refLen, Cap(counts[0], |records| - offset));
      Prefixed(parsed, offset, ParseSections(Drop(records, offset), refLen, counts)) ==
      match section
      case Err(e) => Err(e)
      case Ok(s) => Prefixed(parsed + s.records, offset + s.used,
                             ParseSections(Drop(records, offset + s.used), refLen, counts[1..]))
  {
    hide FrontRecord, ParseSection, Drop, Cap;
    CapOfDrop(counts[0], records, offset);
    var section := ParseSection(Drop(records, offset), refLen, Cap(counts[0], |records| - offset));
    if section.Ok? {
      DropDrop(records, offset, section.value.used);
      PrefixedTwice(parsed, offset, section.value.records, section.value.used,
                    ParseSections(Drop(records, offset + section.value.used), refLen, counts[1..]));
    }
  }

  lemma AppendRecord(rs: seq<Record>, r: Record)
    ensures RecordBytes(RetimedAll(rs + [r])) == RecordBytes(RetimedAll(rs)) + Retimed(r).Bytes()
    ensures Cached(rs + [r]) == if Enters(r, |Cached(rs)|) then Cached(rs) + [Retimed(r)] else Cached(rs)
    ensures LastTtl(rs + [r]) == if Clampable(r) then ClampTtl(r.ttl) else LastTtl(rs)
  {
    assert (rs + [r])[..|rs|] == rs;
    assert RetimedAll(rs + [r]) == RetimedAll(rs) + [Retimed(r)];
    RecordBytesConcat(RetimedAll(rs), [Retimed(r)]);
  }

  lemma {:induction false} RecordBytesConcat(a: seq<Record>, b: seq<Record>)
    ensures RecordBytes(a + b) == RecordBytes(a) + RecordBytes(b)
  {
    hide *;
    NoRecordBytes();
    if a == [] {
      assert a + b == b;
    } else {
      RecordBytesConcat(a[1..], b);
      FirstOfConcat(a, b);
      FirstRecordBytes(a);
      FirstRecordBytes(a + b);
      Associative(a[0].Bytes(), RecordBytes(a[1..]), RecordBytes(b));
    }
  }

  lemma NoRecordBytes()
    ensures RecordBytes([]) == []
  {
  }

  lemma FirstRecordBytes(rs: seq<Record>)
    requires rs != []
    ensures RecordBytes(rs) == rs[0].Bytes() + RecordBytes(rs[1..])
  {
    hide Pack16, Pack32;
  }
}
