/** What ttl_rewrite leaves alone: a byte-level frame for any input, and idempotence. */
module Preserve {
  import opened Wire
  import opened Names
  import opened Rewrite

  predicate SameButTtl(r: Record, s: Record) { s == r.(ttl := s.ttl) }

  predicate AllSameButTtl(rs: seq<Record>, ss: seq<Record>) {
    |rs| == |ss| && forall i :: 0 <= i < |rs| ==> SameButTtl(rs[i], ss[i])
  }

  // ---------------------------------------------------------------------------
  // Parsed records tile the bytes they were parsed from.

  lemma FrontTiles(cur: Octets, refLen: nat)
    requires FrontRecord(cur, refLen).Ok?
    ensures var f := FrontRecord(cur, refLen).value;
      f.record.Bytes() == Take(cur, f.size) && |f.record.name| + 10 <= |Take(cur, f.size)|
  {
    hide *;
    FrontCut(cur, refLen);
    var n := NameLength(cur, refLen);
    var f := FrontRecord(cur, refLen).value;
    BytesIs(f.record);
    PackUnpack16(cur, n);
    PackUnpack16(cur, n + 2);
    PackUnpack32(cur, n + 4);
    Slices(cur, n, f.size);
  }

  lemma BytesIs(r: Record)
    ensures r.Bytes() == r.name + Pack16(r.rtype) + Pack16(r.rclass) + Pack32(r.ttl) + r.data
  {
  }

  lemma Slices(s: Octets, n: nat, size: nat)
    requires n + 10 <= |s| && n + 10 <= size
    ensures s[..n] + s[n..n + 2] + s[n + 2..n + 4] + s[n + 4..n + 8] + Take(s[n + 8..], size - n - 8) == Take(s, size)
    ensures n + 10 <= |Take(s, size)|
  {
    NextSlice(s, n, n + 2);
    NextSlice(s, n + 2, n + 4);
    NextSlice(s, n + 4, n + 8);
    TakeTwice(s, n + 8, size - n - 8);
  }

  lemma NextSlice(s: Octets, a: nat, b: nat)
    requires a <= b <= |s|
    ensures s[..a] + s[a..b] == s[..b]
  {
  }

  lemma {:induction false} SectionTiles(cur: Octets, refLen: nat, count: nat)
    requires ParseSection(cur, refLen, count).Ok?
    ensures var s := ParseSection(cur, refLen, count).value; RecordBytes(s.records) == Take(cur, s.used)
    decreases count
  {
    if count > 0 {
      hide FrontRecord;
      var f := FrontRecord(cur, refLen).value;
      FrontTiles(cur, refLen);
      SectionTiles(Drop(cur, f.size), refLen, count - 1);
      var rest := ParseSection(Drop(cur, f.size), refLen, count - 1).value;
      TakeTwice(cur, f.size, rest.used);
      assert ([f.record] + rest.records)[1..] == rest.records;
    }
  }

  lemma TakeTwice<T>(s: seq<T>, a: nat, b: nat)
    ensures Take(s, a) + Take(Drop(s, a), b) == Take(s, a + b)
  {
  }

  lemma {:induction false} SectionsTile(cur: Octets, refLen: nat, counts: seq<nat>)
    requires ParseSections(cur, refLen, counts).Ok?
    ensures var s := ParseSections(cur, refLen, counts).value; RecordBytes(s.records) == Take(cur, s.used)
    decreases |counts|
  {
    if counts != [] {
      hide ParseSection, Cap;
      var k := Cap(counts[0], |cur|);
      var first := ParseSection(cur, refLen, k).value;
      SectionTiles(cur, refLen, k);
      SectionsTile(Drop(cur, first.used), refLen, counts[1..]);
      var rest := ParseSections(Drop(cur, first.used), refLen, counts[1..]).value;
      TakeTwice(cur, first.used, rest.used);
      RecordBytesConcat(first.records, rest.records);
    }
  }

  // ---------------------------------------------------------------------------
  // Changing nothing but TTLs changes neither the framing nor the other fields.

  lemma FrontChanged(cur: Octets, refLen: nat, s: Record, tail: Octets)
    requires FrontRecord(cur, refLen).Ok? && SameButTtl(FrontRecord(cur, refLen).value.record, s)
    requires |s.Bytes() + tail| == |cur|
    ensures FrontRecord(s.Bytes() + tail, refLen) == Ok(Front(s, FrontRecord(cur, refLen).value.size))
  {
    var n := NameLength(cur, refLen);
    var out := s.Bytes() + tail;
    hide Framing, Pack16, Pack32;
    FrontFields(cur, refLen, s, tail);
    NameKept(cur, refLen, out);
    var rdlength: nat := Unpack16(cur, n + 8);
    hide *;
    assert rdlength == Unpack16(out, n + 8);
  }

  lemma NameKept(cur: Octets, refLen: nat, out: Octets)
    requires var n := NameLength(cur, refLen); n + 10 <= |cur| == |out| && out[..n + 1] == cur[..n + 1]
    ensures NameLength(out, refLen) == NameLength(cur, refLen)
  {
    FramingLocal(cur, out, refLen);
  }

  /** Where the fields of `s` end up in its bytes. */
  lemma FrontFields(cur: Octets, refLen: nat, s: Record, tail: Octets)
    requires FrontRecord(cur, refLen).Ok? && SameButTtl(FrontRecord(cur, refLen).value.record, s)
    requires |s.Bytes() + tail| == |cur|
    ensures var n := NameLength(cur, refLen);
      var out := s.Bytes() + tail;
      && n + 10 <= |out| && out[..n] == s.name && out[..n + 1] == cur[..n + 1]
      && Unpack16(out, n) == s.rtype && Unpack16(out, n + 2) == s.rclass && Unpack32(out, n + 4) == s.ttl
      && Unpack16(out, n + 8) == Unpack16(cur, n + 8)
      && (var rdlength: nat := Unpack16(cur, n + 8); Take(out[n + 8..], 2 + rdlength) == s.data)
  {
    var n := NameLength(cur, refLen);
    var out := s.Bytes() + tail;
    hide NameLength;
    FieldsAt(s, tail);
    PackUnpack16(cur, n);
    assert out[..n + 1] == cur[..n + 1] by {
      assert out[n] == Pack16(s.rtype)[0] == cur[n..n + 2][0];
    }
    RdlengthKept(s.data, tail, cur[n + 8..]);
  }

  lemma RdlengthKept(data: Octets, tail: Octets, was: Octets)
    requires 2 <= |was| == |data| + |tail|
    requires var rdlength: nat := Unpack16(was, 0); data == Take(was, 2 + rdlength)
    ensures Unpack16(data + tail, 0) == Unpack16(was, 0)
    ensures var rdlength: nat := Unpack16(was, 0); Take(data + tail, 2 + rdlength) == data
  {
  }

  lemma SameLengths(rs: seq<Record>, ss: seq<Record>)
    requires AllSameButTtl(rs, ss)
    ensures |RecordBytes(rs)| == |RecordBytes(ss)|
  {
    if rs != [] {
      assert AllSameButTtl(rs[1..], ss[1..]);
      SameLengths(rs[1..], ss[1..]);
    }
  }

  lemma {:induction false} SectionChanged(cur: Octets, refLen: nat, count: nat, ss: seq<Record>, tail: Octets)
    requires ParseSection(cur, refLen, count).Ok?
    requires AllSameButTtl(ParseSection(cur, refLen, count).value.records, ss)
    requires |RecordBytes(ss) + tail| == |cur|
    ensures var used := ParseSection(cur, refLen, count).value.used;
      && ParseSection(RecordBytes(ss) + tail, refLen, count) == Ok(Section(ss, used))
      && Drop(RecordBytes(ss) + tail, used) == tail
    decreases count
  {
    hide FrontRecord, Drop, Take;
    if count > 0 {
      var s := ParseSection(cur, refLen, count).value;
      var f := FrontRecord(cur, refLen).value;
      var next := Drop(cur, f.size);
      var rest := ParseSection(next, refLen, count - 1).value;
      assert s.records[0] == f.record && s.records[1..] == rest.records;
      assert AllSameButTtl(rest.records, ss[1..]) && SameButTtl(f.record, ss[0]);
      var front, behind := ss[0].Bytes(), RecordBytes(ss[1..]) + tail;
      assert RecordBytes(ss) + tail == front + behind;
      FrontTiles(cur, refLen);
      BehindFront(cur, f.size, front, behind);
      SectionChanged(next, refLen, count - 1, ss[1..], tail);
      FrontChanged(cur, refLen, ss[0], behind);
      DropDrop(front + behind, f.size, rest.used);
      assert [ss[0]] + ss[1..] == ss;
    } else {
      assert RecordBytes(ss) + tail == tail;
      DropNothing(tail);
    }
  }

  /** What follows a first part of the same length, even when it claims more bytes than there are. */
  lemma BehindFront(cur: Octets, size: nat, front: Octets, behind: Octets)
    requires |front| == |Take(cur, size)| && |front| + |behind| == |cur|
    ensures Drop(front + behind, size) == behind && |behind| == |Drop(cur, size)|
  {
  }

  lemma NoRecords(tail: Octets)
    ensures RecordBytes([]) + tail == tail && Drop(tail, 0) == tail
  {
  }

  lemma {:induction false} SectionsChanged(cur: Octets, refLen: nat, counts: seq<nat>, ss: seq<Record>, tail: Octets)
    requires ParseSections(cur, refLen, counts).Ok?
    requires AllSameButTtl(ParseSections(cur, refLen, counts).value.records, ss)
    requires |RecordBytes(ss) + tail| == |cur|
    ensures var used := ParseSections(cur, refLen, counts).value.used;
      && ParseSections(RecordBytes(ss) + tail, refLen, counts) == Ok(Section(ss, used))
      && Drop(RecordBytes(ss) + tail, used) == tail
    decreases |counts|
  {
    hide ParseSection, Cap, Drop, Take, RecordBytes;
    if counts == [] {
      NoRecords(tail);
    } else {
      var s := ParseSections(cur, refLen, counts).value;
      var k := Cap(counts[0], |cur|);
      var first := ParseSection(cur, refLen, k).value;
      var n, next := |first.records|, Drop(cur, first.used);
      var rest := ParseSections(next, refLen, counts[1..]).value;
      assert s.records[..n] == first.records && s.records[n..] == rest.records;
      assert AllSameButTtl(first.records, ss[..n]) && AllSameButTtl(rest.records, ss[n..]);
      assert ss[..n] + ss[n..] == ss;
      RecordBytesConcat(ss[..n], ss[n..]);
      var front, behind := RecordBytes(ss[..n]), RecordBytes(ss[n..]) + tail;
      assert RecordBytes(ss) + tail == front + behind;
      SectionTiles(cur, refLen, k);
      SameLengths(first.records, ss[..n]);
      BehindFront(cur, first.used, front, behind);
      SectionChanged(cur, refLen, k, ss[..n], behind);
      SectionsChanged(next, refLen, counts[1..], ss[n..], tail);
      DropDrop(front + behind, first.used, rest.used);
    }
  }

  // ---------------------------------------------------------------------------
  // The byte-level frame.

  /** The offsets of the clamped TTL fields when the records start at offset `base`. */
  function TtlFields(rs: seq<Record>, base: nat): seq<nat> {
    if rs == [] then []
    else (if Clampable(rs[0]) then [base + |rs[0].name| + 4] else [])
         + TtlFields(rs[1..], base + |rs[0].Bytes()|)
  }

  predicate InField(fields: seq<nat>, i: int) {
    exists k :: 0 <= k < |fields| && fields[k] <= i < fields[k] + 4
  }

  /** From `from` to `to` the bytes agree, but for the fields. */
  predicate Agree(x: Octets, y: Octets, fields: seq<nat>, from: nat, to: nat) {
    to <= |x| && to <= |y| && forall i :: from <= i < to && !InField(fields, i) ==> x[i] == y[i]
  }

  /** In `y` the fields hold the clamped TTLs of `x`. */
  predicate Clamps(x: Octets, y: Octets, fields: seq<nat>, from: nat) {
    forall k :: 0 <= k < |fields| ==>
      && from <= fields[k] && fields[k] + 4 <= |x| && fields[k] + 4 <= |y|
      && y[fields[k]..fields[k] + 4] == Pack32(ClampTtl(Unpack32(x, fields[k])))
  }

  predicate Apart(fields: seq<nat>) { forall j, k :: 0 <= j < k < |fields| ==> fields[j] + 4 <= fields[k] }

  predicate Framed(x: Octets, y: Octets, fields: seq<nat>, from: nat) {
    |x| == |y| && Agree(x, y, fields, from, |x|) && Clamps(x, y, fields, from) && Apart(fields)
  }

  lemma {:induction false} RecordsFrame(p: Octets, q: Octets, rs: seq<Record>, tail: Octets)
    requires |p| == |q|
    ensures Framed(p + RecordBytes(rs) + tail, q + RecordBytes(RetimedAll(rs)) + tail, TtlFields(rs, |p|), |p|)
    decreases |rs|
  {
    hide Framed, FrontFramed, Retimed, RecordBytes, RetimedAll, Clampable;
    if rs == [] {
      NoFields(p, q, tail);
    } else {
      var a, b := rs[0].Bytes(), Retimed(rs[0]).Bytes();
      var s, t := RecordBytes(rs[1..]), RecordBytes(RetimedAll(rs[1..]));
      OneFrame(p, q, rs[0], s + tail, t + tail);
      RecordsFrame(p + a, q + b, rs[1..], tail);
      RetimedRest(rs);
      RecordsUnfold(p, rs, tail);
      RecordsUnfold(q, RetimedAll(rs), tail);
      AddField(p + a + s + tail, q + b + t + tail, rs[0], |p|, TtlFields(rs[1..], |p + a|));
    }
  }

  lemma NoFields(p: Octets, q: Octets, tail: Octets)
    requires |p| == |q|
    ensures Framed(p + RecordBytes([]) + tail, q + RecordBytes(RetimedAll([])) + tail, [], |p|)
  {
  }

  lemma RecordsUnfold(p: Octets, rs: seq<Record>, tail: Octets)
    requires rs != []
    ensures var a, s := rs[0].Bytes(), RecordBytes(rs[1..]);
      p + RecordBytes(rs) + tail == p + a + s + tail == p + a + (s + tail)
  {
    hide *;
    FirstRecordBytes(rs);
    var a, s := rs[0].Bytes(), RecordBytes(rs[1..]);
    Associative(p, a, s);
    Associative(p + a, s, tail);
  }

  lemma RetimedRest(rs: seq<Record>)
    requires rs != []
    ensures RetimedAll(rs) != [] && RetimedAll(rs)[0] == Retimed(rs[0]) && RetimedAll(rs)[1..] == RetimedAll(rs[1..])
  {
  }

  ghost predicate FrontFramed(x: Octets, y: Octets, r: Record, base: nat) {
    var f, end := base + |r.name| + 4, base + |r.Bytes()|;
    && end <= |x| && end <= |y|
    && (forall i :: base <= i < end && !(Clampable(r) && f <= i < f + 4) ==> y[i] == x[i])
    && (Clampable(r) ==> y[f..f + 4] == Pack32(ClampTtl(Unpack32(x, f))))
  }

  lemma OneFrame(p: Octets, q: Octets, r: Record, t: Octets, u: Octets)
    requires |p| == |q|
    ensures |Retimed(r).Bytes()| == |r.Bytes()|
    ensures FrontFramed(p + r.Bytes() + t, q + Retimed(r).Bytes() + u, r, |p|)
  {
    var c, f := Retimed(r), |p| + |r.name| + 4;
    var x := p + r.Bytes() + t;
    var head := r.name + Pack16(r.rtype) + Pack16(r.rclass);
    hide Pack16, Pack32, Unpack32, ClampTtl;
    Spliced(p, q, head, Pack32(r.ttl), Pack32(c.ttl), r.data, t, u);
    UnpackSlice32(x, f, r.ttl);
  }

  lemma Spliced(p: Octets, q: Octets, head: Octets, a: Octets, b: Octets, data: Octets, t: Octets, u: Octets)
    requires |p| == |q| && |a| == |b|
    ensures var x, y, f := p + (head + a + data) + t, q + (head + b + data) + u, |p| + |head|;
      && (forall i :: |p| <= i < |p| + |head + a + data| && !(f <= i < f + |a|) ==> y[i] == x[i])
      && x[f..f + |a|] == a && y[f..f + |a|] == b
  {
  }

  lemma FramedParts(x: Octets, y: Octets, fields: seq<nat>, from: nat)
    ensures Framed(x, y, fields, from) <==>
      |x| == |y| && Agree(x, y, fields, from, |x|) && Clamps(x, y, fields, from) && Apart(fields)
  {
    hide Agree, Clamps, Apart;
  }

  /** The TTL field of one record. */
  function OwnField(r: Record, base: nat): seq<nat> { if Clampable(r) then [base + |r.name| + 4] else [] }

  lemma FrontParts(x: Octets, y: Octets, r: Record, base: nat)
    requires FrontFramed(x, y, r, base)
    ensures var end := base + |r.Bytes()|;
      && Agree(x, y, OwnField(r, base), base, end) && Clamps(x, y, OwnField(r, base), base)
      && |OwnField(r, base)| <= 1 && (OwnField(r, base) != [] ==> OwnField(r, base)[0] + 4 <= end)
  {
    hide Pack32, Unpack32, ClampTtl, Clampable, InField;
    FieldInside(r);
    forall i | base <= i < base + |r.Bytes()| && !InField(OwnField(r, base), i) ensures y[i] == x[i] {
      OneField(base + |r.name| + 4, i);
    }
  }

  lemma AddField(x: Octets, y: Octets, r: Record, base: nat, rest: seq<nat>)
    requires FrontFramed(x, y, r, base)
    requires Framed(x, y, rest, base + |r.Bytes()|)
    ensures Framed(x, y, (if Clampable(r) then [base + |r.name| + 4] else []) + rest, base)
  {
    var own, end := OwnField(r, base), base + |r.Bytes()|;
    assert own + rest == (if Clampable(r) then [base + |r.name| + 4] else []) + rest;
    hide *;
    FrontParts(x, y, r, base);
    FramedParts(x, y, rest, end);
    AgreeJoined(x, y, own, rest, base, end, |x|);
    ClampsJoined(x, y, own, rest, base, end);
    FieldsApart(own, rest, end, x, y);
    FramedParts(x, y, own + rest, base);
  }

  lemma AgreeJoined(x: Octets, y: Octets, a: seq<nat>, b: seq<nat>, from: nat, mid: nat, to: nat)
    requires Agree(x, y, a, from, mid) && Agree(x, y, b, mid, to)
    ensures Agree(x, y, a + b, from, to)
  {
    hide InField;
    forall i | from <= i < to && !InField(a + b, i) ensures y[i] == x[i] {
      InFieldOf(a, b, i);
    }
  }

  lemma ClampsJoined(x: Octets, y: Octets, a: seq<nat>, b: seq<nat>, from: nat, mid: nat)
    requires from <= mid && Clamps(x, y, a, from) && Clamps(x, y, b, mid)
    ensures Clamps(x, y, a + b, from)
  {
    hide Pack32, Unpack32, ClampTtl;
  }

  lemma FieldsApart(a: seq<nat>, b: seq<nat>, from: nat, x: Octets, y: Octets)
    requires |a| <= 1 && (a != [] ==> a[0] + 4 <= from) && Clamps(x, y, b, from) && Apart(b)
    ensures Apart(a + b)
  {
    hide Pack32, Unpack32, ClampTtl;
    var all, d := a + b, |a|;
    forall j, k | 0 <= j < k < |all| ensures all[j] + 4 <= all[k] {
      assert all[k] == b[k - d];
      if j >= d { assert all[j] == b[j - d]; }
    }
  }

  lemma FieldInside(r: Record)
    ensures |r.name| + 8 <= |r.Bytes()|
  {
  }

  lemma OneField(f: nat, i: int)
    ensures InField([f], i) <==> f <= i < f + 4
  {
    assert [f][0] == f;
  }

  lemma InFieldOf(front: seq<nat>, rest: seq<nat>, i: int)
    ensures InField(front + rest, i) <==> InField(front, i) || InField(rest, i)
  {
    var all := front + rest;
    if InField(front, i) {
      var k :| 0 <= k < |front| && front[k] <= i < front[k] + 4;
      assert all[k] == front[k];
    }
    if InField(rest, i) {
      var k :| 0 <= k < |rest| && rest[k] <= i < rest[k] + 4;
      assert all[|front| + k] == rest[k];
    }
  }

  function RecordsStart(data: Octets): nat
    requires |data| >= 12
  {
    12 + |Take(data[12..], QuestionSize(data))|
  }

  lemma InputTiles(data: Octets)
    requires |data| >= 12 && Parsed(data).Ok?
    ensures var s := Parsed(data).value;
      data == data[..12] + Take(data[12..], QuestionSize(data)) + RecordBytes(s.records)
              + Drop(AfterQuestion(data), s.used)
  {
    hide *;
    var payload, q, rr, s := data[12..], QuestionSize(data), AfterQuestion(data), Parsed(data).value;
    RewrittenCases(data, 0, 0);
    SectionsTile(rr, |data| - 12, SectionCounts(data));
    TakeDrop(payload, q);
    TakeDrop(rr, s.used);
    AfterQuestionIs(data);
    assert data == data[..12] + payload;
    assert data[..12] + (Take(payload, q) + (RecordBytes(s.records) + Drop(rr, s.used)))
        == data[..12] + Take(payload, q) + RecordBytes(s.records) + Drop(rr, s.used);
  }

  lemma AfterQuestionIs(data: Octets)
    requires |data| >= 12
    ensures AfterQuestion(data) == Drop(data[12..], QuestionSize(data))
  {
  }

  lemma TakeDrop<T>(s: seq<T>, n: nat)
    ensures Take(s, n) + Drop(s, n) == s
  {
  }

  /**
   * Whatever the input: the reply has its length, starts with the client's ID,
   * and differs from it only in the disjoint TTL fields of the parsed A, CNAME
   * and AAAA records, which hold the clamped values.
   */
  lemma OnlyTtlsChange(data: Octets, dnsId: U16, now: int)
    requires Rewritten(data, dnsId, now).Ok?
    ensures var out := Rewritten(data, dnsId, now).value.bytes;
      && |out| == |data| && out[..2] == Pack16(dnsId)
      && Framed(data, out, TtlFields(Parsed(data).value.records, RecordsStart(data)), 2)
  {
    hide *;
    RewrittenIsLong(data, dnsId, now);
    RewrittenCases(data, dnsId, now);
    var s, question := Parsed(data).value, Take(data[12..], QuestionSize(data));
    var p, q := data[..12] + question, Pack16(dnsId) + data[2..12] + question;
    InputTiles(data);
    RecordsStartIs(data);
    ReplyParts(data, s, dnsId, now);
    RecordsFrame(p, q, s.records, Drop(AfterQuestion(data), s.used));
    HeadFrame(data, ReplyFor(data, s, dnsId, now).bytes, Pack16(dnsId), TtlFields(s.records, |p|), question);
  }

  lemma RecordsStartIs(data: Octets)
    requires |data| >= 12
    ensures RecordsStart(data) == 12 + |Take(data[12..], QuestionSize(data))|
  {
  }

  lemma HeadFrame(x: Octets, y: Octets, id: Octets, fields: seq<nat>, question: Octets)
    requires |x| >= 12 && |id| == 2 && Framed(x, y, fields, 12 + |question|)
    requires x[..12] + question <= x && id + x[2..12] + question <= y
    ensures |x| == |y| && y[..2] == id && Framed(x, y, fields, 2)
  {
    var n := 12 + |question|;
    assert x[..n] == x[..12] + question && y[..n] == id + x[2..12] + question;
    assert x[2..n] == x[..n][2..] == x[2..12] + question == y[..n][2..] == y[2..n];
    assert y[..2] == y[..n][..2] == id;
    hide Pack32, Unpack32, ClampTtl;
    WidenFrame(x, y, fields, n);
  }

  lemma WidenFrame(x: Octets, y: Octets, fields: seq<nat>, from: nat)
    requires 2 <= from <= |x| && Framed(x, y, fields, from) && x[2..from] == y[2..from]
    ensures Framed(x, y, fields, 2)
  {
    forall i | 2 <= i < from ensures x[i] == y[i] {
      assert x[2..from][i - 2] == y[2..from][i - 2];
    }
  }

  // ---------------------------------------------------------------------------
  // Idempotence.

  lemma {:induction false} RetimedTwice(rs: seq<Record>)
    ensures RetimedAll(RetimedAll(rs)) == RetimedAll(rs)
    ensures AllSameButTtl(rs, RetimedAll(rs))
  {
    forall i | 0 <= i < |rs| ensures RetimedAll(RetimedAll(rs))[i] == RetimedAll(rs)[i] {
      assert Retimed(Retimed(rs[i])) == Retimed(rs[i]);
    }
  }

  lemma {:induction false} CachedTwice(rs: seq<Record>)
    ensures Cached(RetimedAll(rs)) == Cached(rs) && LastTtl(RetimedAll(rs)) == LastTtl(rs)
    decreases |rs|
  {
    if rs != [] {
      var n, cs := |rs| - 1, RetimedAll(rs);
      CachedTwice(rs[..n]);
      assert cs[..n] == RetimedAll(rs[..n]);
      assert cs[n] == Retimed(rs[n]) == Retimed(cs[n]);
    }
  }

  /** The question of a reply has the size of the original question, and the same bytes follow it. */
  lemma ReplyQuestion(data: Octets, out: Octets, body: Octets, dnsId: U16)
    requires |data| >= 12 && |body| == |AfterQuestion(data)|
    requires out == ReplyHead(data, dnsId) + body
    ensures |out| == |data| && QuestionSize(out) == QuestionSize(data) && AfterQuestion(out) == body
    ensures out[2..12] == data[2..12] && Take(out[12..], QuestionSize(out)) == Take(data[12..], QuestionSize(data))
  {
    hide *;
    var payload, q := data[12..], QuestionSize(data);
    var question := Take(payload, q);
    RewrittenCases(data, dnsId, 0);
    AfterQuestionIs(data);
    QuestionSizeIs(data);
    TakeDrop(payload, q);
    HeadCut(Pack16(dnsId), data[2..12], question, body);
    AfterQuestionIs(out);
    QuestionSizeIs(out);
    SameNameLength(payload, question, body, |data|);
    SameTake(payload, question, body, q);
  }

  lemma HeadCut(id: Octets, header: Octets, question: Octets, body: Octets)
    requires |id| == 2 && |header| == 10
    ensures var out := id + header + question + body;
      |out| >= 12 && out[12..] == question + body && out[2..12] == header
  {
  }

  /** A name keeps its length when the bytes behind type and class change. */
  lemma SameNameLength(payload: Octets, question: Octets, body: Octets, refLen: nat)
    requires question == Take(payload, NameLength(payload, refLen) + 4) && |question| + |body| == |payload|
    ensures NameLength(question + body, refLen) == NameLength(payload, refLen)
  {
    hide Framing;
    var n := NameLength(payload, refLen);
    if |payload| < n + 4 {
      assert question + body == payload;
    } else {
      assert (question + body)[..n + 1] == payload[..n + 1];
      FramingLocal(payload, question + body, refLen);
    }
  }

  lemma SameTake(payload: Octets, question: Octets, body: Octets, q: nat)
    requires question == Take(payload, q) && |question| + |body| == |payload|
    ensures Take(question + body, q) == question && Drop(question + body, q) == body
  {
  }

  /** Rewriting a reply again, for any client ID, changes nothing but that ID. */
  lemma RewriteTwice(data: Octets, dnsId: U16, again: U16, now: int)
    requires Rewritten(data, dnsId, now).Ok?
    ensures var once := Rewritten(data, dnsId, now).value;
      && |once.bytes| >= 12 && Parsed(once.bytes).Ok?
      && Parsed(once.bytes).value.used == Parsed(data).value.used
      && Parsed(once.bytes).value.records == RetimedAll(Parsed(data).value.records)
      && Rewritten(once.bytes, again, now) == Ok(once.(bytes := Pack16(again) + once.bytes[2..]))
  {
    hide *;
    RewrittenIsLong(data, dnsId, now);
    RewrittenCases(data, dnsId, now);
    var s, after := Parsed(data).value, AfterQuestion(data);
    var out := ReplyFor(data, s, dnsId, now).bytes;
    var clamped, tail := RetimedAll(s.records), Drop(after, s.used);
    RetimedTwice(s.records);
    CachedTwice(s.records);
    SameLengths(s.records, clamped);
    SectionsTile(after, |data| - 12, SectionCounts(data));
    TakeDrop(after, s.used);
    ReplyBody(data, s, dnsId, now);
    var body := RecordBytes(clamped) + tail;
    ReplyQuestion(data, out, body, dnsId);
    SectionsChanged(after, |data| - 12, SectionCounts(data), clamped, tail);
    HeaderKept(data, out);
    RewrittenCases(out, again, now);
    SameReply(data, out, s, dnsId, again, now);
  }

  lemma ReplyBody(data: Octets, s: Section, dnsId: U16, now: int)
    requires |data| >= 12
    ensures ReplyFor(data, s, dnsId, now).bytes
         == ReplyHead(data, dnsId) + (RecordBytes(RetimedAll(s.records)) + Drop(AfterQuestion(data), s.used))
    ensures |ReplyHead(data, dnsId)| >= 12
  {
    hide *;
    RewrittenCases(data, dnsId, now);
    ReplyParts(data, s, dnsId, now);
    QuestionSizeIs(data);
    Associative(ReplyHead(data, dnsId), RecordBytes(RetimedAll(s.records)), Drop(AfterQuestion(data), s.used));
  }

  lemma QuestionSizeIs(data: Octets)
    requires |data| >= 12
    ensures QuestionSize(data) == NameLength(data[12..], |data|) + 4
  {
  }

  lemma HeaderKept(data: Octets, out: Octets)
    requires |data| >= 12 && |out| >= 12 && out[2..12] == data[2..12]
    ensures SectionCounts(out) == SectionCounts(data) && Unpack16(out, 2) == Unpack16(data, 2)
  {
    assert forall i :: 2 <= i < 12 ==> out[i] == out[2..12][i - 2] == data[2..12][i - 2] == data[i];
  }

  lemma SameReply(data: Octets, out: Octets, s: Section, dnsId: U16, again: U16, now: int)
    requires |data| >= 12 && |out| >= 12 && Unpack16(out, 2) == Unpack16(data, 2)
    requires out == ReplyFor(data, s, dnsId, now).bytes
    requires out[2..12] == data[2..12] && Take(out[12..], QuestionSize(out)) == Take(data[12..], QuestionSize(data))
    requires var t := Section(RetimedAll(s.records), s.used);
      && RetimedAll(t.records) == t.records
      && Cached(t.records) == Cached(s.records) && LastTtl(t.records) == LastTtl(s.records)
      && Drop(AfterQuestion(out), s.used) == Drop(AfterQuestion(data), s.used)
    ensures ReplyFor(out, Section(RetimedAll(s.records), s.used), again, now)
         == ReplyFor(data, s, dnsId, now).(bytes := Pack16(again) + out[2..])
  {
    var t := Section(RetimedAll(s.records), s.used);
    hide *;
    ReplyParts(data, s, dnsId, now);
    ReplyParts(out, t, again, now);
    SwapHead(Pack16(dnsId), data[2..12], Take(data[12..], QuestionSize(data)), RecordBytes(RetimedAll(s.records)),
             Drop(AfterQuestion(data), s.used), Pack16(again));
  }

  lemma SwapHead(a: Octets, b: Octets, c: Octets, d: Octets, e: Octets, f: Octets)
    requires |a| == 2
    ensures f + (a + b + c + d + e)[2..] == f + b + c + d + e
  {
  }
}
