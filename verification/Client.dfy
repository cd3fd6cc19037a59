/** ClientRequest of dns_tls_packets.py and the header builders of protocol_tools.py. */
module Client {
  import opened Wire
  import opened Names
  import opened Rewrite
  import opened DomainText
  import opened Edns

  type Bit = b: nat | b < 2
  type Nibble = b: nat | b < 16

  datatype Flags = Flags(qr: Bit, op: Nibble, aa: Bit, tc: Bit, rd: Bit, ra: Bit, zz: Bit, ad: Bit, cd: Bit, rc: Nibble)

  /** `w >> k & 1` and its like, shifting on from the right. */
  function ReadFlags(w: U16): Flags {
    var w4 := w / 16;
    var w5 := w4 / 2;
    var w6 := w5 / 2;
    var w7 := w6 / 2;
    var w8 := w7 / 2;
    var w9 := w8 / 2;
    var w10 := w9 / 2;
    var w11 := w10 / 2;
    var w15 := w11 / 16;
    Flags(w15 % 2, w11 % 16, w10 % 2, w9 % 2, w8 % 2, w7 % 2, w6 % 2, w5 % 2, w4 % 2, w % 16)
  }

  function PackFlags(f: Flags): U16 {
    var w10 := ((f.qr * 16 + f.op) * 2 + f.aa);
    var w8 := (w10 * 2 + f.tc) * 2 + f.rd;
    var w6 := (w8 * 2 + f.ra) * 2 + f.zz;
    ((w6 * 2 + f.ad) * 2 + f.cd) * 16 + f.rc
  }

  lemma LowBits(w8: nat, ra: Bit, zz: Bit, ad: Bit, cd: Bit, rc: Nibble)
    ensures var w := ((((w8 * 2 + ra) * 2 + zz) * 2 + ad) * 2 + cd) * 16 + rc;
      && w % 16 == rc && w / 16 % 2 == cd && w / 16 / 2 % 2 == ad && w / 16 / 2 / 2 % 2 == zz
      && w / 16 / 2 / 2 / 2 % 2 == ra && w / 16 / 2 / 2 / 2 / 2 == w8
  {
  }

  lemma HighBits(qr: Bit, op: Nibble, aa: Bit, tc: Bit, rd: Bit)
    ensures var w := (((qr * 16 + op) * 2 + aa) * 2 + tc) * 2 + rd;
      && w % 2 == rd && w / 2 % 2 == tc && w / 2 / 2 % 2 == aa && w / 2 / 2 / 2 % 16 == op
      && w / 2 / 2 / 2 / 16 % 2 == qr
  {
  }

  lemma FlagsRoundTrip(f: Flags)
    ensures ReadFlags(PackFlags(f)) == f
  {
    HighBits(f.qr, f.op, f.aa, f.tc, f.rd);
    LowBits((((f.qr * 16 + f.op) * 2 + f.aa) * 2 + f.tc) * 2 + f.rd, f.ra, f.zz, f.ad, f.cd, f.rc);
  }

  /** The bits of the second header word, as section 4.1.1 of RFC 1035 numbers them, with AD and CD of RFC 4035. */
  lemma FlagBits(w: U16)
    ensures var f := ReadFlags(w);
      && f.qr == w / 32768 && f.op == w / 2048 % 16 && f.aa == w / 1024 % 2 && f.tc == w / 512 % 2
      && f.rd == w / 256 % 2 && f.ra == w / 128 % 2 && f.zz == w / 64 % 2 && f.ad == w / 32 % 2
      && f.cd == w / 16 % 2 && f.rc == w % 16
  {
    var a, b := w / 16, w / 256;
    assert a / 2 / 2 / 2 / 2 == b && w / 256 == b;
    assert a / 2 == w / 32 && a / 2 / 2 == w / 64 && a / 2 / 2 / 2 == w / 128;
    assert b / 2 == w / 512 && b / 2 / 2 == w / 1024 && b / 2 / 2 / 2 == w / 2048 && b / 2 / 2 / 2 / 16 == w / 32768;
  }

  /** A header with one question; the counts of the other sections follow. */
  function BuildHeader(dnsId: U16, f: Flags, answers: U16, additional: U16): (h: Octets)
    ensures |h| == 12
  {
    Pack16(dnsId) + Pack16(PackFlags(f)) + Pack16(1) + Pack16(answers) + Pack16(0) + Pack16(additional)
  }

  function ResponseHeader(dnsId: U16, answers: U16, rd: Bit, cd: Bit, rc: Nibble): (h: Octets)
    ensures |h| == 12
  {
    BuildHeader(dnsId, Flags(1, 0, 0, 0, rd, 1, 0, 0, cd, rc), answers, 0)
  }

  function QueryHeader(dnsId: U16, additional: U16, cd: Bit): (h: Octets)
    ensures |h| == 12
  {
    BuildHeader(dnsId, Flags(0, 0, 0, 0, 1, 0, 0, 0, cd, 0), 0, additional)
  }

  /** A built header reads back, whatever follows it. */
  lemma HeaderReads(dnsId: U16, f: Flags, answers: U16, additional: U16, rest: Octets)
    ensures var d := BuildHeader(dnsId, f, answers, additional) + rest;
      && Unpack16(d, 0) == dnsId && ReadFlags(Unpack16(d, 2)) == f && Unpack16(d, 4) == 1
      && SectionCounts(d) == [answers, 0] && Unpack16(d, 10) == additional && d[12..] == rest
  {
    FlagsRoundTrip(f);
    hide PackFlags, ReadFlags;
  }

  // ---------------------------------------------------------------------------
  // What a packet says.

  datatype Question = Question(localDomain: bool, qname: Octets, qtype: U16, qclass: U16,
                               record: Octets, additional: Octets)

  ghost function QuestionName(data: Octets): (n: (bool, Octets))
    requires |data| >= 12
  {
    if data[12..] == [] then (true, [])
    else var labels := Chase(data[12..], data, {}).labels; (IsLocal(labels), Join(labels))
  }

  ghost function ReadQuestion(data: Octets): Result<Question>
    requires |data| >= 12
  {
    var query, size := data[12..], QuestionSize(data);
    var name := QuestionName(data);
    if |query| < size then Err(TruncatedQuestion)
    else Ok(Question(name.0, name.1, Unpack16(query, size - 4), Unpack16(query, size - 2),
                     query[..size], query[size..]))
  }

  /** The query sent upstream, length prefix included. */
  function BuiltQuery(dnsId: U16, cd: Bit, qname: Octets, qtype: U16, additional: Octets, dnssec: bool)
    : Result<Octets>
  {
    var name :- DomainStob(qname);
    var front := QueryHeader(dnsId, 1, if dnssec then 0 else cd) + name + Pack16(qtype) + Pack16(1);
    var opt :- EncodeOpt(Sanitized(additional, |front|, dnssec));
    if |front + opt| >= 0x1_0000 then Err(PackOverflow) else Ok(Pack16(|front + opt|) + front + opt)
  }

  function WithTtl(rs: seq<Record>, ttl: U32): (s: seq<Record>)
    ensures |s| == |rs| && forall i :: 0 <= i < |rs| ==> s[i] == rs[i].(ttl := ttl)
  {
    if rs == [] then [] else [rs[0].(ttl := ttl)] + WithTtl(rs[1..], ttl)
  }

  /** The reply replayed from cache: the client's ID and question, and every cached record with the time left. */
  function CachedReply(dnsId: U16, rd: Bit, cd: Bit, question: Octets, ttl: U32, records: seq<Record>): Result<Octets> {
    if |records| >= 0x1_0000 then Err(PackOverflow)
    else Ok(ResponseHeader(dnsId, |records|, rd, cd, 0) + question + RecordBytes(WithTtl(records, ttl)))
  }

  /** The NXDOMAIN reply for a negatively cached name. */
  function NegativeReply(dnsId: U16, rd: Bit, cd: Bit, question: Octets): Octets {
    ResponseHeader(dnsId, 0, rd, cd, 3) + question
  }

  /**
   * The client reads in its negative reply its own ID, a response with the
   * recursion and checking bits it sent and NXDOMAIN, no records, and its own
   * question.
   */
  lemma NegativeReplyReads(dnsId: U16, rd: Bit, cd: Bit, question: Octets)
    ensures var d := NegativeReply(dnsId, rd, cd, question);
      && |d| >= 12 && Unpack16(d, 0) == dnsId
      && ReadFlags(Unpack16(d, 2)) == Flags(1, 0, 0, 0, rd, 1, 0, 0, cd, 3)
      && SectionCounts(d) == [0, 0] && d[12..] == question
  {
    HeaderReads(dnsId, Flags(1, 0, 0, 0, rd, 1, 0, 0, cd, 3), 0, 0, question);
    hide BuildHeader, ReadFlags;
  }

  /** And in a replayed reply the number of records, after its own ID and question. */
  lemma CachedReplyReads(dnsId: U16, rd: Bit, cd: Bit, question: Octets, ttl: U32, records: seq<Record>)
    requires |records| < 0x1_0000
    ensures var d := CachedReply(dnsId, rd, cd, question, ttl, records).value;
      && |d| >= 12 && Unpack16(d, 0) == dnsId
      && ReadFlags(Unpack16(d, 2)) == Flags(1, 0, 0, 0, rd, 1, 0, 0, cd, 0)
      && SectionCounts(d) == [|records|, 0] && d[12..] == question + RecordBytes(WithTtl(records, ttl))
  {
    var f := Flags(1, 0, 0, 0, rd, 1, 0, 0, cd, 0);
    var header, body := BuildHeader(dnsId, f, |records|, 0), RecordBytes(WithTtl(records, ttl));
    HeaderReads(dnsId, f, |records|, 0, question + body);
    hide BuildHeader, ReadFlags, RecordBytes, WithTtl;
    assert header + question + body == header + (question + body);
  }

  class ClientRequest {
    var topDomain: bool
    var dnsId: U16
    var flags: Flags
    var qname: Octets
    var qtype: U16
    var qclass: U16
    var questionRecord: Octets
    var additionalRecords: Octets
    var sendData: Octets

    constructor (fromClient: bool)
      ensures topDomain == !fromClient && dnsId == 1 && sendData == [] && additionalRecords == []
    {
      topDomain, dnsId, sendData, additionalRecords := !fromClient, 1, [], [];
      flags, qname, qtype, qclass, questionRecord := Flags(0, 0, 0, 0, 0, 0, 0, 0, 0, 0), [], 0, 0, [];
    }

    method Parse(data: Octets) returns (r: Result<bool>)
      modifies this
      ensures topDomain == old(topDomain) && sendData == old(sendData)
      ensures |data| < 12 ==> r == Err(ShortPacket) && unchanged(this)
      ensures |data| >= 12 ==>
        && dnsId == Unpack16(data, 0) && flags == ReadFlags(Unpack16(data, 2)) && qname == QuestionName(data).1
        && match ReadQuestion(data)
           case Err(e) =>
             && r == Err(e) && qtype == old(qtype) && qclass == old(qclass)
             && questionRecord == old(questionRecord) && additionalRecords == old(additionalRecords)
           case Ok(q) =>
             && r == Ok(q.localDomain) && qtype == q.qtype && qclass == q.qclass
             && questionRecord == q.record && additionalRecords == q.additional
    {
      if |data| < 12 { return Err(ShortPacket); }
      hide *;
      ReadQuestionIs(data);
      var header, query := data[..12], data[12..];
      Unpack16Take(data, 12);
      dnsId, flags := Unpack16(header, 0), ReadFlags(Unpack16(header, 2));
      var offset, localDomain, name := ParseQueryName(query, data);
      qname := name;
      if |query| < offset + 4 { return Err(TruncatedQuestion); }
      qtype, qclass := Unpack16(query, offset), Unpack16(query, offset + 2);
      questionRecord := query[..offset + 4];
      additionalRecords := query[offset + 4..];
      return Ok(localDomain);
    }

    method GenerateDnsQuery(dnsId': U16, dnssec: bool) returns (r: Result<()>)
      modifies this`sendData
      ensures old(sendData) != [] ==> r == Err(AlreadyBuilt) && sendData == old(sendData)
      ensures old(sendData) == [] ==>
        match BuiltQuery(dnsId', flags.cd, qname, qtype, additionalRecords, dnssec)
        case Err(e) => r == Err(e) && sendData == []
        case Ok(bytes) => r == Ok(()) && sendData == bytes
    {
      if sendData != [] { return Err(AlreadyBuilt); }
      hide DomainStob, EncodeOpt, Sanitized, QueryHeader;
      var name :- DomainStob(qname);
      var front := QueryHeader(dnsId', 1, if dnssec then 0 else flags.cd) + name + Pack16(qtype) + Pack16(1);
      var opt :- SanitizeAndPadEdns(additionalRecords, |front|, dnssec);
      if |front + opt| >= 0x1_0000 { return Err(PackOverflow); }
      sendData := Pack16(|front + opt|) + front + opt;
      return Ok(());
    }

    method GenerateCachedResponse(ttl: U32, records: seq<Record>) returns (r: Result<()>)
      modifies this`sendData
      ensures old(sendData) != [] ==> r == Err(AlreadyBuilt) && sendData == old(sendData)
      ensures old(sendData) == [] ==>
        match CachedReply(dnsId, flags.rd, flags.cd, questionRecord, ttl, records)
        case Err(e) => r == Err(e) && sendData == []
        case Ok(bytes) => r == Ok(()) && sendData == bytes
    {
      if sendData != [] { return Err(AlreadyBuilt); }
      if |records| >= 0x1_0000 { return Err(PackOverflow); }
      hide *;
      var data := ResponseHeader(dnsId, |records|, flags.rd, flags.cd, 0) + questionRecord;
      ghost var front, all := data, WithTtl(records, ttl);
      CachedReplyIs(dnsId, flags.rd, flags.cd, questionRecord, ttl, records);
      ReplayNone(front, all);
      for i := 0 to |records|
        invariant data == front + RecordBytes(all[..i])
      {
        var rec := records[i];
        ReplayOne(records, ttl, i);
        ghost var before := data;
        data := data + rec.name + Pack16(rec.rtype) + Pack16(rec.rclass) + Pack32(ttl) + rec.data;
        ReplayedBytes(before, rec, ttl);
        Associative(front, RecordBytes(all[..i]), all[i].Bytes());
      }
      assert all[..|records|] == all;
      sendData := data;
      return Ok(());
    }

    method GenerateNegativeResponse()
      modifies this`sendData
      ensures sendData == if old(sendData) != [] then old(sendData)
                          else NegativeReply(dnsId, flags.rd, flags.cd, questionRecord)
    {
      if sendData == [] {
        sendData := ResponseHeader(dnsId, 0, flags.rd, flags.cd, 3) + questionRecord;
      }
    }
  }

  lemma ReadQuestionIs(data: Octets)
    requires |data| >= 12
    ensures var query, n := data[12..], NameLength(data[12..], |data|);
      ReadQuestion(data) ==
        if |query| < n + 4 then Err(TruncatedQuestion)
        else Ok(Question(QuestionName(data).0, QuestionName(data).1, Unpack16(query, n), Unpack16(query, n + 2),
                         query[..n + 4], query[n + 4..]))
    ensures var labels := Chase(data[12..], data, {}).labels;
      QuestionName(data) == if data[12..] == [] then (true, []) else (IsLocal(labels), Join(labels))
  {
    hide Chase, NameLength, Join, Unpack16, IsLocal;
  }

  lemma Unpack16Take(b: Octets, n: nat)
    requires 4 <= n <= |b|
    ensures Unpack16(b[..n], 0) == Unpack16(b, 0) && Unpack16(b[..n], 2) == Unpack16(b, 2)
  {
  }

  lemma OneRecord(r: Record)
    ensures RecordBytes([r]) == r.Bytes()
  {
  }

  lemma CachedReplyIs(dnsId: U16, rd: Bit, cd: Bit, question: Octets, ttl: U32, rs: seq<Record>)
    ensures CachedReply(dnsId, rd, cd, question, ttl, rs) ==
      if |rs| >= 0x1_0000 then Err(PackOverflow)
      else Ok(ResponseHeader(dnsId, |rs|, rd, cd, 0) + question + RecordBytes(WithTtl(rs, ttl)))
  {
  }

  lemma ReplayNone(front: Octets, all: seq<Record>)
    ensures front == front + RecordBytes(all[..0])
  {
  }

  lemma ReplayedBytes(data: Octets, r: Record, ttl: U32)
    ensures data + r.name + Pack16(r.rtype) + Pack16(r.rclass) + Pack32(ttl) + r.data == data + r.(ttl := ttl).Bytes()
  {
  }

  lemma ReplayOne(rs: seq<Record>, ttl: U32, i: nat)
    requires i < |rs|
    ensures WithTtl(rs, ttl)[i] == rs[i].(ttl := ttl)
    ensures RecordBytes(WithTtl(rs, ttl)[..i + 1]) == RecordBytes(WithTtl(rs, ttl)[..i]) + WithTtl(rs, ttl)[i].Bytes()
  {
    var all := WithTtl(rs, ttl);
    hide WithTtl;
    assert all[..i + 1] == all[..i] + [all[i]];
    RecordBytesConcat(all[..i], [all[i]]);
    OneRecord(all[i]);
    hide RecordBytes;
  }
}
