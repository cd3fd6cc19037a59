/** What the resolver reads in a query the relay built: generate_dns_query followed by parse. */
module Upstream {
  import opened Wire
  import opened Names
  import opened Rewrite
  import opened Messages
  import opened DomainText
  import opened Edns
  import opened Client

  /** The question as it is sent: the name's bytes, the client's type and class 1. */
  function SentQuestion(name: Octets, qtype: U16): Octets { name + Pack16(qtype) + Pack16(1) }

  /** The OPT record that goes with it. */
  function SentOpt(name: Octets, qtype: U16, additional: Octets, dnssec: bool): Result<Octets> {
    EncodeOpt(Sanitized(additional, 12 + |SentQuestion(name, qtype)|, dnssec))
  }

  lemma BuiltParts(dnsId: U16, cd: Bit, qname: Octets, qtype: U16, additional: Octets, dnssec: bool)
    ensures var r := BuiltQuery(dnsId, cd, qname, qtype, additional, dnssec);
      match DomainStob(qname)
      case Err(_) => r.Err?
      case Ok(name) =>
        var front := QueryHeader(dnsId, 1, if dnssec then 0 else cd) + SentQuestion(name, qtype);
        var opt := SentOpt(name, qtype, additional, dnssec);
        && (r.Ok? <==> opt.Ok? && |front + opt.value| < 0x1_0000)
        && (r.Ok? ==> r.value == Pack16(|front + opt.value|) + front + opt.value)
  {
    hide DomainStob, EncodeOpt, Sanitized, QueryHeader;
    if DomainStob(qname).Ok? {
      var header, name := QueryHeader(dnsId, 1, if dnssec then 0 else cd), DomainStob(qname).value;
      assert header + (name + Pack16(qtype) + Pack16(1)) == header + name + Pack16(qtype) + Pack16(1);
    }
  }

  /** Header, question and OPT record with an empty padding option. */
  function UnpaddedSize(name: Octets, additional: Octets): nat {
    12 + |name| + 4 + 15 + Sizes(WithoutSubnet(Requested(additional).options))
  }

  lemma UnpaddedIs(name: Octets, qtype: U16, additional: Octets)
    ensures UnpaddedSize(name, additional)
         == 12 + |SentQuestion(name, qtype)| + 15 + Sizes(WithoutSubnet(Requested(additional).options))
  {
    hide Sizes, WithoutSubnet, Requested;
  }

  lemma SentOptSize(name: Octets, qtype: U16, additional: Octets, dnssec: bool)
    ensures var opt, n := SentOpt(name, qtype, additional, dnssec), UnpaddedSize(name, additional);
      var total := n + PadLength(n) - 12 - |SentQuestion(name, qtype)|;
      && total > 0 && (opt.Ok? <==> total - 11 < 0x1_0000) && (opt.Ok? ==> |opt.value| == total)
  {
    hide *;
    var n := 12 + |SentQuestion(name, qtype)|;
    var o := Sanitized(additional, n, dnssec);
    SentOptIs(name, qtype, additional, dnssec);
    UnpaddedIs(name, qtype, additional);
    SanitizedIs(additional, n, dnssec);
    var kept, last := WithoutSubnet(Requested(additional).options), o.options[|o.options| - 1];
    SettingsConcat(kept, [last]);
    EncodedSizes(kept);
    OneSize(last);
    OptFits(o);
  }

  /** Any query can be built exactly when its name can be written and the padded message fits the 16-bit prefix. */
  lemma QueryFits(dnsId: U16, cd: Bit, qname: Octets, qtype: U16, additional: Octets, dnssec: bool)
    ensures BuiltQuery(dnsId, cd, qname, qtype, additional, dnssec).Ok? <==>
      && DomainStob(qname).Ok?
      && var n := UnpaddedSize(DomainStob(qname).value, additional); n + PadLength(n) < 0x1_0000
  {
    hide *;
    BuiltParts(dnsId, cd, qname, qtype, additional, dnssec);
    if DomainStob(qname).Ok? {
      SentOptSize(DomainStob(qname).value, qtype, additional, dnssec);
      UnpaddedIs(DomainStob(qname).value, qtype, additional);
    }
  }

  /**
   * Every query that is built, for any name and any client options, fills
   * whole 128-byte blocks behind a right length prefix; what stands behind the
   * question is the sanitised OPT record, field by field; its last option is the padding, less
   * than 128 bytes of it, and no shorter padding would fill the blocks.
   */
  lemma QueryPadded(dnsId: U16, cd: Bit, qname: Octets, qtype: U16, additional: Octets, dnssec: bool)
    requires BuiltQuery(dnsId, cd, qname, qtype, additional, dnssec).Ok?
    ensures var sent := BuiltQuery(dnsId, cd, qname, qtype, additional, dnssec).value;
      && DomainStob(qname).Ok? && |sent| >= 2 && Unpack16(sent, 0) == |sent| - 2 && FillsBlocks(|sent| - 2)
      && var question := 18 + |DomainStob(qname).value|;
      && question <= |sent|
      && var opt := ParseOpt(sent[question..]);
      && Sanitises(additional, dnssec, sent[question..])
      && opt == Some(Sanitized(additional, question - 2, dnssec)) && opt.value.options != []
      && var pad := |opt.value.options[|opt.value.options| - 1].data|;
      && pad < 128 && forall less :: |sent| - 2 - pad <= less < |sent| - 2 ==> !FillsBlocks(less)
  {
    hide *;
    BuiltParts(dnsId, cd, qname, qtype, additional, dnssec);
    var name := DomainStob(qname).value;
    var header, question := QueryHeader(dnsId, 1, if dnssec then 0 else cd), SentQuestion(name, qtype);
    var opt := SentOpt(name, qtype, additional, dnssec).value;
    Prefix(|header + question + opt|, header, question, opt);
    SentQuestionIs(name, qtype);
    SentOptIs(name, qtype, additional, dnssec);
    SanitizedOptRecord(additional, 12 + |question|, dnssec);
    SentBytes(additional, 12 + |question|, dnssec);
    SanitizedIs(additional, 12 + |question|, dnssec);
    assert |header| == 12;
    var sent := BuiltQuery(dnsId, cd, qname, qtype, additional, dnssec).value;
    assert sent[14 + |question|..] == opt;
  }

  lemma SentOptIs(name: Octets, qtype: U16, additional: Octets, dnssec: bool)
    ensures SentOpt(name, qtype, additional, dnssec)
         == EncodeOpt(Sanitized(additional, 12 + |SentQuestion(name, qtype)|, dnssec))
  {
  }

  lemma OptFits(o: Opt)
    ensures EncodeOpt(o).Ok? <==> |EncodeSettings(o.options)| < 0x1_0000
    ensures EncodeOpt(o).Ok? ==> |EncodeOpt(o).value| == 11 + |EncodeSettings(o.options)|
  {
  }

  lemma SentHeader(dnsId: U16, cd: Bit, rest: Octets)
    ensures var d := QueryHeader(dnsId, 1, cd) + rest;
      && Unpack16(d, 0) == dnsId && ReadFlags(Unpack16(d, 2)) == Flags(0, 0, 0, 0, 1, 0, 0, 0, cd, 0)
      && Unpack16(d, 4) == 1 && SectionCounts(d) == [0, 0] && Unpack16(d, 10) == 1 && d[12..] == rest
  {
    HeaderReads(dnsId, Flags(0, 0, 0, 0, 1, 0, 0, 0, cd, 0), 0, 1, rest);
    hide BuildHeader, ReadFlags;
  }

  lemma QuestionRead(d: Octets, labels: seq<Label>, qtype: U16, qclass: U16, opt: Octets)
    requires |d| >= 12 && d[12..] == WireName(labels) + Pack16(qtype) + Pack16(qclass) + opt
    ensures ReadQuestion(d) == Ok(Question(IsLocal(labels), Join(labels), qtype, qclass,
                                           WireName(labels) + Pack16(qtype) + Pack16(qclass), opt))
  {
    hide *;
    var name, rest := WireName(labels), Pack16(qtype) + Pack16(qclass) + opt;
    assert d[12..] == name + rest;
    EncodedNameLength(Name(labels, Root), rest, |d|);
    NameParsed(labels, rest, d, {});
    WireNameIs(labels);
    TypeAndClass(name, qtype, qclass, opt);
    ReadQuestionAt(d, labels, |name|);
  }

  lemma WireNameIs(labels: seq<Label>)
    ensures WireName(labels) == EncodeName(Name(labels, Root)) && WireName(labels) != []
  {
  }

  lemma ReadQuestionAt(d: Octets, labels: seq<Octets>, n: nat)
    requires |d| >= 12 && d[12..] != [] && NameLength(d[12..], |d|) == n && n + 4 <= |d[12..]|
    requires Chase(d[12..], d, {}).labels == labels
    ensures var q := d[12..];
      ReadQuestion(d) == Ok(Question(IsLocal(labels), Join(labels), Unpack16(q, n), Unpack16(q, n + 2),
                                     q[..n + 4], q[n + 4..]))
  {
    hide NameLength, Chase, IsLocal, Join, Unpack16;
  }

  lemma TypeAndClass(name: Octets, qtype: U16, qclass: U16, opt: Octets)
    ensures var n, q := |name|, name + Pack16(qtype) + Pack16(qclass) + opt;
      && n + 4 <= |q| && Unpack16(q, n) == qtype && Unpack16(q, n + 2) == qclass
      && q[..n + 4] == name + Pack16(qtype) + Pack16(qclass) && q[n + 4..] == opt
  {
  }

  /**
   * The name a client asks for is sent upstream byte for byte exactly when its
   * labels are ASCII and without dots of their own.
   */
  lemma NameForwarded(data: Octets, labels: seq<Label>, qtype: U16, qclass: U16, additional: Octets)
    requires |data| >= 12 && data[12..] == WireName(labels) + Pack16(qtype) + Pack16(qclass) + additional
    ensures ReadQuestion(data).Ok? && ReadQuestion(data).value.additional == additional
    ensures DomainStob(ReadQuestion(data).value.qname) == Ok(WireName(labels)) <==> AllAscii(labels) && DotFree(labels)
  {
    QuestionRead(data, labels, qtype, qclass, additional);
    TextRoundTrip(labels);
  }

  /**
   * For a name of ASCII labels without dots, the resolver reads in the built
   * query what was put in: ID, flags, name, type and class 1, and exactly the
   * sanitised OPT record behind the question; the prefix is the length of the
   * message, and the message fills 128-byte blocks.
   */
  lemma QueryRoundTrip(labels: seq<Label>, dnsId: U16, cd: Bit, qtype: U16, additional: Octets, dnssec: bool)
    requires AllAscii(labels) && DotFree(labels)
    requires BuiltQuery(dnsId, cd, Join(labels), qtype, additional, dnssec).Ok?
    ensures SentOpt(WireName(labels), qtype, additional, dnssec).Ok?
    ensures var sent := BuiltQuery(dnsId, cd, Join(labels), qtype, additional, dnssec).value;
      && |sent| >= 14 && Unpack16(sent, 0) == |sent| - 2
      && var d, name := sent[2..], WireName(labels);
      && Unpack16(d, 0) == dnsId
      && ReadFlags(Unpack16(d, 2)) == Flags(0, 0, 0, 0, 1, 0, 0, 0, if dnssec then 0 else cd, 0)
      && Unpack16(d, 4) == 1 && SectionCounts(d) == [0, 0] && Unpack16(d, 10) == 1
      && ReadQuestion(d) == Ok(Question(IsLocal(labels), Join(labels), qtype, 1, SentQuestion(name, qtype),
                                        SentOpt(name, qtype, additional, dnssec).value))
      && FillsBlocks(|d|)
  {
    hide *;
    QueryPadded(dnsId, cd, Join(labels), qtype, additional, dnssec);
    TextRoundTrip(labels);
    BuiltParts(dnsId, cd, Join(labels), qtype, additional, dnssec);
    var sentCd: Bit := if dnssec then 0 else cd;
    var name := WireName(labels);
    var question, opt := SentQuestion(name, qtype), SentOpt(name, qtype, additional, dnssec).value;
    var header := QueryHeader(dnsId, 1, sentCd);
    var sent := BuiltQuery(dnsId, cd, Join(labels), qtype, additional, dnssec).value;
    var d := header + (question + opt);
    Prefix(|header + question + opt|, header, question, opt);
    assert sent[2..] == d;
    SentHeader(dnsId, sentCd, question + opt);
    SentQuestionIs(name, qtype);
    QuestionRead(d, labels, qtype, 1, opt);
  }

  lemma SentQuestionIs(name: Octets, qtype: U16)
    ensures SentQuestion(name, qtype) == name + Pack16(qtype) + Pack16(1)
  {
  }

  lemma Prefix(n: U16, a: Octets, b: Octets, c: Octets)
    ensures var s := Pack16(n) + (a + b) + c; |s| >= 2 && Unpack16(s, 0) == n && s[2..] == a + (b + c)
  {
  }
}
