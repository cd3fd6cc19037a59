/** The EDNS0 codec and sanitiser of protocol_tools.py (section 6.1.2 of RFC 6891, RFC 7830, RFC 8467). */
module Edns {
  import opened Wire

  const OPT: U16 := 41
  const ECS_CODE: U16 := 8
  const PADDING_CODE: U16 := 12
  const PADDING_BLOCK: nat := 128
  const DEFAULT_UDP_SIZE: U16 := 4096

  type Payload = d: Octets | |d| < 0x1_0000 witness []

  datatype Setting = Setting(code: U16, data: Payload)

  /** An OPT record: the UDP size in its class, extended rcode and flags in its TTL, and its options. */
  datatype Opt = Opt(udpSize: U16, flags: U32, options: seq<Setting>)

  function EncodeSetting(o: Setting): Octets { Pack16(o.code) + Pack16(|o.data|) + o.data }

  function EncodeSettings(os: seq<Setting>): Octets {
    if os == [] then [] else EncodeSetting(os[0]) + EncodeSettings(os[1..])
  }

  /** The wire form; `struct.pack` fails when the rdata is longer than 16 bits can say. */
  function EncodeOpt(o: Opt): Result<Octets> {
    var rdata := EncodeSettings(o.options);
    if |rdata| >= 0x1_0000 then Err(PackOverflow)
    else Ok([0] + Pack16(OPT) + Pack16(o.udpSize) + Pack32(o.flags) + Pack16(|rdata|) + rdata)
  }

  // ---------------------------------------------------------------------------
  // Parsing.

  function ParseSettings(rdata: Octets): (r: Option<seq<Setting>>) {
    if rdata == [] then Some([])
    else if |rdata| < 4 then None
    else
      var n: nat := Unpack16(rdata, 2);
      if |rdata| < 4 + n then None
      else match ParseSettings(rdata[4 + n..])
           case None => None
           case Some(rest) => Some([Setting(Unpack16(rdata, 0), rdata[4..4 + n])] + rest)
  }

  function ParseOpt(additional: Octets): (r: Option<Opt>) {
    if |additional| < 11 || additional[0] != 0 || Unpack16(additional, 1) != OPT then None
    else if |additional| - 11 != Unpack16(additional, 9) then None
    else match ParseSettings(additional[11..])
         case None => None
         case Some(options) => Some(Opt(Unpack16(additional, 3), Unpack32(additional, 5), options))
  }

  ghost function Continued(options: seq<Setting>, r: Option<seq<Setting>>): Option<seq<Setting>> {
    match r case None => None case Some(rest) => Some(options + rest)
  }

  method ParseSingleOptRecord(additional: Octets) returns (r: Option<Opt>)
    ensures r == ParseOpt(additional)
  {
    if |additional| < 11 || additional[0] != 0 { return None; }
    var rtype, udpSize := Unpack16(additional, 1), Unpack16(additional, 3);
    if rtype != OPT { return None; }
    var flags, rdlength: nat := Unpack32(additional, 5), Unpack16(additional, 9);
    var rdata, trailer := Take(additional[11..], rdlength), Drop(additional, 11 + rdlength);
    if trailer != [] || |rdata| != rdlength { return None; }
    assert rdata == additional[11..];

    var options := ParseRdata(rdata);
    if options.None? { return None; }
    return Some(Opt(udpSize, flags, options.value));
  }

  /** The option loop. */
  method ParseRdata(rdata: Octets) returns (r: Option<seq<Setting>>)
    ensures r == ParseSettings(rdata)
  {
    hide *;
    var options: seq<Setting>, idx := [], 0;
    ghost var all := ParseSettings(rdata);
    NothingParsed(rdata);
    while idx + 4 <= |rdata|
      invariant idx <= |rdata|
      invariant all == Continued(options, ParseSettings(rdata[idx..]))
    {
      var code, optLen: nat := Unpack16(rdata, idx), Unpack16(rdata, idx + 2);
      var data := Take(rdata[idx + 4..], optLen);
      OneSetting(rdata, idx, options);
      if |data| != optLen { return None; }
      options := options + [Setting(code, data)];
      TakeAll(rdata, idx + 4, optLen);
      idx := idx + 4 + optLen;
    }
    LastParsed(rdata[idx..], options);
    if idx != |rdata| { return None; }
    return Some(options);
  }

  lemma TakeAll(b: Octets, at: nat, n: nat)
    requires at <= |b| && |Take(b[at..], n)| == n
    ensures at + n <= |b|
  {
  }

  lemma NothingParsed(rdata: Octets)
    ensures Continued([], ParseSettings(rdata[0..])) == ParseSettings(rdata)
  {
    assert rdata[0..] == rdata;
    var r := ParseSettings(rdata);
    if r.Some? { assert [] + r.value == r.value; }
  }

  lemma LastParsed(rdata: Octets, options: seq<Setting>)
    requires |rdata| < 4
    ensures Continued(options, ParseSettings(rdata)) == if rdata == [] then Some(options) else None
  {
    assert options + [] == options;
  }

  lemma OneSetting(rdata: Octets, idx: nat, options: seq<Setting>)
    requires idx + 4 <= |rdata|
    ensures var n: nat := Unpack16(rdata, idx + 2);
      var data := Take(rdata[idx + 4..], n);
      Continued(options, ParseSettings(rdata[idx..])) ==
        if |data| != n then None
        else Continued(options + [Setting(Unpack16(rdata, idx), data)], ParseSettings(rdata[idx + 4 + n..]))
  {
    var n: nat := Unpack16(rdata, idx + 2);
    Unpack16Drop(rdata, idx);
    assert Unpack16(rdata[idx..], 2) == n;
    if idx + 4 + n <= |rdata| {
      assert rdata[idx..][4 + n..] == rdata[idx + 4 + n..];
      assert rdata[idx..][4..4 + n] == Take(rdata[idx + 4..], n);
      var rest := ParseSettings(rdata[idx + 4 + n..]);
      if rest.Some? {
        var o := Setting(Unpack16(rdata, idx), Take(rdata[idx + 4..], n));
        assert options + ([o] + rest.value) == options + [o] + rest.value;
      }
    }
  }

  // ---------------------------------------------------------------------------
  // The codec is canonical both ways.

  lemma {:induction false} SettingsRoundTrip(os: seq<Setting>)
    ensures ParseSettings(EncodeSettings(os)) == Some(os)
  {
    if os != [] {
      var o, rest := os[0], EncodeSettings(os[1..]);
      SettingsRoundTrip(os[1..]);
      hide *;
      SettingsFront(os);
      SettingFields(o, rest);
      FirstParsed(EncodeSetting(o) + rest, o, rest, os[1..]);
      assert [o] + os[1..] == os;
    }
  }

  lemma SettingFields(o: Setting, rest: Octets)
    ensures var e := EncodeSetting(o) + rest;
      && |e| >= 4 + |o.data| && Unpack16(e, 0) == o.code && Unpack16(e, 2) == |o.data|
      && e[4..4 + |o.data|] == o.data && e[4 + |o.data|..] == rest
  {
  }

  lemma FirstParsed(e: Octets, o: Setting, rest: Octets, os: seq<Setting>)
    requires |e| >= 4 + |o.data| && Unpack16(e, 0) == o.code && Unpack16(e, 2) == |o.data|
    requires e[4..4 + |o.data|] == o.data && e[4 + |o.data|..] == rest && ParseSettings(rest) == Some(os)
    ensures ParseSettings(e) == Some([o] + os)
  {
    hide Unpack16;
  }

  lemma {:induction false} SettingsCanonical(rdata: Octets)
    requires ParseSettings(rdata).Some?
    ensures EncodeSettings(ParseSettings(rdata).value) == rdata
    decreases |rdata|
  {
    hide EncodeSettings, Unpack16, Pack16;
    if rdata == [] {
      NoSettings();
    } else {
      var n: nat := Unpack16(rdata, 2);
      var rest := ParseSettings(rdata[4 + n..]).value;
      SettingsCanonical(rdata[4 + n..]);
      PackUnpack16(rdata, 0);
      PackUnpack16(rdata, 2);
      SettingsFirst(Setting(Unpack16(rdata, 0), rdata[4..4 + n]), rest);
      FourSlices(rdata, 4 + n);
    }
  }

  lemma NoSettings()
    ensures EncodeSettings([]) == []
  {
  }

  lemma FourSlices(b: Octets, n: nat)
    requires 4 <= n <= |b|
    ensures b == b[0..2] + b[2..4] + b[4..n] + b[n..]
  {
  }

  lemma SettingsFirst(o: Setting, rest: seq<Setting>)
    ensures EncodeSettings([o] + rest) == Pack16(o.code) + Pack16(|o.data|) + o.data + EncodeSettings(rest)
  {
    assert ([o] + rest)[1..] == rest;
  }

  /** Parsing an encoded OPT record gives back its fields. */
  lemma OptRoundTrip(o: Opt)
    requires EncodeOpt(o).Ok?
    ensures ParseOpt(EncodeOpt(o).value) == Some(o)
  {
    var rdata, e := EncodeSettings(o.options), EncodeOpt(o).value;
    hide EncodeSettings, ParseSettings;
    SettingsRoundTrip(o.options);
    assert e[11..] == rdata;
    OptFields(o, |rdata|, rdata);
  }

  lemma OptFields(o: Opt, n: U16, rdata: Octets)
    ensures var e := [0] + Pack16(OPT) + Pack16(o.udpSize) + Pack32(o.flags) + Pack16(n) + rdata;
      Unpack16(e, 1) == OPT && Unpack16(e, 3) == o.udpSize && Unpack32(e, 5) == o.flags && Unpack16(e, 9) == n
  {
  }

  /** Where an accepted record has what: name, type, UDP size, flags, length, and then code and length of an option. */
  lemma OptLayout(additional: Octets)
    requires ParseOpt(additional).Some?
    ensures var o := ParseOpt(additional).value;
      && |additional| >= 11 && additional[0] == 0 && Unpack16(additional, 1) == 41
      && Unpack16(additional, 3) == o.udpSize && Unpack32(additional, 5) == o.flags
      && Unpack16(additional, 9) == |additional| - 11 && (o.options == [] <==> |additional| == 11)
    ensures var o := ParseOpt(additional).value;
      o.options != [] ==>
        && var first := o.options[0];
        && 15 + |first.data| <= |additional| && Unpack16(additional, 11) == first.code
        && Unpack16(additional, 13) == |first.data| && additional[15..15 + |first.data|] == first.data
        && ParseSettings(additional[15 + |first.data|..]) == Some(o.options[1..])
  {
    hide Unpack32;
    var rdata := additional[11..];
    if rdata != [] {
      var n: nat := Unpack16(rdata, 2);
      Unpack16Drop(additional, 11);
      assert Unpack16(rdata, 2) == Unpack16(additional, 13);
      assert rdata[4..4 + n] == additional[15..15 + n] && rdata[4 + n..] == additional[15 + n..];
    }
  }

  /** Whatever is accepted is encoded back to the same bytes. */
  lemma OptCanonical(additional: Octets)
    requires ParseOpt(additional).Some?
    ensures EncodeOpt(ParseOpt(additional).value) == Ok(additional)
  {
    var b := additional;
    hide ParseSettings, EncodeSettings, Pack16, Pack32, Unpack32;
    SettingsCanonical(b[11..]);
    PackUnpack16(b, 1);
    PackUnpack16(b, 3);
    PackUnpack32(b, 5);
    PackUnpack16(b, 9);
    assert b == [0] + b[1..3] + b[3..5] + b[5..9] + b[9..11] + b[11..];
  }

  // ---------------------------------------------------------------------------
  // Sanitising.

  /** `options` without the client subnet. */
  function WithoutSubnet(os: seq<Setting>): (r: seq<Setting>)
    ensures forall o :: o in r ==> o.code != ECS_CODE
  {
    if os == [] then []
    else if os[0].code == ECS_CODE then WithoutSubnet(os[1..])
    else [os[0]] + WithoutSubnet(os[1..])
  }

  function Sizes(os: seq<Setting>): nat {
    if os == [] then 0 else 4 + |os[0].data| + Sizes(os[1..])
  }

  function PadLength(unpaddedTotal: nat): (n: nat)
    ensures n < PADDING_BLOCK
  {
    var remainder := unpaddedTotal % PADDING_BLOCK;
    if remainder == 0 then 0 else PADDING_BLOCK - remainder
  }

  /** `flags | 0x8000`: sets the DNSSEC OK bit and keeps the other 31. */
  function WithDo(flags: U32): U32 {
    0x1_0000 * (flags / 0x1_0000) + 0x8000 + flags % 0x8000
  }

  lemma WithDoSetsOneBit(flags: U32)
    ensures var f := WithDo(flags);
      f / 0x8000 % 2 == 1 && f % 0x8000 == flags % 0x8000 && f / 0x1_0000 == flags / 0x1_0000
    ensures WithDo(flags) == flags <==> flags / 0x8000 % 2 == 1
  {
    var h, d, l := flags / 0x1_0000, flags / 0x8000 % 2, flags % 0x8000;
    Digits(h, d, l);
    Digits(h, 1, l);
  }

  /** The upper half, bit 15 and the bits under it. */
  lemma Digits(h: nat, d: nat, l: nat)
    requires d < 2 && l < 0x8000
    ensures var w := 0x1_0000 * h + 0x8000 * d + l;
      w / 0x8000 == 2 * h + d && w % 0x8000 == l && w / 0x1_0000 == h && w / 0x8000 % 2 == d
  {
  }

  function Zeros(n: nat): (z: Octets)
    ensures |z| == n && forall i :: 0 <= i < n ==> z[i] == 0
  {
    if n == 0 then [] else [0] + Zeros(n - 1)
  }

  /** What the client asked for, or the default when it sent nothing usable. */
  function Requested(additional: Octets): Opt {
    match ParseOpt(additional)
    case Some(o) => o
    case None => Opt(DEFAULT_UDP_SIZE, 0, [])
  }

  function Sanitized(additional: Octets, unpaddedLen: nat, dnssec: bool): Opt {
    var o := Requested(additional);
    var kept := WithoutSubnet(o.options);
    var pad := PadLength(unpaddedLen + 11 + Sizes(kept) + 4);
    Opt(o.udpSize, if dnssec then WithDo(o.flags) else o.flags, kept + [Setting(PADDING_CODE, Zeros(pad))])
  }

  /**
   * What the sent bytes say: the client's UDP size, or 4096; the client's
   * flags, or none, with DO set when DNSSEC is on or the client set it; and the
   * client's options without the subnet, with zero padding behind them.
   */
  ghost predicate Sanitises(additional: Octets, dnssec: bool, out: Octets) {
    var asked, sent := ParseOpt(additional), ParseOpt(out);
    var size, flags := if asked.Some? then asked.value.udpSize else 4096, if asked.Some? then asked.value.flags else 0;
    && |out| >= 11 && Unpack16(out, 1) == 41 && Unpack16(out, 3) == size
    && var sentFlags := Unpack32(out, 5);
    && (sentFlags / 0x8000 % 2 == 1 <==> dnssec || flags / 0x8000 % 2 == 1)
    && sentFlags % 0x8000 == flags % 0x8000 && sentFlags / 0x1_0000 == flags / 0x1_0000
    && sent.Some? && sent.value.options != []
    && var n := |sent.value.options| - 1;
    && sent.value.options[..n] == (if asked.Some? then WithoutSubnet(asked.value.options) else [])
    && sent.value.options[n].code == 12
    && forall i :: 0 <= i < |sent.value.options[n].data| ==> sent.value.options[n].data[i] == 0
  }

  lemma SentBytes(additional: Octets, unpaddedLen: nat, dnssec: bool)
    requires EncodeOpt(Sanitized(additional, unpaddedLen, dnssec)).Ok?
    ensures Sanitises(additional, dnssec, EncodeOpt(Sanitized(additional, unpaddedLen, dnssec)).value)
  {
    var o := Sanitized(additional, unpaddedLen, dnssec);
    var flags := Requested(additional).flags;
    hide ParseOpt, EncodeSettings, Pack16, Pack32, WithoutSubnet, Sizes, WithDo, ParseSettings;
    OptRoundTrip(o);
    OptFields(o, |EncodeSettings(o.options)|, EncodeSettings(o.options));
    WithDoSetsOneBit(flags);
    hide Unpack16, Unpack32;
    assert o.options[..|o.options| - 1] == WithoutSubnet(Requested(additional).options);
    NoneKept();
  }

  lemma NoneKept()
    ensures WithoutSubnet([]) == []
  {
  }

  method SanitizeAndPadEdns(additional: Octets, unpaddedLen: nat, dnssec: bool) returns (r: Result<Octets>)
    ensures r == EncodeOpt(Sanitized(additional, unpaddedLen, dnssec))
    ensures r.Ok? ==> Sanitises(additional, dnssec, r.value)
  {
    hide EncodeOpt, ParseSettings, WithDo, WithoutSubnet, Sizes, Zeros, Unpack16, Unpack32, Sanitises;
    var udpSize, flags, options: seq<Setting> := DEFAULT_UDP_SIZE, 0, [];
    if additional != [] {
      var parsed := ParseSingleOptRecord(additional);
      if parsed.Some? {
        udpSize, flags, options := parsed.value.udpSize, parsed.value.flags, parsed.value.options;
      }
    }
    if dnssec {
      flags := WithDo(flags);
    }
    options := WithoutSubnet(options);
    var unpaddedTotal := unpaddedLen + 11 + Sizes(options) + 4;
    var remainder := unpaddedTotal % PADDING_BLOCK;
    var padLen := if remainder == 0 then 0 else PADDING_BLOCK - remainder;
    options := options + [Setting(PADDING_CODE, Zeros(padLen))];
    r := EncodeOpt(Opt(udpSize, flags, options));
    if r.Ok? { SentBytes(additional, unpaddedLen, dnssec); }
  }

  lemma {:induction false} SettingsConcat(a: seq<Setting>, b: seq<Setting>)
    ensures EncodeSettings(a + b) == EncodeSettings(a) + EncodeSettings(b)
  {
    hide *;
    NoSettings();
    if a == [] {
      assert a + b == b;
    } else {
      SettingsConcat(a[1..], b);
      FirstOfConcat(a, b);
      SettingsFront(a);
      SettingsFront(a + b);
      Associative(EncodeSetting(a[0]), EncodeSettings(a[1..]), EncodeSettings(b));
    }
  }

  lemma SettingsFront(os: seq<Setting>)
    requires os != []
    ensures EncodeSettings(os) == EncodeSetting(os[0]) + EncodeSettings(os[1..])
  {
  }

  lemma {:induction false} EncodedSizes(os: seq<Setting>)
    ensures |EncodeSettings(os)| == Sizes(os)
  {
    if os != [] { EncodedSizes(os[1..]); }
  }

  /** The kept options are the client's without code 8, each once and in order. */
  lemma {:induction false} SubnetStripped(a: seq<Setting>, b: seq<Setting>, o: Setting)
    ensures WithoutSubnet(a + b) == WithoutSubnet(a) + WithoutSubnet(b)
    ensures WithoutSubnet([o]) == if o.code == 8 then [] else [o]
  {
    OneStripped(o);
    hide *;
    if a == [] {
      assert a + b == b;
      NoneStripped();
    } else {
      SubnetStripped(a[1..], b, o);
      FirstOfConcat(a, b);
      FirstStripped(a);
      FirstStripped(a + b);
      Associative([a[0]], WithoutSubnet(a[1..]), WithoutSubnet(b));
    }
  }

  lemma NoneStripped()
    ensures WithoutSubnet([]) == []
  {
  }

  lemma OneStripped(o: Setting)
    ensures WithoutSubnet([o]) == if o.code == 8 then [] else [o]
  {
    assert [o][1..] == [];
  }

  lemma FirstStripped(os: seq<Setting>)
    requires os != []
    ensures WithoutSubnet(os) == if os[0].code == ECS_CODE then WithoutSubnet(os[1..])
                                 else [os[0]] + WithoutSubnet(os[1..])
  {
  }

  predicate FillsBlocks(n: int) { n % 128 == 0 }

  /**
   * The OPT record sent upstream parses back to the client's UDP size, its
   * flags with at most the DO bit added, its options other than the client
   * subnet, and then one all-zero padding option; header, question and OPT
   * together fill whole 128-byte blocks, with the least padding that does.
   */
  lemma SanitizedOptRecord(additional: Octets, unpaddedLen: nat, dnssec: bool)
    requires EncodeOpt(Sanitized(additional, unpaddedLen, dnssec)).Ok?
    ensures var out := EncodeOpt(Sanitized(additional, unpaddedLen, dnssec)).value;
      var sent := ParseOpt(out);
      && sent == Some(Sanitized(additional, unpaddedLen, dnssec))
      && (forall o :: o in sent.value.options ==> o.code != 8)
      && var pad := |sent.value.options[|sent.value.options| - 1].data|;
      && pad < 128 && FillsBlocks(unpaddedLen + |out|)
      && (forall less :: unpaddedLen + |out| - pad <= less < unpaddedLen + |out| ==> !FillsBlocks(less))
  {
    hide *;
    SanitizedIs(additional, unpaddedLen, dnssec);
    var o := Sanitized(additional, unpaddedLen, dnssec);
    var kept, last := WithoutSubnet(Requested(additional).options), o.options[|o.options| - 1];
    OptRoundTrip(o);
    EncodedSizes(o.options);
    SettingsConcat(kept, [last]);
    EncodedSizes(kept);
    OneSize(last);
    Padding(unpaddedLen + 11 + Sizes(kept) + 4);
    EncodedOptSize(o);
  }

  lemma SanitizedIs(additional: Octets, unpaddedLen: nat, dnssec: bool)
    ensures var o, kept := Sanitized(additional, unpaddedLen, dnssec), WithoutSubnet(Requested(additional).options);
      && o.options != [] && o.options == kept + [o.options[|o.options| - 1]]
      && o.options[|o.options| - 1].code == 12 && ECS_CODE == 8
      && |o.options[|o.options| - 1].data| == PadLength(unpaddedLen + 11 + Sizes(kept) + 4)
  {
  }

  lemma OneSize(o: Setting)
    ensures |EncodeSettings([o])| == 4 + |o.data|
  {
    assert [o][1..] == [];
    assert EncodeSettings([o]) == EncodeSetting(o) + [];
  }

  lemma EncodedOptSize(o: Opt)
    requires EncodeOpt(o).Ok?
    ensures |EncodeOpt(o).value| == 11 + |EncodeSettings(o.options)|
  {
  }

  lemma Padding(total: nat)
    ensures var pad := PadLength(total);
      && FillsBlocks(total + pad) && pad < 128
      && (forall less :: total <= less < total + pad ==> !FillsBlocks(less))
  {
  }
}
