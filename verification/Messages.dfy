/** DNS messages as values, their encoding (section 4.1 of RFC 1035), and what ttl_rewrite does to them. */
module Messages {
  import opened Wire
  import opened Names
  import opened Rewrite

  type Label = l: Octets | 1 <= |l| <= 63 witness [97]
  type Offset14 = n: nat | n < 16384
  type Rdata = d: Octets | |d| < 0x1_0000 witness []

  datatype Ending = Root | Pointer(target: Offset14)

  datatype Name = Name(labels: seq<Label>, ending: Ending)

  datatype Rr = Rr(name: Name, rtype: U16, rclass: U16, ttl: U32, rdata: Rdata)

  type RrList = rs: seq<Rr> | |rs| < 0x1_0000 witness []

  /** One question; the additional section is any bytes. */
  datatype Message = Message(id: U16, flags: U16, question: Name, qtype: U16, qclass: U16,
                             answers: RrList, authority: RrList, arcount: U16, additional: Octets)

  function EncodeLabels(labels: seq<Label>): Octets
  {
    if labels == [] then [] else [|labels[0]|] + labels[0] + EncodeLabels(labels[1..])
  }

  function EncodeName(n: Name): Octets
  {
    EncodeLabels(n.labels)
    + match n.ending
      case Root => [0]
      case Pointer(target) => [192 + target / 256, target % 256]
  }

  function EncodeRr(r: Rr): Octets
  {
    EncodeName(r.name) + Pack16(r.rtype) + Pack16(r.rclass) + Pack32(r.ttl) + (Pack16(|r.rdata|) + r.rdata)
  }

  function EncodeRrs(rs: seq<Rr>): Octets
  {
    if rs == [] then [] else EncodeRr(rs[0]) + EncodeRrs(rs[1..])
  }

  function EncodeHeader(m: Message): (h: Octets)
    ensures |h| == 12
  {
    Pack16(m.id) + Pack16(m.flags) + Pack16(1) + Pack16(|m.answers|) + Pack16(|m.authority|) + Pack16(m.arcount)
  }

  function EncodeQuestion(m: Message): Octets
  {
    EncodeName(m.question) + Pack16(m.qtype) + Pack16(m.qclass)
  }

  function Encode(m: Message): Octets
  {
    EncodeHeader(m) + EncodeQuestion(m) + EncodeRrs(m.answers + m.authority) + m.additional
  }

  /** A pointer refers to a byte of the message behind the header. */
  predicate InRange(n: Name, size: nat) { n.ending.Pointer? ==> 12 <= n.ending.target < size }

  predicate AllInRange(rs: seq<Rr>, size: nat) { forall i :: 0 <= i < |rs| ==> InRange(rs[i].name, size) }

  predicate WellFormed(m: Message) {
    InRange(m.question, |Encode(m)|) && AllInRange(m.answers + m.authority, |Encode(m)|)
  }

  // ---------------------------------------------------------------------------
  // Parsing what was encoded.

  function AsRecord(r: Rr): Record
  {
    Record(EncodeName(r.name), r.rtype, r.rclass, r.ttl, Pack16(|r.rdata|) + r.rdata)
  }

  function AsRecords(rs: seq<Rr>): (s: seq<Record>)
    ensures |s| == |rs| && forall i :: 0 <= i < |rs| ==> s[i] == AsRecord(rs[i])
  {
    if rs == [] then [] else [AsRecord(rs[0])] + AsRecords(rs[1..])
  }

  lemma {:induction false} AsRecordsBytes(rs: seq<Rr>)
    ensures RecordBytes(AsRecords(rs)) == EncodeRrs(rs)
  {
    if rs != [] {
      AsRecordsBytes(rs[1..]);
      assert AsRecords(rs)[1..] == AsRecords(rs[1..]);
    }
  }

  lemma {:induction false} NameFramed(labels: seq<Label>, ending: Ending, rest: Octets, refLen: nat)
    requires InRange(Name(labels, ending), 12 + refLen)
    ensures var e := EncodeName(Name(labels, ending)); Framing(e + rest, refLen) == |e| && e != []
    decreases |labels|
  {
    if labels == [] {
      EndingFramed(ending, rest, refLen);
    } else {
      hide *;
      var l, f := labels[0], EncodeName(Name(labels[1..], ending));
      InRangeIs(labels, labels[1..], ending, 12 + refLen);
      NameFramed(labels[1..], ending, rest, refLen);
      FirstLabel(labels, ending);
      assert [|l|] + l + f + rest == [|l|] + l + (f + rest);
      LabelCut(l, f + rest);
      FramingLabel([|l|] + l + (f + rest), refLen);
    }
  }

  lemma InRangeIs(a: seq<Label>, b: seq<Label>, ending: Ending, size: nat)
    ensures InRange(Name(a, ending), size) <==> InRange(Name(b, ending), size)
  {
  }

  lemma EndingFramed(ending: Ending, rest: Octets, refLen: nat)
    requires InRange(Name([], ending), 12 + refLen)
    ensures var e := EncodeName(Name([], ending)); Framing(e + rest, refLen) == |e| && e != []
  {
    var e := EncodeName(Name([], ending)) + rest;
    if ending.Pointer? {
      assert PointerValue(e[0], e[1]) == ending.target;
    }
  }

  lemma FirstLabel(labels: seq<Label>, ending: Ending)
    requires labels != []
    ensures EncodeName(Name(labels, ending)) == [|labels[0]|] + labels[0] + EncodeName(Name(labels[1..], ending))
  {
  }

  /** The parser reads back exactly the labels that were encoded, when the name has no pointer. */
  lemma {:induction false} NameParsed(labels: seq<Label>, rest: Octets, ref: Octets, visited: set<nat>)
    ensures Chase(EncodeName(Name(labels, Root)) + rest, ref, visited) == Walk(labels, Terminator)
    decreases |labels|
  {
    hide *;
    if labels == [] {
      RootParsed(rest, ref, visited);
    } else {
      var l, f := labels[0], EncodeName(Name(labels[1..], Root)) + rest;
      var e := EncodeName(Name(labels, Root)) + rest;
      NameParsed(labels[1..], rest, ref, visited);
      FirstLabel(labels, Root);
      assert e == [|l|] + l + f;
      LabelCut(l, f);
      var none: seq<Octets>, walk := [], Chase(e, ref, visited).labels;
      LabelStep(e, ref, visited, none);
      assert none + walk == walk;
      assert none + [l] + labels[1..] == labels;
    }
  }

  lemma RootParsed(rest: Octets, ref: Octets, visited: set<nat>)
    ensures Chase(EncodeName(Name([], Root)) + rest, ref, visited) == Walk([], Terminator)
  {
  }

  lemma LabelCut(l: Label, rest: Octets)
    ensures var e: Octets := [|l|] + l + rest;
      && e[0] == |l| && e[0] != 0 && !IsPointer(e[0])
      && Drop(e, 1 + e[0]) == rest && Take(e[1..], e[0]) == l
  {
  }

  // ---------------------------------------------------------------------------
  // Expanding what was encoded.

  lemma OneLabel(m: Octets, at: nat, l: Label, whole: seq<Octets>)
    requires Sits(m, at, [|l|] + l)
    ensures ExpandsTo(m, at, whole) <==> whole != [] && whole[0] == l && ExpandsTo(m, at + 1 + |l|, whole[1..])
  {
    assert m[at] == m[at..at + 1 + |l|][0] == |l|;
    assert m[at + 1..at + 1 + |l|] == m[at..at + 1 + |l|][1..] == l;
    if ExpandsTo(m, at, whole) {
      var fuel: nat :| Expand(m, at, fuel) == Some(whole);
      assert Expand(m, at + 1 + |l|, fuel - 1) == Some(whole[1..]);
    }
    if whole != [] && whole[0] == l && ExpandsTo(m, at + 1 + |l|, whole[1..]) {
      var fuel: nat :| Expand(m, at + 1 + |l|, fuel) == Some(whole[1..]);
      assert [l] + whole[1..] == whole;
      assert Expand(m, at, fuel + 1) == Some(whole);
    }
  }

  lemma OneEnding(m: Octets, at: nat, ending: Ending, whole: seq<Octets>)
    requires Sits(m, at, EncodeName(Name([], ending)))
    ensures ExpandsTo(m, at, whole) <==> if ending.Root? then whole == []
                                        else ending.target >= 12 && ExpandsTo(m, ending.target, whole)
  {
    var e := EncodeName(Name([], ending));
    assert m[at] == m[at..at + |e|][0] == e[0];
    if ending.Root? {
      assert Expand(m, at, 1) == Some([]);
    } else {
      assert m[at + 1] == m[at..at + |e|][1] == e[1];
      assert IsPointer(m[at]) && PointerValue(m[at], m[at + 1]) == ending.target;
      if ExpandsTo(m, at, whole) {
        var fuel: nat :| Expand(m, at, fuel) == Some(whole);
        assert Expand(m, ending.target, fuel - 1) == Some(whole);
      }
      if ending.target >= 12 && ExpandsTo(m, ending.target, whole) {
        var fuel: nat :| Expand(m, ending.target, fuel) == Some(whole);
        assert Expand(m, at, fuel + 1) == Some(whole);
      }
    }
  }

  /** An encoded name expands to its labels and then what its ending expands to. */
  lemma {:induction false} EncodedNameExpands(m: Octets, at: nat, labels: seq<Label>, ending: Ending,
                                              whole: seq<Octets>)
    requires Sits(m, at, EncodeName(Name(labels, ending)))
    ensures ExpandsTo(m, at, whole) <==>
      && |labels| <= |whole| && whole[..|labels|] == labels
      && if ending.Root? then whole[|labels|..] == []
         else ending.target >= 12 && ExpandsTo(m, ending.target, whole[|labels|..])
    decreases |labels|
  {
    hide ExpandsTo, EncodeLabels, EncodeName;
    if labels == [] {
      OneEnding(m, at, ending, whole);
    } else {
      var l, rest := labels[0], EncodeName(Name(labels[1..], ending));
      FirstLabel(labels, ending);
      SitsSplit(m, at, [|l|] + l, rest);
      OneLabel(m, at, l, whole);
      if whole != [] {
        EncodedNameExpands(m, at + 1 + |l|, labels[1..], ending, whole[1..]);
        if |labels| <= |whole| {
          assert whole[1..][|labels| - 1..] == whole[|labels|..];
          assert whole[1..][..|labels| - 1] == whole[..|labels|][1..];
          assert whole[..|labels|] == [whole[0]] + whole[..|labels|][1..] && labels == [l] + labels[1..];
        }
      }
    }
  }

  /** A pointer to the labels in front of it never comes to an end. */
  lemma {:induction false} NeverExpands(m: Octets, at: nat, labels: seq<Label>, whole: seq<Octets>)
    requires at < 16384 && Sits(m, at, EncodeName(Name(labels, Pointer(at))))
    ensures !ExpandsTo(m, at, whole)
    decreases |whole|
  {
    hide EncodeName, EncodeLabels, ExpandsTo;
    EncodedNameExpands(m, at, labels, Pointer(at), whole);
    if labels == [] {
      SelfPointer(m, at, whole);
    } else if |labels| <= |whole| {
      NeverExpands(m, at, labels, whole[|labels|..]);
    }
  }

  lemma SelfPointer(m: Octets, at: nat, whole: seq<Octets>)
    requires at < 16384 && Sits(m, at, EncodeName(Name([], Pointer(at))))
    ensures !ExpandsTo(m, at, whole)
  {
    var e := EncodeName(Name([], Pointer(at)));
    assert m[at] == m[at..at + 2][0] == e[0] && m[at + 1] == m[at..at + 2][1] == e[1];
    assert PointerValue(m[at], m[at + 1]) == at;
    forall fuel: nat ensures Expand(m, at, fuel) == None {
      SelfPointerFails(m, at, fuel);
    }
  }

  lemma {:induction false} SelfPointerFails(m: Octets, at: nat, fuel: nat)
    requires at + 1 < |m| && IsPointer(m[at]) && PointerValue(m[at], m[at + 1]) == at
    ensures Expand(m, at, fuel) == None
    decreases fuel
  {
    if fuel > 0 { SelfPointerFails(m, at, fuel - 1); }
  }

  // ---------------------------------------------------------------------------
  // Which question names are read right.

  /** What the parser makes of the question name of the packet `m` is what section 4.1.4 of RFC 1035 says. */
  ghost predicate ReadRight(m: Octets)
    requires |m| >= 12
  {
    var w := Chase(Drop(m, 12), m, {});
    forall labels :: ExpandsTo(m, 12, labels) <==>
      w.stop == Terminator && w.labels == labels && forall l :: l in labels ==> |l| <= 63
  }

  /** In every packet that asks for the name. */
  ghost predicate AlwaysReadRight(n: Name) {
    forall m: Octets :: |m| >= 12 && Sits(m, 12, EncodeName(n)) ==> ReadRight(m)
  }

  /** Twelve bytes in front of a message, as the parser's pointers reckon. */
  const FRONT: Octets := [0, 0, 0, 0, 0, 0, 0, 0, 0, 0, 0, 0]

  lemma ReadRightIs(m: Octets)
    requires |m| >= 12
    ensures ReadRight(m) <==> forall labels :: ExpandsTo(m, 12, labels) <==> ExpandsTo(FRONT + m, 24, labels)
  {
    hide ExpandsTo, Chase, Drop;
    forall labels ensures
      var w := Chase(Drop(m, 12), m, {});
      ExpandsTo(FRONT + m, 24, labels) <==>
        w.stop == Terminator && w.labels == labels && forall l :: l in labels ==> |l| <= 63
    {
      QuestionPointersAreShifted(m, FRONT, labels);
    }
  }

  /** A name is read right when its pointer's target reads the same with the shift. */
  lemma ReadRightAtTarget(m: Octets, n: Name)
    requires |m| >= 12 && Sits(m, 12, EncodeName(n)) && n.ending.Pointer? && n.ending.target >= 12
    ensures ReadRight(m) <==>
      forall rest :: ExpandsTo(m, n.ending.target, rest) <==> ExpandsTo(FRONT + m, n.ending.target, rest)
  {
    hide *;
    var labels: seq<Octets> := n.labels;
    var t := n.ending.target;
    FrontIsLong();
    ReadRightIs(m);
    SitsShifted(FRONT, m, 12, EncodeName(n));
    if ReadRight(m) {
      forall rest ensures ExpandsTo(m, t, rest) <==> ExpandsTo(FRONT + m, t, rest) {
        assert (labels + rest)[..|labels|] == labels && (labels + rest)[|labels|..] == rest;
        EncodedNameExpands(m, 12, n.labels, n.ending, labels + rest);
        EncodedNameExpands(FRONT + m, 24, n.labels, n.ending, labels + rest);
      }
    }
    if forall rest :: ExpandsTo(m, t, rest) <==> ExpandsTo(FRONT + m, t, rest) {
      forall whole ensures ExpandsTo(m, 12, whole) <==> ExpandsTo(FRONT + m, 24, whole) {
        EncodedNameExpands(m, 12, n.labels, n.ending, whole);
        EncodedNameExpands(FRONT + m, 24, n.labels, n.ending, whole);
      }
    }
  }

  lemma SitsShifted(front: Octets, m: Octets, at: nat, bytes: Octets)
    requires |front| == 12 && Sits(m, at, bytes)
    ensures Sits(front + m, at + 12, bytes)
  {
    assert (front + m)[at + 12..at + 12 + |bytes|] == m[at..at + |bytes|];
  }

  lemma ShiftedByte(m: Octets, t: nat)
    requires 12 <= t < 12 + |m|
    ensures |FRONT| == 12 && t < |FRONT + m| && (FRONT + m)[t] == m[t - 12]
  {
  }

  /** Names without a pointer, or with one into the header, which both readings refuse. */
  lemma ReadRightWithoutTarget(m: Octets, n: Name)
    requires |m| >= 12 && Sits(m, 12, EncodeName(n)) && (n.ending.Root? || n.ending.target < 12)
    ensures ReadRight(m)
  {
    hide *;
    FrontIsLong();
    ReadRightIs(m);
    SitsShifted(FRONT, m, 12, EncodeName(n));
    forall whole ensures ExpandsTo(m, 12, whole) <==> ExpandsTo(FRONT + m, 24, whole) {
      EncodedNameExpands(m, 12, n.labels, n.ending, whole);
      EncodedNameExpands(FRONT + m, 24, n.labels, n.ending, whole);
    }
  }

  lemma FrontIsLong()
    ensures |FRONT| == 12
  {
  }

  lemma ZeroEnds(m: Octets, at: nat)
    requires at < |m| && m[at] == 0
    ensures ExpandsTo(m, at, [])
  {
    assert Expand(m, at, 1) == Some([]);
  }

  lemma LabelContinues(m: Octets, at: nat)
    requires at >= |m| || (m[at] != 0 && !IsPointer(m[at]))
    ensures !ExpandsTo(m, at, [])
  {
  }

  /** An expansion never looks at the header. */
  lemma {:induction false} HeaderUnread(a: Octets, b: Octets, at: nat, fuel: nat)
    requires |a| == |b| && at >= 12 && forall i :: 12 <= i < |a| ==> a[i] == b[i]
    ensures Expand(a, at, fuel) == Expand(b, at, fuel)
    decreases fuel
  {
    if fuel > 0 && at < |a| && a[at] != 0 {
      if IsPointer(a[at]) {
        if at + 2 <= |a| && PointerValue(a[at], a[at + 1]) >= 12 {
          HeaderUnread(a, b, PointerValue(a[at], a[at + 1]), fuel - 1);
        }
      } else if a[at] <= 63 && at + 1 + a[at] <= |a| {
        HeaderUnread(a, b, at + 1 + a[at], fuel - 1);
        assert a[at + 1..at + 1 + a[at]] == b[at + 1..at + 1 + a[at]];
      }
    }
  }

  lemma SameBehindHeader(a: Octets, b: Octets, at: nat, labels: seq<Octets>)
    requires |a| == |b| && at >= 12 && forall i :: 12 <= i < |a| ==> a[i] == b[i]
    ensures ExpandsTo(a, at, labels) <==> ExpandsTo(b, at, labels)
  {
    forall fuel: nat ensures Expand(a, at, fuel) == Expand(b, at, fuel) { HeaderUnread(a, b, at, fuel); }
  }

  /** A packet that asks for the name: the header, the name, and zeros up to a given length. */
  function Asking(header: Octets, n: Name, size: nat): (m: Octets)
    requires |header| == 12
    ensures |m| >= 12 && Sits(m, 12, EncodeName(n)) && m[..12] == header
    ensures size >= 12 + |EncodeName(n)| ==> |m| == size
    ensures forall i :: 12 + |EncodeName(n)| <= i < |m| ==> m[i] == 0
  {
    var more := if size >= 12 + |EncodeName(n)| then size - 12 - |EncodeName(n)| else 0;
    header + EncodeName(n) + seq(more, _ => 0)
  }

  /** A target in the header, as the shift has it: two packets differ there, and RFC 1035 does not see it. */
  lemma TargetInHeader(n: Name)
    requires n.ending.Pointer? && 12 <= n.ending.target < 24
    ensures !AlwaysReadRight(n)
  {
    hide *;
    FrontIsLong();
    var t := n.ending.target;
    var a, b := Asking(FRONT, n, 0), Asking(FRONT[t - 12 := 1], n, 0);
    HeaderByte(t - 12);
    SameAsking(FRONT, FRONT[t - 12 := 1], n);
    assert a[t - 12] == a[..12][t - 12] && b[t - 12] == b[..12][t - 12];
    ShiftedByte(a, t);
    ShiftedByte(b, t);
    ZeroEnds(FRONT + a, t);
    SmallByte(1);
    LabelContinues(FRONT + b, t);
    SameBehindHeader(a, b, t, []);
    ReadRightAtTarget(a, n);
    ReadRightAtTarget(b, n);
    if ReadRight(a) {
      NotAlways(b, n);
    } else {
      NotAlways(a, n);
    }
  }

  lemma SmallByte(b: Byte)
    requires b < 192
    ensures !IsPointer(b)
  {
  }

  lemma HeaderByte(k: nat)
    requires k < 12
    ensures FRONT[k] == 0
  {
  }

  lemma SameAsking(h: Octets, g: Octets, n: Name)
    requires |h| == |g| == 12
    ensures var a, b := Asking(h, n, 0), Asking(g, n, 0); |a| == |b| && forall i :: 12 <= i < |a| ==> a[i] == b[i]
  {
    hide EncodeName;
  }

  lemma NotAlways(m: Octets, n: Name)
    requires |m| >= 12 && Sits(m, 12, EncodeName(n)) && !ReadRight(m)
    ensures !AlwaysReadRight(n)
  {
    hide ReadRight, Sits;
  }

  /** A target at least twelve bytes behind the name: a packet that ends right in front of it. */
  lemma TargetFarBehind(n: Name)
    requires n.ending.Pointer? && n.ending.target >= 24 + |EncodeName(n)|
    ensures !AlwaysReadRight(n)
  {
    hide *;
    FrontIsLong();
    var t := n.ending.target;
    var m := Asking(FRONT, n, t);
    ShiftedByte(m, t);
    ZeroEnds(FRONT + m, t);
    LabelContinues(m, t);
    ReadRightAtTarget(m, n);
    NotAlways(m, n);
  }
  /** A bare pointer just behind itself: the shift leads back to the pointer, or to its second byte. */
  lemma BareTargetBehind(n: Name)
    requires n.labels == [] && n.ending.Pointer? && 24 <= n.ending.target < 26
    ensures !AlwaysReadRight(n)
  {
    hide *;
    FrontIsLong();
    var t := n.ending.target;
    assert n == Name([], Pointer(t));
    BareBytes(t);
    var m := Asking(FRONT, n, t + 1);
    var e := EncodeName(n);
    FirstTwo(m, 12, e);
    ZeroEnds(m, t);
    ShiftedByte(m, t);
    if t == 24 {
      SitsShifted(FRONT, m, 12, e);
      SelfPointer(FRONT + m, 24, []);
    } else {
      SmallByte(25);
      LabelContinues(FRONT + m, t);
    }
    ReadRightAtTarget(m, n);
    NotAlways(m, n);
  }

  lemma FirstTwo(m: Octets, at: nat, e: Octets)
    requires Sits(m, at, e) && |e| == 2
    ensures at + 2 <= |m| && m[at] == e[0] && m[at + 1] == e[1]
  {
    assert m[at..at + 2][0] == m[at] && m[at..at + 2][1] == m[at + 1];
  }

  lemma BareBytes(t: Offset14)
    requires t < 256
    ensures EncodeName(Name([], Pointer(t))) == [192, t]
  {
    assert EncodeLabels([]) == [];
  }

  /**
   * A question name is read right in every packet that asks for it exactly
   * when it has no pointer, or one into the header, where both readings fail.
   * Labels with a pointer into the name itself are set apart, because there
   * the name's own bytes decide: see `OwnTargetReadRight`.
   */
  lemma QuestionReadRight(n: Name)
    requires n.labels != [] && n.ending.Pointer? ==>
      n.ending.target < 24 || n.ending.target >= 24 + |EncodeName(n)|
    ensures AlwaysReadRight(n) <==> n.ending.Root? || n.ending.target < 12
  {
    hide ReadRight, EncodeLabels;
    if n.ending.Root? || n.ending.target < 12 {
      forall m: Octets | |m| >= 12 && Sits(m, 12, EncodeName(n)) ensures ReadRight(m) {
        ReadRightWithoutTarget(m, n);
      }
    } else if n.ending.target < 24 {
      TargetInHeader(n);
    } else if n.ending.target >= 24 + |EncodeName(n)| {
      TargetFarBehind(n);
    } else {
      BareSize(n.ending.target);
      assert n == Name([], Pointer(n.ending.target));
      BareTargetBehind(n);
    }
  }

  lemma BareSize(t: Offset14)
    ensures |EncodeName(Name([], Pointer(t)))| == 2
  {
    assert EncodeLabels([]) == [];
  }

  /** Twelve bytes of labels with a pointer to its own place: neither reading ever comes to an end. */
  lemma OwnTargetReadRight(labels: seq<Label>)
    requires |EncodeLabels(labels)| == 12
    ensures AlwaysReadRight(Name(labels, Pointer(24)))
  {
    var n := Name(labels, Pointer(24));
    hide ReadRight, ExpandsTo;
    forall m: Octets | |m| >= 12 && Sits(m, 12, EncodeName(n)) ensures ReadRight(m) {
      var e := EncodeName(Name([], Pointer(24)));
      assert EncodeName(n) == EncodeLabels(labels) + e;
      SitsSplit(m, 12, EncodeLabels(labels), e);
      SitsShifted(FRONT, m, 12, EncodeName(n));
      forall rest ensures ExpandsTo(m, 24, rest) <==> ExpandsTo(FRONT + m, 24, rest) {
        SelfPointer(m, 24, rest);
        NeverExpands(FRONT + m, 24, labels, rest);
      }
      ReadRightAtTarget(m, n);
    }
  }

  // ---------------------------------------------------------------------------
  // Parsing records.

  lemma FrontEncoded(r: Rr, rest: Octets, refLen: nat)
    requires InRange(r.name, 12 + refLen)
    ensures FrontRecord(EncodeRr(r) + rest, refLen) == Ok(Front(AsRecord(r), |EncodeRr(r)|))
  {
    hide *;
    var s, n := AsRecord(r), |EncodeName(r.name)|;
    EncodedNameLength(r.name, Pack16(r.rtype) + Pack16(r.rclass) + Pack32(r.ttl) + s.data + rest, refLen);
    RrBytes(r, rest);
    FieldsAt(s, rest);
    RdataBytes(r.rdata, rest);
    Unpack16Drop(EncodeRr(r) + rest, n + 8);
    FrontIs(EncodeRr(r) + rest, refLen, s, |r.rdata|);
  }

  lemma RrBytes(r: Rr, rest: Octets)
    ensures var s := AsRecord(r); var behind := Pack16(r.rtype) + Pack16(r.rclass) + Pack32(r.ttl) + s.data + rest;
      EncodeRr(r) + rest == s.Bytes() + rest == EncodeName(r.name) + behind
    ensures |EncodeRr(r)| == |EncodeName(r.name)| + 10 + |r.rdata|
    ensures AsRecord(r).name == EncodeName(r.name) && AsRecord(r).data == Pack16(|r.rdata|) + r.rdata
  {
  }

  lemma RdataBytes(rdata: Rdata, rest: Octets)
    ensures var out := Pack16(|rdata|) + rdata + rest;
      Unpack16(out, 0) == |rdata| && Take(out, 2 + |rdata|) == Pack16(|rdata|) + rdata
  {
  }

  lemma EncodedNameLength(n: Name, rest: Octets, refLen: nat)
    requires InRange(n, 12 + refLen)
    ensures NameLength(EncodeName(n) + rest, refLen) == |EncodeName(n)|
  {
    NameFramed(n.labels, n.ending, rest, refLen);
  }

  lemma {:induction false} RrsConcat(a: seq<Rr>, b: seq<Rr>)
    ensures EncodeRrs(a + b) == EncodeRrs(a) + EncodeRrs(b)
  {
    hide *;
    if a == [] {
      NoRrs(b, []);
      assert a + b == b && b[..0] == a && [] + EncodeRrs(b) == EncodeRrs(b);
    } else {
      RrsConcat(a[1..], b);
      FirstOfConcat(a, b);
      RrsFirst(a);
      RrsFirst(a + b);
      Associative(EncodeRr(a[0]), EncodeRrs(a[1..]), EncodeRrs(b));
    }
  }

  lemma RrsSplit(rs: seq<Rr>, k: nat)
    requires k <= |rs|
    ensures EncodeRrs(rs) == EncodeRrs(rs[..k]) + EncodeRrs(rs[k..])
  {
    hide *;
    RrsConcat(rs[..k], rs[k..]);
    assert rs == rs[..k] + rs[k..];
  }

  lemma RrsFirst(rs: seq<Rr>)
    requires rs != []
    ensures EncodeRrs(rs) == EncodeRr(rs[0]) + EncodeRrs(rs[1..])
    ensures AsRecords(rs) == [AsRecord(rs[0])] + AsRecords(rs[1..])
  {
  }

  /** The first `k` of the encoded records, parsed from record `from` on. */
  lemma {:induction false} SectionEncoded(rs: seq<Rr>, rest: Octets, refLen: nat, k: nat)
    requires AllInRange(rs, 12 + refLen) && k <= |rs|
    ensures var cur, used := EncodeRrs(rs) + rest, |EncodeRrs(rs[..k])|;
      && ParseSection(cur, refLen, k) == Ok(Section(AsRecords(rs[..k]), used))
      && Drop(cur, used) == EncodeRrs(rs[k..]) + rest
    decreases k
  {
    hide FrontRecord, EncodeRr, EncodeRrs, Drop, AsRecord, AsRecords;
    if k == 0 {
      NoRrs(rs, rest);
    } else {
      var cur, r, behind := EncodeRrs(rs) + rest, rs[0], EncodeRrs(rs[1..]) + rest;
      assert InRange(r.name, 12 + refLen);
      RrsFirst(rs);
      assert cur == EncodeRr(r) + behind;
      FrontEncoded(r, behind, refLen);
      DropConcat(EncodeRr(r), behind);
      SectionEncoded(rs[1..], rest, refLen, k - 1);
      assert rs[..k][1..] == rs[1..][..k - 1] && rs[1..][k - 1..] == rs[k..];
      RrsFirst(rs[..k]);
      DropDrop(cur, |EncodeRr(r)|, |EncodeRrs(rs[1..][..k - 1])|);
    }
  }

  lemma NoRrs(rs: seq<Rr>, rest: Octets)
    ensures rs[..0] == [] && EncodeRrs(rs[..0]) == [] && AsRecords(rs[..0]) == [] && rs[0..] == rs
    ensures Drop(EncodeRrs(rs) + rest, 0) == EncodeRrs(rs) + rest
  {
  }

  // ---------------------------------------------------------------------------
  // The record cap and the main theorem.

  function All(m: Message): seq<Rr> { m.answers + m.authority }

  function Behind(m: Message): nat
  {
    |EncodeRrs(All(m))| + |m.additional|
  }

  function ReachedAnswers(m: Message): (k: nat)
    ensures k <= |m.answers|
  {
    Cap(|m.answers|, Behind(m))
  }

  /** How many of the answer and authority records the capped loops reach. */
  function Reached(m: Message): (k: nat)
    ensures k <= |All(m)|
  {
    var k := ReachedAnswers(m);
    k + Cap(|m.authority|, Behind(m) - |EncodeRrs(All(m)[..k])|)
  }

  lemma TwoSections(cur: Octets, refLen: nat, c: nat, d: nat, a: Section, b: Section)
    requires ParseSection(cur, refLen, Cap(c, |cur|)) == Ok(a)
    requires ParseSection(Drop(cur, a.used), refLen, Cap(d, |Drop(cur, a.used)|)) == Ok(b)
    ensures ParseSections(cur, refLen, [c, d]) == Ok(Section(a.records + b.records, a.used + b.used))
  {
    hide ParseSection, Cap, Drop;
    var next := Drop(cur, a.used);
    LastPrefix(b.records, b.used, Drop(next, b.used), refLen);
    assert [c, d][1..] == [d] && [d][1..] == [];
    assert ParseSections(next, refLen, [d]) == Ok(b);
  }

  lemma EncodedRecordsParsed(m: Message)
    requires WellFormed(m)
    ensures var n, all, k := |Encode(m)|, All(m), Reached(m);
      && ParseSections(EncodeRrs(all) + m.additional, n - 12, [|m.answers|, |m.authority|])
         == Ok(Section(AsRecords(all[..k]), |EncodeRrs(all[..k])|))
      && Drop(EncodeRrs(all) + m.additional, |EncodeRrs(all[..k])|) == EncodeRrs(all[k..]) + m.additional
  {
    hide *;
    var n, all, i, k := |Encode(m)|, All(m), ReachedAnswers(m), Reached(m);
    ReachedIs(m);
    var cur, later := EncodeRrs(all) + m.additional, all[i..];
    RecordsInRange(m, i);
    SectionEncoded(all, m.additional, n - 12, i);
    RrsSplit(all, i);
    SectionEncoded(later, m.additional, n - 12, k - i);
    PrefixSplit(all, i, k);
    DropDrop(cur, |EncodeRrs(all[..i])|, |EncodeRrs(later[..k - i])|);
    TwoSections(cur, n - 12, |m.answers|, |m.authority|,
                Section(AsRecords(all[..i]), |EncodeRrs(all[..i])|),
                Section(AsRecords(later[..k - i]), |EncodeRrs(later[..k - i])|));
  }

  lemma ReachedIs(m: Message)
    ensures var all, i := All(m), ReachedAnswers(m);
      var size := |EncodeRrs(all) + m.additional|;
      && i == Cap(|m.answers|, size) <= |m.answers| <= |all| == |m.answers| + |m.authority|
      && i <= Reached(m) == i + Cap(|m.authority|, size - |EncodeRrs(all[..i])|)
  {
    hide EncodeRrs, Cap;
  }

  lemma RecordsInRange(m: Message, i: nat)
    requires WellFormed(m) && i <= |All(m)|
    ensures |Encode(m)| >= 12 && AllInRange(All(m), |Encode(m)|) && AllInRange(All(m)[i..], |Encode(m)|)
  {
  }

  lemma PrefixSplit(rs: seq<Rr>, i: nat, k: nat)
    requires i <= k <= |rs|
    ensures rs[i..][k - i..] == rs[k..]
    ensures AsRecords(rs[..k]) == AsRecords(rs[..i]) + AsRecords(rs[i..][..k - i])
    ensures EncodeRrs(rs[..k]) == EncodeRrs(rs[..i]) + EncodeRrs(rs[i..][..k - i])
  {
    hide EncodeRr, EncodeRrs, AsRecord;
    assert rs[..k][..i] == rs[..i] && rs[..k][i..] == rs[i..][..k - i];
    RrsSplit(rs[..k], i);
  }

  // ---------------------------------------------------------------------------
  // The meaning of a rewritten message.

  function ClampRr(r: Rr): Rr {
    if r.rtype in {A, CNAME, AAAA} then r.(ttl := ClampTtl(r.ttl)) else r
  }

  function ClampFirst(rs: seq<Rr>, k: nat): (c: seq<Rr>)
    ensures |c| == |rs| && forall i :: 0 <= i < |rs| ==> c[i] == if i < k then ClampRr(rs[i]) else rs[i]
  {
    if rs == [] || k == 0 then rs else [ClampRr(rs[0])] + ClampFirst(rs[1..], k - 1)
  }

  /** The same message with another ID and the TTLs of its first `k` answer and authority records clamped. */
  function Clamped(m: Message, id: U16, k: nat): Message {
    var n := |m.answers|;
    m.(id := id, answers := ClampFirst(m.answers, k), authority := ClampFirst(m.authority, if k < n then 0 else k - n))
  }

  lemma AllClamped(m: Message, id: U16, k: nat)
    ensures All(Clamped(m, id, k)) == ClampFirst(All(m), k)
  {
    hide ClampFirst, ClampRr;
    var n, x, y := |m.answers|, All(Clamped(m, id, k)), ClampFirst(All(m), k);
    forall i | 0 <= i < |All(m)| ensures x[i] == y[i] {
      assert All(m)[i] == if i < n then m.answers[i] else m.authority[i - n];
    }
  }

  lemma {:induction false} ClampedBytes(rs: seq<Rr>)
    ensures EncodeRrs(ClampFirst(rs, |rs|)) == RecordBytes(RetimedAll(AsRecords(rs)))
  {
    if rs != [] {
      ClampedBytes(rs[1..]);
      RrsFirst(rs);
      RrsFirst(ClampFirst(rs, |rs|));
      assert RetimedAll(AsRecords(rs))[1..] == RetimedAll(AsRecords(rs[1..]));
      RrBytes(ClampRr(rs[0]), []);
      assert Retimed(AsRecord(rs[0])) == AsRecord(ClampRr(rs[0]));
    }
  }

  lemma ClampedSplit(rs: seq<Rr>, k: nat)
    requires k <= |rs|
    ensures EncodeRrs(ClampFirst(rs, k)) == RecordBytes(RetimedAll(AsRecords(rs[..k]))) + EncodeRrs(rs[k..])
  {
    var c := ClampFirst(rs, k);
    hide EncodeRrs, RecordBytes, RetimedAll, AsRecords, ClampRr;
    RrsSplit(c, k);
    ClampedBytes(rs[..k]);
    assert c[..k] == ClampFirst(rs[..k], k) && c[k..] == rs[k..];
  }

  lemma HeaderFields(m: Message, rest: Octets)
    ensures var d := EncodeHeader(m) + rest;
      && |d| >= 12 && d[..2] == Pack16(m.id) && d[12..] == rest
      && SectionCounts(d) == [|m.answers|, |m.authority|] && Unpack16(d, 2) == m.flags
  {
  }

  /** The header without its ID depends on neither ID nor TTLs. */
  lemma HeaderTail(m: Message, n: Message)
    requires n == m.(id := n.id, answers := n.answers, authority := n.authority)
    requires |n.answers| == |m.answers| && |n.authority| == |m.authority|
    ensures Pack16(n.id) + EncodeHeader(m)[2..12] == EncodeHeader(n) && EncodeQuestion(n) == EncodeQuestion(m)
  {
  }

  lemma QuestionParsed(m: Message)
    requires WellFormed(m)
    ensures var d := Encode(m);
      && |d| >= 12 && QuestionSize(d) == |EncodeQuestion(m)| && Take(d[12..], QuestionSize(d)) == EncodeQuestion(m)
      && AfterQuestion(d) == EncodeRrs(All(m)) + m.additional
      && d[2..12] == EncodeHeader(m)[2..12]
      && SectionCounts(d) == [|m.answers|, |m.authority|] && Unpack16(d, 2) == m.flags
  {
    var d, q, after := Encode(m), EncodeQuestion(m), EncodeRrs(All(m)) + m.additional;
    HeaderFields(m, q + after);
    hide EncodeHeader, EncodeName, EncodeRrs, NameLength, SectionCounts, Unpack16;
    assert d == EncodeHeader(m) + (q + after);
    var behind := Pack16(m.qtype) + Pack16(m.qclass) + after;
    assert q + after == EncodeName(m.question) + behind;
    EncodedNameLength(m.question, behind, |d|);
    DropConcat(q, after);
  }

  /**
   * Rewriting the encoding of a well-formed message gives the encoding of the
   * same message with the client's ID and the TTLs of exactly the reached A,
   * CNAME and AAAA records clamped.
   */
  lemma RewriteClampsMessage(m: Message, dnsId: U16, now: int)
    requires WellFormed(m)
    ensures var r := Rewritten(Encode(m), dnsId, now);
      && r.Ok? && r.value.bytes == Encode(Clamped(m, dnsId, Reached(m))) && r.value.rcode == m.flags % 16
      && Parsed(Encode(m)).value.records == AsRecords(All(m)[..Reached(m)])
  {
    hide *;
    var d, all, k := Encode(m), All(m), Reached(m);
    QuestionParsed(m);
    EncodedRecordsParsed(m);
    RewrittenCases(d, dnsId, now);
    ReachedIs(m);
    ClampedSplit(all, k);
    var s := Parsed(d).value;
    ReplyParts(d, s, dnsId, now);
    EncodeClamped(m, dnsId, k, RecordBytes(RetimedAll(s.records)), EncodeRrs(all[k..]));
  }

  lemma EncodeClamped(m: Message, id: U16, k: nat, reached: Octets, rest: Octets)
    requires k <= |All(m)| && EncodeRrs(ClampFirst(All(m), k)) == reached + rest
    ensures Encode(Clamped(m, id, k))
         == Pack16(id) + EncodeHeader(m)[2..12] + EncodeQuestion(m) + reached + (rest + m.additional)
  {
    var n := Clamped(m, id, k);
    HeaderTail(m, n);
    AllClamped(m, id, k);
    hide EncodeHeader, EncodeQuestion, EncodeRrs, ClampFirst;
    assert Encode(n) == EncodeHeader(n) + EncodeQuestion(n) + (reached + rest) + m.additional;
  }

  /** The caps let every record through exactly when their guards do not cut the counts. */
  lemma CapNeverBites(m: Message)
    ensures Reached(m) == |All(m)| <==>
      12 * |m.answers| <= Behind(m) && 12 * |m.authority| <= Behind(m) - |EncodeRrs(m.answers)|
  {
    hide EncodeRr, EncodeRrs, Cap;
    ReachedIs(m);
    RrsConcat(m.answers, m.authority);
    assert All(m)[..|m.answers|] == m.answers;
    CapIsFull(|m.answers|, Behind(m));
    CapIsFull(|m.authority|, Behind(m) - |EncodeRrs(m.answers)|);
    CapIsFull(|m.authority|, Behind(m) - |EncodeRrs(All(m)[..ReachedAnswers(m)])|);
  }

  lemma CapIsFull(count: nat, remaining: int)
    ensures Cap(count, remaining) <= count
    ensures remaining >= 0 ==> (Cap(count, remaining) == count <==> 12 * count <= remaining)
  {
  }

  /** The only record shorter than 12 bytes has the root name and no rdata. */
  lemma ShortestRecord(r: Rr)
    ensures |EncodeRr(r)| >= 11
    ensures |EncodeRr(r)| == 11 <==> r.name == Name([], Root) && r.rdata == []
  {
    RrBytes(r, []);
    assert r.name.labels != [] ==> |EncodeLabels(r.name.labels)| >= 2;
    assert r.name == Name(r.name.labels, r.name.ending);
  }

  lemma {:induction false} LongRecords(rs: seq<Rr>)
    requires forall i :: 0 <= i < |rs| ==> |EncodeRr(rs[i])| >= 12
    ensures |EncodeRrs(rs)| >= 12 * |rs|
  {
    if rs != [] {
      hide EncodeRr;
      LongRecords(rs[1..]);
    }
  }

  /** When no record is that short, the caps never bite, whatever the counts. */
  lemma TwelveBytesSuffice(m: Message)
    requires forall i :: 0 <= i < |All(m)| ==> |EncodeRr(All(m)[i])| >= 12
    ensures Reached(m) == |All(m)|
  {
    hide EncodeRr, EncodeRrs, Cap;
    var all, n := All(m), |m.answers|;
    assert forall i :: 0 <= i < n ==> m.answers[i] == all[i];
    assert forall i :: 0 <= i < |m.authority| ==> m.authority[i] == all[n + i];
    LongRecords(m.answers);
    LongRecords(m.authority);
    RrsConcat(m.answers, m.authority);
    CapNeverBites(m);
  }

  lemma SameRr(x: Rr, y: Rr)
    requires y == x.(ttl := y.ttl)
    ensures |EncodeRr(x)| == |EncodeRr(y)|
    ensures EncodeRr(x) == EncodeRr(y) ==> x == y
  {
    var head := EncodeName(x.name) + Pack16(x.rtype) + Pack16(x.rclass);
    var n := |head|;
    hide EncodeName, Pack16, Pack32;
    assert EncodeRr(x)[n..n + 4] == Pack32(x.ttl) && EncodeRr(y)[n..n + 4] == Pack32(y.ttl);
    UnpackSlice32(EncodeRr(x), n, x.ttl);
    UnpackSlice32(EncodeRr(y), n, y.ttl);
  }

  lemma {:induction false} SameRrs(xs: seq<Rr>, ys: seq<Rr>)
    requires |xs| == |ys| && forall i :: 0 <= i < |xs| ==> ys[i] == xs[i].(ttl := ys[i].ttl)
    ensures |EncodeRrs(xs)| == |EncodeRrs(ys)|
    ensures EncodeRrs(xs) == EncodeRrs(ys) ==> xs == ys
  {
    if xs != [] {
      hide EncodeRr;
      SameRr(xs[0], ys[0]);
      SameRrs(xs[1..], ys[1..]);
      var a, b := EncodeRr(xs[0]), EncodeRr(ys[0]);
      SplitEqual(a, EncodeRrs(xs[1..]), b, EncodeRrs(ys[1..]));
      assert xs == [xs[0]] + xs[1..] && ys == [ys[0]] + ys[1..];
    }
  }

  lemma SplitEqual(a: Octets, s: Octets, b: Octets, t: Octets)
    requires |a| == |b|
    ensures a + s == b + t ==> a == b && s == t
  {
    assert (a + s)[..|a|] == a && (a + s)[|a|..] == s;
    assert (b + t)[..|b|] == b && (b + t)[|b|..] == t;
  }

  /**
   * Every A, CNAME and AAAA record of answer and authority comes out clamped
   * exactly when the records behind the cap need no clamping.
   */
  lemma RewriteClampsEverything(m: Message, dnsId: U16, now: int)
    requires WellFormed(m)
    ensures Rewritten(Encode(m), dnsId, now).Ok?
    ensures Rewritten(Encode(m), dnsId, now).value.bytes == Encode(Clamped(m, dnsId, |All(m)|)) <==>
      forall j :: Reached(m) <= j < |All(m)| ==> ClampRr(All(m)[j]) == All(m)[j]
  {
    hide *;
    var all, k := All(m), Reached(m);
    RewriteClampsMessage(m, dnsId, now);
    ReachedIs(m);
    var xs, ys := ClampFirst(all, k), ClampFirst(all, |all|);
    ClampsAgree(all, k);
    SameRrs(xs, ys);
    EncodeClamped(m, dnsId, k, EncodeRrs(xs), []);
    EncodeClamped(m, dnsId, |all|, EncodeRrs(ys), []);
    var head := Pack16(dnsId) + EncodeHeader(m)[2..12] + EncodeQuestion(m);
    Sandwich(head, EncodeRrs(xs), EncodeRrs(ys), [] + m.additional);
  }

  lemma ClampsAgree(all: seq<Rr>, k: nat)
    requires k <= |all|
    ensures var xs, ys := ClampFirst(all, k), ClampFirst(all, |all|);
      && |xs| == |ys| && (forall i :: 0 <= i < |xs| ==> ys[i] == xs[i].(ttl := ys[i].ttl))
      && (xs == ys <==> forall j :: k <= j < |all| ==> ClampRr(all[j]) == all[j])
  {
    var xs, ys := ClampFirst(all, k), ClampFirst(all, |all|);
    if xs == ys {
      forall j | k <= j < |all| ensures ClampRr(all[j]) == all[j] { assert xs[j] == ys[j]; }
    }
  }

  lemma Sandwich(head: Octets, a: Octets, b: Octets, tail: Octets)
    requires |a| == |b|
    ensures head + a + tail == head + b + tail <==> a == b
  {
    if head + a + tail == head + b + tail {
      assert a == (head + a + tail)[|head|..|head| + |a|];
      assert b == (head + b + tail)[|head|..|head| + |b|];
    }
  }

  /** An 11-byte A record alone behind the question is skipped: its TTL of zero reaches the client unclamped. */
  lemma ShortRecordEscapes(dnsId: U16, now: int)
    ensures var r := Rr(Name([], Root), A, 1, 0, []);
      var m := Message(7, 0x8180, Name([], Root), A, 1, [r], [], 0, []);
      && WellFormed(m) && Reached(m) == 0
      && Rewritten(Encode(m), dnsId, now).Ok?
      && Rewritten(Encode(m), dnsId, now).value.bytes != Encode(Clamped(m, dnsId, 1))
  {
    var r := Rr(Name([], Root), A, 1, 0, []);
    var m := Message(7, 0x8180, Name([], Root), A, 1, [r], [], 0, []);
    ShortestRecord(r);
    assert All(m) == [r];
    RrsFirst([r]);
    assert |EncodeRrs([r])| == 11;
    assert Reached(m) == 0;
    assert ClampRr(All(m)[0]).ttl == 300;
    RewriteClampsEverything(m, dnsId, now);
  }
}
