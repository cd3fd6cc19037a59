/** domain_stob of protocol_tools.py: from the dotted text of a name back to wire labels. */
module DomainText {
  import opened Wire
  import opened Names
  import opened Messages

  /** `text.split('.')`. */
  function Split(s: Octets): (parts: seq<Octets>)
    ensures parts != []
  {
    if s == [] then [[]]
    else
      var rest := Split(s[1..]);
      if s[0] == DOT then [[]] + rest else [[s[0]] + rest[0]] + rest[1..]
  }

  /** `text.encode('utf-8')` for a text decoded as latin-1, so of code points below 256. */
  function Utf8(s: Octets): Octets {
    if s == [] then []
    else (if s[0] < 128 then [s[0]] else [192 + s[0] / 64, 128 + s[0] % 64]) + Utf8(s[1..])
  }

  /** What a UTF-8 decoder (section 3 of RFC 3629) reads, for one and two byte sequences. */
  function FromUtf8(b: Octets): Option<seq<nat>>
    decreases |b|
  {
    if b == [] then Some([])
    else if b[0] < 0x80 then
      match FromUtf8(b[1..]) case None => None case Some(rest) => Some([b[0] as nat] + rest)
    else if |b| >= 2 && 0xC2 <= b[0] < 0xE0 && 0x80 <= b[1] < 0xC0 then
      match FromUtf8(b[2..])
      case None => None
      case Some(rest) => Some([64 * (b[0] as nat - 0xC0) + b[1] as nat - 0x80] + rest)
    else None
  }

  function CodePoints(s: Octets): (p: seq<nat>)
    ensures |p| == |s| && forall i :: 0 <= i < |s| ==> p[i] == s[i] as nat
  {
    if s == [] then [] else [s[0] as nat] + CodePoints(s[1..])
  }

  /** A decoder gives back the code points. */
  lemma {:induction false} Utf8Decodes(s: Octets)
    ensures FromUtf8(Utf8(s)) == Some(CodePoints(s))
  {
    if s != [] {
      Utf8Decodes(s[1..]);
      hide FromUtf8;
      OneDecoded(s[0], Utf8(s[1..]), CodePoints(s[1..]));
    }
  }

  lemma OneDecoded(c: Byte, rest: Octets, points: seq<nat>)
    requires FromUtf8(rest) == Some(points)
    ensures FromUtf8((if c < 128 then [c] else [192 + c / 64, 128 + c % 64]) + rest) == Some([c as nat] + points)
  {
    if c < 128 {
      assert ([c] + rest)[1..] == rest;
    } else {
      var first: Octets := [192 + c / 64, 128 + c % 64];
      assert (first + rest)[2..] == rest && (first + rest)[0] == first[0] && (first + rest)[1] == first[1];
      assert 64 * (c as nat / 64) + c as nat % 64 == c as nat;
    }
  }

  /** Each part behind the count of its characters, which must fit a byte. */
  function StobParts(parts: seq<Octets>): Result<Octets> {
    if parts == [] then Ok([])
    else if |parts[0]| > 255 then Err(PackOverflow)
    else
      var rest :- StobParts(parts[1..]);
      Ok([|parts[0]|] + Utf8(parts[0]) + rest)
  }

  function DomainStob(s: Octets): Result<Octets> {
    var bytes :- StobParts(Split(s));
    Ok(if s != [] then bytes + [0] else bytes)
  }

  /** A text is written exactly when no part of it has more than 255 characters. */
  lemma StobFails(s: Octets)
    ensures DomainStob(s).Ok? <==> forall part :: part in Split(s) ==> |part| <= 255
  {
    PartsFail(Split(s));
  }

  lemma {:induction false} PartsFail(parts: seq<Octets>)
    ensures StobParts(parts).Ok? <==> forall part :: part in parts ==> |part| <= 255
  {
    if parts != [] {
      PartsFail(parts[1..]);
      assert parts == [parts[0]] + parts[1..];
    }
  }

  /** What is written: for every part its count of characters and its UTF-8 bytes, and the zero byte at the end. */
  lemma StobSpells(part: Octets, s: Octets)
    requires 46 !in part && |part| <= 255
    ensures part != [] ==> DomainStob(part) == Ok([|part|] + Utf8(part) + [0])
    ensures s != [] && DomainStob(s).Ok? ==>
      DomainStob(part + [46] + s) == Ok([|part|] + Utf8(part) + DomainStob(s).value)
    ensures DomainStob([]) == Ok([0])
  {
    hide *;
    EmptyText();
    DotIs();
    SplitAtDot(part, s);
    StobCases(part);
    StobCases(s);
    StobCases(part + [46] + s);
    FirstPart(part, []);
    FirstPart(part, Split(s));
    NoParts();
    assert [part] + [] == [part];
    if s != [] && DomainStob(s).Ok? {
      Associative([|part|] + Utf8(part), StobParts(Split(s)).value, [0]);
    }
  }

  lemma DotIs()
    ensures DOT == 46
  {
  }

  lemma NoParts()
    ensures StobParts([]) == Ok([])
    ensures forall b: Octets :: b + [] == b
  {
  }

  lemma StobCases(s: Octets)
    ensures DomainStob(s).Ok? <==> StobParts(Split(s)).Ok?
    ensures DomainStob(s).Ok? ==>
      DomainStob(s).value == StobParts(Split(s)).value + if s != [] then [0] else []
  {
    hide Split, StobParts;
  }

  lemma FirstPart(part: Octets, parts: seq<Octets>)
    requires |part| <= 255
    ensures StobParts([part] + parts).Ok? <==> StobParts(parts).Ok?
    ensures StobParts(parts).Ok? ==>
      StobParts([part] + parts) == Ok([|part|] + Utf8(part) + StobParts(parts).value)
  {
    hide Utf8;
    assert ([part] + parts)[1..] == parts;
  }

  lemma EmptyText()
    ensures DomainStob([]) == Ok([0])
  {
    var empty: Octets := [];
    assert StobParts([empty][1..]) == Ok([]) && Utf8(empty) == [];
    assert StobParts([empty]).value == [0];
    assert Split([]) == [empty];
  }

  predicate Ascii(s: Octets) { forall i :: 0 <= i < |s| ==> s[i] < 128 }

  function WireName(labels: seq<Label>): Octets { EncodeName(Name(labels, Root)) }

  // ---------------------------------------------------------------------------

  lemma {:induction false} SplitAtDot(l: Octets, s: Octets)
    requires DOT !in l
    ensures Split(l) == [l] && Split(l + [DOT] + s) == [l] + Split(s)
  {
    if l == [] {
      assert ([DOT] + s)[1..] == s && l + [DOT] + s == [DOT] + s;
    } else {
      SplitAtDot(l[1..], s);
      assert (l + [DOT] + s)[1..] == l[1..] + [DOT] + s;
      assert [l[0]] + l[1..] == l;
    }
  }

  lemma {:induction false} SplitBeforeDot(l: Octets, s: Octets)
    requires DOT in l
    ensures |Split(l + s)[0]| < |l|
  {
    assert (l + s)[1..] == l[1..] + s;
    if l[0] != DOT { SplitBeforeDot(l[1..], s); }
  }

  lemma {:induction false} Utf8Size(s: Octets)
    ensures |Utf8(s)| >= |s|
    ensures |Utf8(s)| == |s| <==> Ascii(s)
    ensures Ascii(s) ==> Utf8(s) == s
  {
    if s != [] {
      Utf8Size(s[1..]);
      assert Ascii(s) <==> s[0] < 128 && Ascii(s[1..]) by {
        assert forall i :: 0 < i < |s| ==> s[i] == s[1..][i - 1];
      }
    }
  }

  /** The text in front of every wire label is what `Join` puts a dot for, so sizes agree on ASCII text only. */
  lemma {:induction false} SplitSize(s: Octets)
    requires StobParts(Split(s)).Ok?
    ensures |StobParts(Split(s)).value| == 1 + |Utf8(s)|
  {
    if s != [] {
      var rest := Split(s[1..]);
      assert StobParts(rest).Ok?;
      SplitSize(s[1..]);
    }
  }

  predicate DotFree(labels: seq<Label>) { forall i :: 0 <= i < |labels| ==> DOT !in labels[i] }

  predicate AllAscii(labels: seq<Label>) { forall i :: 0 <= i < |labels| ==> Ascii(labels[i]) }

  lemma {:induction false} JoinSize(labels: seq<Label>)
    requires labels != []
    ensures |EncodeLabels(labels)| == 1 + |Join(labels)| && Join(labels) != []
    ensures Ascii(Join(labels)) <==> AllAscii(labels)
  {
    if |labels| == 1 {
      assert labels[1..] == [];
      assert AllAscii(labels) <==> Ascii(labels[0]);
    } else {
      JoinSize(labels[1..]);
      AsciiConcat(labels[0], [DOT] + Join(labels[1..]));
      AsciiConcat([DOT], Join(labels[1..]));
      assert Join(labels) == labels[0] + ([DOT] + Join(labels[1..]));
      assert AllAscii(labels) <==> Ascii(labels[0]) && AllAscii(labels[1..]) by {
        assert forall i :: 0 < i < |labels| ==> labels[i] == labels[1..][i - 1];
      }
    }
  }

  lemma AsciiConcat(a: Octets, b: Octets)
    ensures Ascii(a + b) <==> Ascii(a) && Ascii(b)
  {
    assert forall i :: 0 <= i < |b| ==> b[i] == (a + b)[|a| + i];
    assert forall i :: 0 <= i < |a| ==> a[i] == (a + b)[i];
  }

  lemma {:induction false} SplitJoin(labels: seq<Label>)
    requires labels != [] && DotFree(labels)
    ensures Split(Join(labels)) == labels
  {
    if |labels| == 1 {
      SplitAtDot(labels[0], []);
    } else {
      SplitAtDot(labels[0], Join(labels[1..]));
      SplitJoin(labels[1..]);
    }
  }

  lemma {:induction false} StobOfLabels(labels: seq<Label>)
    requires AllAscii(labels)
    ensures StobParts(labels) == Ok(EncodeLabels(labels))
  {
    if labels != [] {
      Utf8Size(labels[0]);
      StobOfLabels(labels[1..]);
    }
  }

  lemma {:induction false} DotShortens(labels: seq<Label>)
    requires labels != [] && StobParts(Split(Join(labels))) == Ok(EncodeLabels(labels)) && AllAscii(labels)
    ensures DotFree(labels)
  {
    var l, rest := labels[0], labels[1..];
    var text := if rest == [] then [] else [DOT] + Join(rest);
    assert Join(labels) == l + text;
    var parts := Split(Join(labels));
    assert EncodeLabels(labels)[0] == |l| && StobParts(parts).value[0] == |parts[0]|;
    if DOT in l {
      SplitBeforeDot(l, text);
      assert false;
    }
    if rest != [] {
      SplitAtDot(l, Join(rest));
      assert l + text == l + [DOT] + Join(rest);
      Utf8Size(l);
      assert parts[1..] == Split(Join(rest));
      var e := [|l|] + l;
      assert EncodeLabels(labels) == e + EncodeLabels(rest);
      assert StobParts(parts).value == e + StobParts(Split(Join(rest))).value;
      SameTail(e, EncodeLabels(rest), StobParts(Split(Join(rest))).value);
      DotShortens(rest);
    }
  }

  lemma SameTail(e: Octets, a: Octets, b: Octets)
    requires e + a == e + b
    ensures a == b
  {
    assert a == (e + a)[|e|..] && b == (e + b)[|e|..];
  }

  /**
   * Decoding wire labels to text and back gives the same wire name exactly
   * when no label has a byte above 127 or a dot of its own.
   */
  lemma TextRoundTrip(labels: seq<Label>)
    ensures DomainStob(Join(labels)) == Ok(WireName(labels)) <==> AllAscii(labels) && DotFree(labels)
  {
    if labels == [] {
      var empty: Octets := [];
      assert StobParts([empty][1..]) == Ok([]) && Utf8(empty) == [];
      assert StobParts([empty]).value == [0];
      assert Split([]) == [empty] && Join(labels) == [] && WireName(labels) == [0];
      assert DomainStob([]) == Ok([0]);
    } else {
      JoinSize(labels);
      var text := Join(labels);
      Utf8Size(text);
      if AllAscii(labels) && DotFree(labels) {
        SplitJoin(labels);
        StobOfLabels(labels);
      }
      if DomainStob(text) == Ok(WireName(labels)) {
        SplitSize(text);
        DropZero(StobParts(Split(text)).value, EncodeLabels(labels));
        DotShortens(labels);
      }
    }
  }

  lemma DropZero(a: Octets, b: Octets)
    requires a + [0] == b + [0]
    ensures a == b
  {
    assert |a| == |b| && a == (a + [0])[..|a|] && b == (b + [0])[..|b|];
  }
}
