/** Name parsing of protocol_tools.py, and what section 4.1.4 of RFC 1035 says a name means. */
module Names {
  import opened Wire

  const DOT: Byte := 46
  const LOCAL: Octets := [108, 111, 99, 97, 108]

  /** Why the parser stopped. The code does not report it; the contract of the parser needs it. */
  datatype Stop = Terminator | DataEnd | HalfPointer | Revisit | OutOfRange

  datatype Walk = Walk(labels: seq<Octets>, stop: Stop)

  /** `b & 192 == 192`. */
  predicate IsPointer(b: Byte) { b >= 192 }

  /** `(hi << 8 | lo) & 16383` for a byte `hi` that starts a pointer. */
  function PointerValue(hi: Byte, lo: Byte): (p: nat)
    requires IsPointer(hi)
    ensures Fits14Bits(p)
  {
    var h: int := hi;
    256 * (h - 192) + lo
  }

  lemma PointerValueMasks(hi: Byte, lo: Byte)
    requires IsPointer(hi)
    ensures var h: int := hi; PointerValue(hi, lo) == (256 * h + lo) % 16384
  {
  }

  predicate Fits14Bits(p: nat) { p < 16384 }

  ghost function AllPointers(): set<nat> { set p: nat | p < 16384 && Fits14Bits(p) }

  /** The labels the parser collects from `data`, following pointers into `ref`. */
  ghost function Chase(data: Octets, ref: Octets, visited: set<nat>): (w: Walk)
    decreases AllPointers() - visited, |data|
  {
    if data == [] then Walk([], DataEnd)
    else if data[0] == 0 then Walk([], Terminator)
    else if IsPointer(data[0]) then
      if |data| < 2 then Walk([], HalfPointer)
      else
        var p := PointerValue(data[0], data[1]);
        if p in visited then Walk([], Revisit)
        else if p < 12 || p - 12 >= |ref| then Walk([], OutOfRange)
        else
          assert p in AllPointers();
          Chase(ref[p - 12..], ref, visited + {p})
    else
      var w := Chase(Drop(data, 1 + data[0]), ref, visited);
      Walk([Take(data[1..], data[0])] + w.labels, w.stop)
  }

  /** How many bytes of `data` the name occupies. It never looks at what a pointer points to. */
  function NameLength(data: Octets, refLen: nat): nat
    decreases |data|
  {
    if data == [] then 0 else Framing(data, refLen)
  }

  function Framing(data: Octets, refLen: nat): nat
    decreases |data|
  {
    if data == [] || data[0] == 0 then 1
    else if IsPointer(data[0]) then
      if |data| >= 2 && 12 <= PointerValue(data[0], data[1]) < 12 + refLen then 2 else 1
    else 1 + data[0] + Framing(Drop(data, 1 + data[0]), refLen)
  }

  /** The length of a name depends only on its own bytes and the one behind it, never on a pointer's target. */
  lemma {:induction false} FramingLocal(a: Octets, b: Octets, refLen: nat)
    requires var n := Framing(a, refLen); n + 1 <= |a| && n + 1 <= |b| && a[..n + 1] == b[..n + 1]
    ensures Framing(b, refLen) == Framing(a, refLen)
    decreases |a|
  {
    hide Framing, Drop;
    var n := Framing(a, refLen);
    FramingPositive(a, refLen);
    assert a[0] == a[..n + 1][0] == b[..n + 1][0] == b[0];
    assert a[1] == a[..n + 1][1] == b[..n + 1][1] == b[1];
    if a[0] == 0 || IsPointer(a[0]) {
      FramingEnd(a, b, refLen);
    } else {
      var k := 1 + a[0];
      FramingLabel(a, refLen);
      FramingLabel(b, refLen);
      FramingPositive(Drop(a, k), refLen);
      assert a[k..][..n - k + 1] == a[..n + 1][k..] == b[..n + 1][k..] == b[k..][..n - k + 1];
      DropIs(a, k);
      DropIs(b, k);
      FramingLocal(a[k..], b[k..], refLen);
    }
  }

  lemma DropIs(s: Octets, k: nat)
    requires k <= |s|
    ensures Drop(s, k) == s[k..]
  {
  }

  lemma FramingLabel(a: Octets, refLen: nat)
    requires a != [] && a[0] != 0 && !IsPointer(a[0])
    ensures Framing(a, refLen) == 1 + a[0] + Framing(Drop(a, 1 + a[0]), refLen)
  {
  }

  lemma FramingEnd(a: Octets, b: Octets, refLen: nat)
    requires |a| >= 2 && |b| >= 2 && a[0] == b[0] && a[1] == b[1] && (a[0] == 0 || IsPointer(a[0]))
    ensures Framing(b, refLen) == Framing(a, refLen)
  {
  }

  lemma {:induction false} FramingPositive(a: Octets, refLen: nat)
    ensures Framing(a, refLen) >= 1
  {
  }

  /** `'.'.join(labels)`. */
  function Join(labels: seq<Octets>): Octets {
    if labels == [] then []
    else if |labels| == 1 then labels[0]
    else labels[0] + [DOT] + Join(labels[1..])
  }

  predicate IsLocal(labels: seq<Octets>) {
    |labels| == 1 || (|labels| > 0 && labels[|labels| - 1] == LOCAL)
  }

  /** A name of labels without dots counts as local exactly when its text has no dot, or ends in `.local`. */
  lemma LocalByText(labels: seq<Octets>)
    requires labels != [] && forall l :: l in labels ==> 46 !in l
    ensures var text := Join(labels);
      IsLocal(labels) <==> 46 !in text || (|text| >= 6 && text[|text| - 6..] == [46, 108, 111, 99, 97, 108])
  {
    if |labels| > 1 {
      var last := labels[|labels| - 1];
      var front := JoinLast(labels);
      var text := Join(labels);
      assert text[|front|] == 46;
      assert last in labels;
      LastLabel(front, last);
    } else {
      var text := Join(labels);
      assert labels[0] in labels && 46 !in text;
    }
  }

  lemma LastLabel(front: Octets, last: Octets)
    requires 46 !in last
    ensures var text := front + [46] + last;
      |text| >= 6 && text[|text| - 6..] == [46, 108, 111, 99, 97, 108] <==> last == LOCAL
  {
    var text := front + [46] + last;
    var n := |text|;
    if |last| >= 6 {
      assert text[n - 6..][0] == last[|last| - 6] && last[|last| - 6] in last;
    } else if |last| == 5 {
      assert text[n - 6..] == [46] + last && ([46] + last)[1..] == last;
      assert ([46] + LOCAL) == [46, 108, 111, 99, 97, 108];
    } else if n >= 6 {
      assert text[n - 6..][5 - |last|] == 46;
    }
  }

  lemma {:induction false} JoinLast(labels: seq<Octets>) returns (front: Octets)
    requires |labels| > 1
    ensures Join(labels) == front + [46] + labels[|labels| - 1]
  {
    if |labels| == 2 {
      front := labels[0];
      assert Join(labels[1..]) == labels[1];
    } else {
      var rest := JoinLast(labels[1..]);
      front := labels[0] + [46] + rest;
    }
  }

  /** The first `p` bytes that a name claims are whole labels, the last one perhaps cut off by the end of the data. */
  predicate LabelsFill(b: Octets, p: nat)
    decreases p
  {
    p == 0 || (b != [] && 0 < b[0] < 192 && 1 + b[0] <= p && LabelsFill(Drop(b, 1 + b[0]), p - 1 - b[0]))
  }

  /** The labels of a name end here: with the data, a zero byte or a pointer. */
  predicate EndsName(rest: Octets) { rest == [] || rest[0] == 0 || rest[0] >= 192 }

  /** What the end of a name takes: two bytes for a pointer that is in range, and one otherwise. */
  function EndSize(rest: Octets, refLen: nat): nat {
    if |rest| >= 2 && rest[0] >= 192 && 12 <= 256 * (rest[0] as int - 192) + rest[1] as int < 12 + refLen then 2 else 1
  }

  /** A name takes its labels and the end of them. */
  lemma {:induction false} FramingIs(b: Octets, refLen: nat) returns (p: nat)
    ensures LabelsFill(b, p) && EndsName(Drop(b, p)) && Framing(b, refLen) == p + EndSize(Drop(b, p), refLen)
    decreases |b|
  {
    hide *;
    if EndsName(b) {
      p := 0;
      EndFramed(b, refLen);
    } else {
      var n: nat := NotEnded(b);
      FramingLabel(b, refLen);
      ShorterRest(b, n);
      var q := FramingIs(Drop(b, 1 + n), refLen);
      DropDrop(b, 1 + n, q);
      p := 1 + n + q;
      OneMoreLabel(b, n, q);
    }
  }

  lemma EndFramed(b: Octets, refLen: nat)
    requires EndsName(b)
    ensures LabelsFill(b, 0) && EndsName(Drop(b, 0)) && Framing(b, refLen) == EndSize(Drop(b, 0), refLen)
  {
    DropNothing(b);
  }

  lemma NotEnded(b: Octets) returns (n: nat)
    requires !EndsName(b)
    ensures b != [] && b[0] != 0 && !IsPointer(b[0]) && 0 < b[0] < 192 && n == b[0] as nat
  {
    n := b[0];
  }

  lemma ShorterRest(b: Octets, n: nat)
    requires b != []
    ensures |Drop(b, 1 + n)| < |b|
  {
  }

  lemma OneMoreLabel(b: Octets, n: nat, q: nat)
    requires b != [] && 0 < b[0] < 192 && n == b[0] as nat && LabelsFill(Drop(b, 1 + n), q)
    ensures LabelsFill(b, 1 + n + q)
  {
    hide Drop;
  }

  lemma NameLengthIs(data: Octets, refLen: nat)
    ensures NameLength(data, refLen) == if data == [] then 0 else Framing(data, refLen)
  {
  }

  lemma LabelStep(data: Octets, ref: Octets, visited: set<nat>, labels: seq<Octets>)
    requires data != [] && data[0] != 0 && !IsPointer(data[0])
    ensures var next, head := Drop(data, 1 + data[0]), Take(data[1..], data[0]);
      && labels + Chase(data, ref, visited).labels == labels + [head] + Chase(next, ref, visited).labels
      && Chase(data, ref, visited).stop == Chase(next, ref, visited).stop
      && Framing(data, |ref|) == 1 + data[0] + Framing(next, |ref|)
      && |next| < |data|
  {
    var next, head := Drop(data, 1 + data[0]), Take(data[1..], data[0]);
    var rest := Chase(next, ref, visited).labels;
    assert labels + ([head] + rest) == labels + [head] + rest;
  }

  lemma PointerStep(data: Octets, ref: Octets, visited: set<nat>)
    requires |data| >= 2 && IsPointer(data[0])
    ensures var p := PointerValue(data[0], data[1]);
      && (p in visited || !(12 <= p < 12 + |ref|) ==> Chase(data, ref, visited).labels == [])
      && (p !in visited && 12 <= p < 12 + |ref| ==>
            && Chase(data, ref, visited) == Chase(ref[p - 12..], ref, visited + {p})
            && AllPointers() - (visited + {p}) < AllPointers() - visited)
      && Framing(data, |ref|) == if 12 <= p < 12 + |ref| then 2 else 1
  {
    var p := PointerValue(data[0], data[1]);
    if p !in visited { assert p in AllPointers() - visited; }
  }

  lemma RestStep(data: Octets, ref: Octets, visited: set<nat>)
    requires data == [] || data[0] == 0 || (IsPointer(data[0]) && |data| < 2)
    ensures Chase(data, ref, visited).labels == [] && Framing(data, |ref|) == 1
  {
  }

  /**
   * The parser. It terminates on every input: each round either consumes an
   * unvisited pointer value or shortens the remaining data.
   */
  method ParseQueryName(input: Octets, ref: Octets)
    returns (offset: nat, localDomain: bool, qname: Octets)
    ensures offset == NameLength(input, |ref|)
    ensures input == [] ==> localDomain && qname == []
    ensures input != [] ==>
      var labels := Chase(input, ref, {}).labels;
      localDomain == IsLocal(labels) && qname == Join(labels)
  {
    hide *;
    NameLengthIs(input, |ref|);
    if input == [] { return 0, true, []; }
    var data, labels: seq<Octets>, visited: set<nat>, containsPointer := input, [], {}, false;
    offset := 0;
    ghost var walk, framing := Chase(input, ref, {}), Framing(input, |ref|);
    while data != [] && data[0] != 0
      invariant labels + Chase(data, ref, visited).labels == walk.labels
      invariant !containsPointer ==> visited == {} && offset + Framing(data, |ref|) == framing
      invariant containsPointer ==> offset + 2 == framing
      decreases AllPointers() - visited, |data|
    {
      var sectionLen: nat := data[0];
      if IsPointer(data[0]) {
        if |data| < 2 { break; }
        var p := PointerValue(data[0], data[1]);
        PointerStep(data, ref, visited);
        if p in visited { break; }
        if p < 12 || p - 12 >= |ref| { break; }
        visited := visited + {p};
        data := ref[p - 12..];
        containsPointer := true;
      } else {
        LabelStep(data, ref, visited, labels);
        offset := offset + if containsPointer then 0 else sectionLen + 1;
        labels := labels + [Take(data[1..], sectionLen)];
        data := Drop(data, 1 + sectionLen);
      }
    }
    if data == [] || data[0] == 0 || |data| < 2 { RestStep(data, ref, visited); }
    offset := offset + if containsPointer then 2 else 1;
    localDomain := IsLocal(labels);
    qname := Join(labels);
    assert labels + [] == labels;
  }

  // ---------------------------------------------------------------------------
  // Section 4.1.4 of RFC 1035, over whole messages: pointers are offsets from
  // the first byte of the message, labels are 1 to 63 bytes, and a name ends
  // with a zero byte.

  /** The labels of the name at offset `at`, when its expansion takes fewer than `fuel` steps. */
  ghost function Expand(m: Octets, at: nat, fuel: nat): (r: Option<seq<Octets>>)
    decreases fuel
  {
    if fuel == 0 || at >= |m| then None
    else if m[at] == 0 then Some([])
    else if IsPointer(m[at]) then
      if at + 2 > |m| then None
      else
        var target := PointerValue(m[at], m[at + 1]);
        if target < 12 then None else Expand(m, target, fuel - 1)
    else if m[at] > 63 || at + 1 + m[at] > |m| then None
    else
      match Expand(m, at + 1 + m[at], fuel - 1)
      case None => None
      case Some(rest) => Some([m[at + 1..at + 1 + m[at]]] + rest)
  }

  ghost predicate ExpandsTo(m: Octets, at: nat, labels: seq<Octets>) {
    exists fuel :: Expand(m, at, fuel) == Some(labels)
  }

  lemma {:induction false} ExpandMore(m: Octets, at: nat, fuel: nat, more: nat)
    requires Expand(m, at, fuel).Some? && fuel <= more
    ensures Expand(m, at, more) == Expand(m, at, fuel)
    decreases fuel
  {
    if m[at] == 0 {
    } else if IsPointer(m[at]) {
      ExpandMore(m, PointerValue(m[at], m[at + 1]), fuel - 1, more - 1);
    } else {
      ExpandMore(m, at + 1 + m[at], fuel - 1, more - 1);
    }
  }

  lemma OneExpansion(m: Octets, at: nat, a: seq<Octets>, b: seq<Octets>)
    requires ExpandsTo(m, at, a) && ExpandsTo(m, at, b)
    ensures a == b
  {
    var f: nat :| Expand(m, at, f) == Some(a);
    var g: nat :| Expand(m, at, g) == Some(b);
    ExpandMore(m, at, f, f + g);
    ExpandMore(m, at, g, f + g);
  }

  /** The walk of the parser, by offsets into the whole message. */
  ghost function Route(m: Octets, at: nat, visited: set<nat>): (w: Walk)
    decreases AllPointers() - visited, |m| - at
  {
    if at >= |m| then Walk([], DataEnd)
    else if m[at] == 0 then Walk([], Terminator)
    else if IsPointer(m[at]) then
      if at + 2 > |m| then Walk([], HalfPointer)
      else
        var p := PointerValue(m[at], m[at + 1]);
        if p in visited then Walk([], Revisit)
        else if !(12 <= p < |m|) then Walk([], OutOfRange)
        else
          assert p in AllPointers();
          Route(m, p, visited + {p})
    else
      var w := Route(m, at + 1 + m[at], visited);
      Walk([Take(m[at + 1..], m[at])] + w.labels, w.stop)
  }

  lemma ChaseCases(data: Octets, ref: Octets, visited: set<nat>)
    ensures data == [] ==> Chase(data, ref, visited) == Walk([], DataEnd)
    ensures data != [] && data[0] == 0 ==> Chase(data, ref, visited) == Walk([], Terminator)
    ensures data != [] && data[0] != 0 && IsPointer(data[0]) ==>
      if |data| < 2 then Chase(data, ref, visited) == Walk([], HalfPointer)
      else
        var p := PointerValue(data[0], data[1]);
        Chase(data, ref, visited) ==
          if p in visited then Walk([], Revisit)
          else if p < 12 || p - 12 >= |ref| then Walk([], OutOfRange)
          else Chase(ref[p - 12..], ref, visited + {p})
    ensures data != [] && data[0] != 0 && !IsPointer(data[0]) ==>
      var w := Chase(Drop(data, 1 + data[0]), ref, visited);
      Chase(data, ref, visited) == Walk([Take(data[1..], data[0])] + w.labels, w.stop)
  {
    hide Drop, Take, PointerValue;
  }

  lemma RouteCases(m: Octets, at: nat, visited: set<nat>)
    ensures at >= |m| ==> Route(m, at, visited) == Walk([], DataEnd)
    ensures at < |m| && m[at] == 0 ==> Route(m, at, visited) == Walk([], Terminator)
    ensures at < |m| && m[at] != 0 && IsPointer(m[at]) ==>
      if at + 2 > |m| then Route(m, at, visited) == Walk([], HalfPointer)
      else
        var p := PointerValue(m[at], m[at + 1]);
        Route(m, at, visited) ==
          if p in visited then Walk([], Revisit)
          else if !(12 <= p < |m|) then Walk([], OutOfRange)
          else Route(m, p, visited + {p})
    ensures at < |m| && m[at] != 0 && !IsPointer(m[at]) ==>
      var w := Route(m, at + 1 + m[at], visited);
      Route(m, at, visited) == Walk([Take(m[at + 1..], m[at])] + w.labels, w.stop)
  {
    hide Take, PointerValue;
  }

  /** What stands at offset `at`, seen from there. */
  lemma SeenFrom(m: Octets, at: nat)
    ensures at >= |m| ==> Drop(m, at) == []
    ensures at < |m| ==> |Drop(m, at)| == |m| - at && Drop(m, at)[0] == m[at] && Drop(m, at)[1..] == m[at + 1..]
    ensures at + 1 < |m| ==> Drop(m, at)[1] == m[at + 1]
  {
  }

  lemma PointersLeft(visited: set<nat>, p: nat)
    requires p !in visited && Fits14Bits(p)
    ensures AllPointers() - (visited + {p}) < AllPointers() - visited
  {
    assert p in AllPointers() - visited;
  }

  lemma {:induction false} ChaseIsRoute(m: Octets, at: nat, visited: set<nat>)
    requires 12 <= |m|
    ensures Chase(Drop(m, at), Drop(m, 12), visited) == Route(m, at, visited)
    decreases AllPointers() - visited, |m| - at
  {
    hide *;
    ChaseCases(Drop(m, at), Drop(m, 12), visited);
    RouteCases(m, at, visited);
    SeenFrom(m, at);
    SeenFrom(m, 12);
    DropIs(m, 12);
    if at >= |m| || m[at] == 0 {
    } else if IsPointer(m[at]) {
      if at + 2 <= |m| {
        var p := PointerValue(m[at], m[at + 1]);
        if p !in visited && 12 <= p < |m| {
          assert m[12..][p - 12..] == m[p..];
          DropIs(m, p);
          PointersLeft(visited, p);
          ChaseIsRoute(m, p, visited + {p});
        }
      }
    } else {
      var n: nat := m[at];
      ChaseIsRoute(m, at + 1 + n, visited);
      DropDrop(m, at, 1 + n);
    }
  }

  /** With the least fuel that works, every pointer visited earlier needs more fuel than is left. */
  lemma {:induction false} RouteExpansion(m: Octets, at: nat, fuel: nat, visited: set<nat>)
    requires 0 < fuel && Expand(m, at, fuel).Some?
    requires Expand(m, at, fuel - 1).None?
    requires forall v :: v in visited ==> Expand(m, v, fuel - 1).None?
    ensures Route(m, at, visited) == Walk(Expand(m, at, fuel).value, Terminator)
    decreases fuel
  {
    hide *;
    ExpandCases(m, at, fuel);
    ExpandCases(m, at, fuel - 1);
    RouteCases(m, at, visited);
    if m[at] == 0 {
    } else if IsPointer(m[at]) {
      var p := PointerValue(m[at], m[at + 1]);
      ExpandCases(m, p, fuel - 1);
      StillNone(m, visited, fuel - 1);
      RouteExpansion(m, p, fuel - 1, visited + {p});
    } else {
      ExpandCases(m, at + 1 + m[at], fuel - 1);
      StillNone(m, visited, fuel - 1);
      RouteExpansion(m, at + 1 + m[at], fuel - 1, visited);
      TakeSlice(m, at + 1, m[at]);
    }
  }

  lemma ExpandCases(m: Octets, at: nat, fuel: nat)
    ensures fuel == 0 || at >= |m| ==> Expand(m, at, fuel) == None
    ensures fuel > 0 && at < |m| && m[at] == 0 ==> Expand(m, at, fuel) == Some([])
    ensures fuel > 0 && at < |m| && m[at] != 0 && IsPointer(m[at]) ==>
      Expand(m, at, fuel) == if at + 2 > |m| || PointerValue(m[at], m[at + 1]) < 12 then None
                             else Expand(m, PointerValue(m[at], m[at + 1]), fuel - 1)
    ensures fuel > 0 && at < |m| && m[at] != 0 && !IsPointer(m[at]) ==>
      Expand(m, at, fuel) == if m[at] > 63 || at + 1 + m[at] > |m| then None
                             else match Expand(m, at + 1 + m[at], fuel - 1)
                                  case None => None
                                  case Some(rest) => Some([m[at + 1..at + 1 + m[at]]] + rest)
  {
    hide PointerValue;
  }

  lemma TakeSlice(m: Octets, at: nat, n: nat)
    requires at + n <= |m|
    ensures Take(m[at..], n) == m[at..at + n]
  {
  }

  /** Less fuel expands no more. */
  lemma StillNone(m: Octets, visited: set<nat>, fuel: nat)
    requires fuel > 0 ==> forall v :: v in visited ==> Expand(m, v, fuel).None?
    ensures fuel > 0 ==> forall v :: v in visited ==> Expand(m, v, fuel - 1).None?
  {
    hide *;
    if fuel > 0 {
      forall v | v in visited ensures Expand(m, v, fuel - 1).None? {
        if Expand(m, v, fuel - 1).Some? { ExpandMore(m, v, fuel - 1, fuel); }
      }
    }
  }

  lemma {:induction false} LeastFuel(m: Octets, at: nat, fuel: nat) returns (least: nat)
    requires Expand(m, at, fuel).Some?
    ensures 0 < least <= fuel
    ensures Expand(m, at, least) == Expand(m, at, fuel) && Expand(m, at, least - 1).None?
    decreases fuel
  {
    if Expand(m, at, fuel - 1).None? {
      least := fuel;
    } else {
      ExpandMore(m, at, fuel - 1, fuel);
      least := LeastFuel(m, at, fuel - 1);
    }
  }

  lemma {:induction false} RouteIsExpansion(m: Octets, at: nat, visited: set<nat>)
    returns (fuel: nat)
    requires Route(m, at, visited).stop == Terminator
    requires forall l :: l in Route(m, at, visited).labels ==> |l| <= 63
    ensures Expand(m, at, fuel) == Some(Route(m, at, visited).labels)
    decreases AllPointers() - visited, |m| - at
  {
    if m[at] == 0 {
      fuel := 1;
    } else if IsPointer(m[at]) {
      var p := PointerValue(m[at], m[at + 1]);
      assert p in AllPointers();
      fuel := RouteIsExpansion(m, p, visited + {p});
      fuel := fuel + 1;
    } else {
      var next := at + 1 + m[at];
      var w, v := Route(m, at, visited), Route(m, next, visited);
      forall l | l in v.labels ensures |l| <= 63 { assert l in w.labels; }
      fuel := RouteIsExpansion(m, next, visited);
      assert next < |m| && w.labels[0] in w.labels;
      assert Take(m[at + 1..], m[at]) == m[at + 1..next];
      fuel := fuel + 1;
    }
  }

  /**
   * Given the payload as reference, the parser ends at a terminator with
   * labels of at most 63 bytes exactly when the expansion of RFC 1035 is
   * finite and in range, and then collects exactly that expansion.
   */
  lemma ParserExpandsNames(m: Octets, at: nat, labels: seq<Octets>)
    requires 12 <= |m|
    ensures var w := Chase(Drop(m, at), Drop(m, 12), {});
            ExpandsTo(m, at, labels) <==>
              w.stop == Terminator && w.labels == labels && forall l :: l in labels ==> |l| <= 63
  {
    ChaseIsRoute(m, at, {});
    var w := Route(m, at, {});
    if ExpandsTo(m, at, labels) {
      var fuel :| Expand(m, at, fuel) == Some(labels);
      ExpandedLabelsAreShort(m, at, fuel);
      var least := LeastFuel(m, at, fuel);
      RouteExpansion(m, at, least, {});
    }
    if w.stop == Terminator && w.labels == labels && forall l :: l in labels ==> |l| <= 63 {
      var fuel := RouteIsExpansion(m, at, {});
    }
  }

  lemma {:induction false} ExpandedLabelsAreShort(m: Octets, at: nat, fuel: nat)
    requires Expand(m, at, fuel).Some?
    ensures forall l :: l in Expand(m, at, fuel).value ==> 1 <= |l| <= 63
    decreases fuel
  {
    if m[at] == 0 {
    } else if IsPointer(m[at]) {
      ExpandedLabelsAreShort(m, PointerValue(m[at], m[at + 1]), fuel - 1);
    } else {
      ExpandedLabelsAreShort(m, at + 1 + m[at], fuel - 1);
    }
  }

  // ---------------------------------------------------------------------------
  // The revisit guard and infinite expansions.

  /** One move of a name reader: over a label, or to the target of a pointer. */
  ghost function Move(m: Octets, at: nat): Option<nat> {
    if at >= |m| || m[at] == 0 then None
    else if IsPointer(m[at]) then
      if at + 2 > |m| then None
      else
        var target := PointerValue(m[at], m[at + 1]);
        if 12 <= target < |m| then Some(target) else None
    else Some(at + 1 + m[at])
  }

  ghost function After(m: Octets, at: nat, moves: nat): Option<nat>
    decreases moves
  {
    if moves == 0 then Some(at)
    else match Move(m, at)
         case None => None
         case Some(next) => After(m, next, moves - 1)
  }

  /** The reader never comes to rest. */
  ghost predicate Endless(m: Octets, at: nat) {
    forall n: nat :: After(m, at, n).Some?
  }

  lemma {:induction false} AfterAdds(m: Octets, at: nat, i: nat, j: nat)
    ensures After(m, at, i + j) == match After(m, at, i) case None => None case Some(p) => After(m, p, j)
    decreases i
  {
    if i > 0 {
      match Move(m, at) {
        case None =>
        case Some(next) => AfterAdds(m, next, i - 1, j);
      }
    }
  }

  lemma {:induction false} CycleIsEndless(m: Octets, at: nat, k: nat, n: nat)
    requires 0 < k && After(m, at, k) == Some(at)
    ensures After(m, at, n).Some?
    decreases n
  {
    if n < k {
      AfterAdds(m, at, n, k - n);
    } else {
      AfterAdds(m, at, k, n - k);
      CycleIsEndless(m, at, k, n - k);
    }
  }

  lemma EndlessBefore(m: Octets, at: nat)
    requires Move(m, at).Some? && Endless(m, Move(m, at).value)
    ensures Endless(m, at)
  {
    forall n: nat ensures After(m, at, n).Some? {
      if n > 0 {
        assert After(m, Move(m, at).value, n - 1).Some?;
      }
    }
  }

  /** A walk cut off by the guard either runs forever or leads back to a pointer visited before it. */
  lemma {:induction false} RevisitRepeats(m: Octets, at: nat, visited: set<nat>)
    returns (k: nat, v: nat)
    requires Route(m, at, visited).stop == Revisit
    requires forall p :: p in visited ==> 12 <= p < |m|
    ensures Endless(m, at) || (v in visited && 0 < k && After(m, at, k) == Some(v))
    decreases AllPointers() - visited, |m| - at
  {
    k, v := 0, 0;
    if IsPointer(m[at]) {
      var p := PointerValue(m[at], m[at + 1]);
      if p in visited {
        k, v := 1, p;
        assert After(m, p, 0) == Some(p);
      } else {
        assert p in AllPointers();
        k, v := RevisitRepeats(m, p, visited + {p});
        if !Endless(m, p) && v == p {
          forall n: nat ensures After(m, p, n).Some? { CycleIsEndless(m, p, k, n); }
        }
        if Endless(m, p) { EndlessBefore(m, at); }
        k := k + 1;
      }
    } else {
      var next := at + 1 + m[at];
      k, v := RevisitRepeats(m, next, visited);
      if Endless(m, next) { EndlessBefore(m, at); }
      k := k + 1;
    }
  }

  lemma {:induction false} OtherStopsRest(m: Octets, at: nat, visited: set<nat>) returns (n: nat)
    requires Route(m, at, visited).stop != Revisit
    ensures After(m, at, n).None?
    decreases AllPointers() - visited, |m| - at
  {
    n := 1;
    if Move(m, at).Some? {
      if IsPointer(m[at]) {
        var p := PointerValue(m[at], m[at + 1]);
        assert p in AllPointers();
        n := OtherStopsRest(m, p, visited + {p});
      } else {
        n := OtherStopsRest(m, at + 1 + m[at], visited);
      }
      n := n + 1;
    }
  }

  /** The revisit guard fires exactly on the names whose expansion never ends. */
  lemma RevisitGuardIsExact(m: Octets, at: nat)
    requires 12 <= |m|
    ensures Chase(Drop(m, at), Drop(m, 12), {}).stop == Revisit <==> Endless(m, at)
  {
    ChaseIsRoute(m, at, {});
    if Route(m, at, {}).stop == Revisit {
      var k, v := RevisitRepeats(m, at, {});
    } else {
      var n := OtherStopsRest(m, at, {});
    }
  }

  // ---------------------------------------------------------------------------
  // Question names are parsed with the whole packet as reference.

  /**
   * Against the whole packet `m` a pointer lands 12 bytes too early: the
   * question name is read as if 12 more bytes stood in front of the message.
   */
  lemma QuestionPointersAreShifted(m: Octets, front: Octets, labels: seq<Octets>)
    requires 12 <= |m| && |front| == 12
    ensures var w := Chase(Drop(m, 12), m, {});
            ExpandsTo(front + m, 24, labels) <==>
              w.stop == Terminator && w.labels == labels && forall l :: l in labels ==> |l| <= 63
  {
    assert Drop(front + m, 12) == m && Drop(front + m, 24) == Drop(m, 12);
    ParserExpandsNames(front + m, 24, labels);
  }

  /** The name at `at` ends with a zero byte before any pointer. */
  predicate PointerFree(m: Octets, at: nat)
    decreases |m| - at
  {
    at < |m| && (m[at] == 0 || (m[at] <= 63 && PointerFree(m, at + 1 + m[at])))
  }

  /** So a question name without a pointer is read right. */
  lemma PointerFreeQuestion(m: Octets)
    requires 12 <= |m| && PointerFree(m, 12)
    ensures ExpandsTo(m, 12, Chase(Drop(m, 12), m, {}).labels)
  {
    var fuel := PointerFreeWalk(m, 12, m);
  }

  lemma {:induction false} PointerFreeWalk(m: Octets, at: nat, ref: Octets) returns (fuel: nat)
    requires PointerFree(m, at)
    ensures Expand(m, at, fuel) == Some(Chase(Drop(m, at), ref, {}).labels)
    decreases |m| - at
  {
    hide Chase, Framing, Drop, Take;
    fuel := 1;
    FirstByte(m, at);
    if m[at] == 0 {
      RestStep(Drop(m, at), ref, {});
    } else {
      var next := at + 1 + m[at];
      var before := PointerFreeWalk(m, next, ref);
      fuel := before + 1;
      ExpandLabel(m, at, fuel);
      hide *;
      LabelStep(Drop(m, at), ref, {}, []);
      DropDrop(m, at, 1 + m[at]);
      LabelBytes(m, at);
      var head := Take(Drop(m, at)[1..], m[at]);
      Prepended(Chase(Drop(m, at), ref, {}).labels, head, Chase(Drop(m, next), ref, {}).labels);
    }
  }

  lemma Prepended(walk: seq<Octets>, head: Octets, rest: seq<Octets>)
    requires [] + walk == [] + [head] + rest
    ensures walk == [head] + rest
  {
    assert [] + walk == walk && [] + [head] == [head];
  }

  lemma ExpandLabel(m: Octets, at: nat, fuel: nat)
    requires fuel > 0 && at < |m| && 0 < m[at] <= 63 && at + 1 + m[at] <= |m|
    requires Expand(m, at + 1 + m[at], fuel - 1).Some?
    ensures Expand(m, at, fuel) == Some([m[at + 1..at + 1 + m[at]]] + Expand(m, at + 1 + m[at], fuel - 1).value)
  {
  }

  lemma FirstByte(m: Octets, at: nat)
    requires at < |m|
    ensures Drop(m, at) != [] && Drop(m, at)[0] == m[at]
  {
  }

  lemma LabelBytes(m: Octets, at: nat)
    requires at < |m| && at + 1 + m[at] <= |m|
    ensures Take(Drop(m, at)[1..], m[at]) == m[at + 1..at + 1 + m[at]]
  {
  }

  const MISREAD: Octets := [0, 0, 0, 0, 0, 0, 0, 0, 0, 0, 0, 0, 192, 16, 0, 0, 1, 97, 0]

  /** A question name that starts with a pointer can be misread: here the name `a` is read as the root. */
  lemma PointerQuestionMisread()
    ensures ExpandsTo(MISREAD, 12, [[97]]) && Chase(Drop(MISREAD, 12), MISREAD, {}) == Walk([], Terminator)
  {
    MisreadExpansion();
    MisreadWalk();
  }

  lemma MisreadExpansion()
    ensures ExpandsTo(MISREAD, 12, [[97]])
  {
    var m := MISREAD;
    assert PointerValue(192, 16) == 16 && |m| == 19 && m[12] == 192 && m[13] == 16 && m[16] == 1 && m[18] == 0;
    assert Expand(m, 18, 1) == Some([]);
    assert m[17..18] == [97];
    assert [m[17..18]] + [] == [m[17..18]];
    assert Expand(m, 16, 2) == Some([m[17..18]] + []);
    assert Expand(m, 12, 3) == Some([[97]]);
  }

  lemma MisreadWalk()
    ensures Chase(Drop(MISREAD, 12), MISREAD, {}) == Walk([], Terminator)
  {
    var m := MISREAD;
    assert m[4..][0] == 0;
    assert Drop(m, 12)[0] == 192 && Drop(m, 12)[1] == 16;
    assert PointerValue(192, 16) == 16;
    assert Chase(m[4..], m, {} + {16}) == Walk([], Terminator);
  }
}
