/**
 * The in-flight request table of dns_tls_relay.py: handler threads reserve and
 * fill IDs, the responder pops them, and a cleaner purges old ones, in any
 * interleaving.
 */
module Requests {
  import opened Wire
  import opened Rewrite
  import opened Messages
  import opened Client

  const LOWEST_ID: nat := 70
  const HIGHEST_ID: nat := 65534
  const RELAY_TIMEOUT: real := 30.0

  type RequestId = nat

  /** A client datagram, or a refresh of a top domain, which has no client. */
  datatype Request = Request(dnsId: U16, rd: Bit, cd: Bit, question: Octets, topDomain: bool)

  /** A table entry: reserved with no query yet, or filled. */
  datatype Entry = Entry(addedAt: real, query: Option<RequestId>)

  /** How far the thread of a request has come. */
  datatype Phase = Arrived | Holding(id: nat) | Filled(id: nat) | Sent(id: nat) | Finished

  /** Where a reply came from: for the resolvers, the request whose query was answered. */
  datatype Source = NegativeCache | RecordCache | Upstream(answers: RequestId)

  datatype Sending = Sending(to: RequestId, bytes: Octets, source: Source)

  /** `outstanding` are the sent queries that may still be answered, by any number of resolvers. */
  datatype State = State(requests: map<RequestId, Request>, phases: map<RequestId, Phase>, table: map<nat, Entry>,
                         outstanding: set<(nat, RequestId)>, replies: seq<Sending>)

  datatype Op =
    | Arrive(r: RequestId, request: Request)
    | ReplyNegative(r: RequestId)
    | ReplyCached(r: RequestId, ttl: U32, records: seq<Record>)
    | GiveUp(r: RequestId)                       // dropped, out of IDs, or the query could not be built
    | Reserve(r: RequestId, id: nat, now: real)
    | Fill(r: RequestId, now: real)
    | SendUp(r: RequestId)
    | Respond(data: Octets, answers: RequestId, now: real)
    | Forget(id: nat, r: RequestId)              // no more answers will come
    | Purge(now: real)

  function PhaseOf(s: State, r: RequestId): Option<Phase> {
    if r in s.phases then Some(s.phases[r]) else None
  }

  predicate Enabled(s: State, op: Op) {
    match op
    case Arrive(r, _) => r !in s.requests && r !in s.phases
    case ReplyNegative(r) => r in s.requests && PhaseOf(s, r) == Some(Arrived) && !s.requests[r].topDomain
    case ReplyCached(r, ttl, records) =>
      r in s.requests && PhaseOf(s, r) == Some(Arrived) && !s.requests[r].topDomain && |records| < 0x1_0000
    case GiveUp(r) => r in s.phases && (s.phases[r].Arrived? || s.phases[r].Holding?)
    case Reserve(r, id, _) => PhaseOf(s, r) == Some(Arrived) && LOWEST_ID <= id <= HIGHEST_ID && id !in s.table
    case Fill(r, _) => r in s.phases && s.phases[r].Holding?
    case SendUp(r) => r in s.phases && s.phases[r].Filled?
    case Respond(data, _, _) => |data| >= 12
    case Forget(_, _) => true
    case Purge(_) => true
  }

  /** `now - added_at > RELAY_TIMEOUT`, for a nonzero `added_at`. */
  predicate Orphaned(e: Entry, now: real) { e.addedAt != 0.0 && now - e.addedAt > RELAY_TIMEOUT }

  function Purged(table: map<nat, Entry>, now: real): map<nat, Entry> {
    map id | id in table && !Orphaned(table[id], now) :: table[id]
  }

  /** The request whose query is filled in under an ID. */
  function QueryUnder(table: map<nat, Entry>, requests: map<RequestId, Request>, id: nat): (q: Option<RequestId>)
    ensures q.Some? ==> q.value in requests
  {
    if id in table && table[id].query.Some? && table[id].query.value in requests then table[id].query else None
  }

  /** The request a response pops, with the rewritten response, if there are both; without a query the code raises. */
  function Popped(table: map<nat, Entry>, requests: map<RequestId, Request>, data: Octets, now: real)
    : (p: Option<(RequestId, Reply)>)
    requires |data| >= 12
    ensures p.Some? ==> p.value.0 in requests
  {
    match QueryUnder(table, requests, Unpack16(data, 0))
    case None => None
    case Some(r) =>
      match Rewritten(data, requests[r].dnsId, now.Floor)
      case Err(_) => None
      case Ok(reply) => Some((r, reply))
  }

  /** What the responder sends to the client. */
  function Answer(s: State, data: Octets, answers: RequestId, now: real): seq<Sending>
    requires |data| >= 12
  {
    match Popped(s.table, s.requests, data, now)
    case None => []
    case Some(p) => if s.requests[p.0].topDomain then [] else [Sending(p.0, p.1.bytes, Upstream(answers))]
  }

  function Negative(q: Request): Octets { NegativeReply(q.dnsId, q.rd, q.cd, q.question) }

  function Replayed(q: Request, ttl: U32, records: seq<Record>): Octets
    requires |records| < 0x1_0000
  {
    CachedReply(q.dnsId, q.rd, q.cd, q.question, ttl, records).value
  }

  function Step(s: State, op: Op): State
    requires Enabled(s, op)
  {
    match op
    case Arrive(r, q) => s.(requests := s.requests[r := q], phases := s.phases[r := Arrived])
    case ReplyNegative(r) =>
      s.(phases := s.phases[r := Finished], replies := s.replies + [Sending(r, Negative(s.requests[r]), NegativeCache)])
    case ReplyCached(r, ttl, records) =>
      s.(phases := s.phases[r := Finished],
         replies := s.replies + [Sending(r, Replayed(s.requests[r], ttl, records), RecordCache)])
    case GiveUp(r) => s.(phases := s.phases[r := Finished])
    case Reserve(r, id, now) => s.(phases := s.phases[r := Holding(id)], table := s.table[id := Entry(now, None)])
    case Fill(r, now) =>
      var id := s.phases[r].id;
      s.(phases := s.phases[r := Filled(id)], table := s.table[id := Entry(now, Some(r))])
    case SendUp(r) =>
      var id := s.phases[r].id;
      s.(phases := s.phases[r := Sent(id)], outstanding := s.outstanding + {(id, r)})
    case Respond(data, answers, now) =>
      var id := Unpack16(data, 0);
      if id !in s.table then s
      else s.(table := s.table - {id}, replies := s.replies + Answer(s, data, answers, now))
    case Forget(id, r) => s.(outstanding := s.outstanding - {(id, r)})
    case Purge(now) => s.(table := Purged(s.table, now))
  }

  predicate Runs(s: State, ops: seq<Op>)
    decreases |ops|
  {
    ops == [] || (Enabled(s, ops[0]) && Runs(Step(s, ops[0]), ops[1..]))
  }

  function Run(s: State, ops: seq<Op>): State
    requires Runs(s, ops)
    decreases |ops|
  {
    if ops == [] then s else Run(Step(s, ops[0]), ops[1..])
  }

  const INIT := State(map[], map[], map[], {}, [])

  /** The table as the code keeps it; each method is the step of the same name on any state with this table. */
  class RequestMap {
    var table: map<nat, Entry>

    constructor ()
      ensures table == map[]
    {
      table := map[];
    }

    /** `draws` are the 100 random IDs; the first free one is reserved. */
    method GetUniqueId(draws: seq<nat>, now: real) returns (r: Option<nat>)
      requires |draws| == 100 && forall i :: 0 <= i < 100 ==> LOWEST_ID <= draws[i] <= HIGHEST_ID
      modifies this
      ensures r.None? ==> table == old(table) && forall i :: 0 <= i < 100 ==> draws[i] in old(table)
      ensures r.Some? ==>
        exists i :: 0 <= i < 100 && draws[i] == r.value && forall j :: 0 <= j < i ==> draws[j] in old(table)
      ensures r.Some? ==> forall s: State, q :: s.table == old(table) && PhaseOf(s, q) == Some(Arrived) ==>
        Enabled(s, Reserve(q, r.value, now)) && Step(s, Reserve(q, r.value, now)).table == table
    {
      for i := 0 to 100
        invariant table == old(table) && forall j :: 0 <= j < i ==> draws[j] in table
      {
        if draws[i] !in table {
          table := table[draws[i] := Entry(now, None)];
          return Some(draws[i]);
        }
      }
      return None;
    }

    method FillEntry(id: nat, query: RequestId, now: real)
      modifies this
      ensures forall s: State :: s.table == old(table) && PhaseOf(s, query) == Some(Holding(id)) ==>
        Step(s, Fill(query, now)).table == table
    {
      table := table[id := Entry(now, Some(query))];
    }

    method CleanOrphanedIds(now: real)
      modifies this
      ensures forall s: State :: s.table == old(table) ==> Step(s, Purge(now)) == s.(table := table)
    {
      var orphaned := set id | id in table && Orphaned(table[id], now);
      var todo := orphaned;
      while todo != {}
        invariant todo <= orphaned && table == old(table) - (orphaned - todo)
      {
        var id :| id in todo;
        table := table - {id};
        todo := todo - {id};
      }
      assert table == Purged(old(table), now);
    }

    /**
     * One response: whose entry it pops, what is sent, whether the name is
     * entered into the negative cache, and what is cached.
     */
    method Responder(data: Octets, answers: RequestId, now: real, requests: map<RequestId, Request>)
      returns (sent: seq<Sending>, negative: bool, cached: Option<CacheEntry>)
      requires |data| >= 12
      modifies this
      ensures forall s: State :: s.table == old(table) && s.requests == requests ==>
        Step(s, Respond(data, answers, now)) == s.(table := table, replies := s.replies + sent)
      ensures table == old(table) - {Unpack16(data, 0)}
      ensures var query := QueryUnder(old(table), requests, Unpack16(data, 0));
        if query.None? || Rewritten(data, requests[query.value].dnsId, now.Floor).Err?
        then sent == [] && !negative && cached == None
        else
          var top := requests[query.value].topDomain;
          var reply := Rewritten(data, requests[query.value].dnsId, now.Floor).value;
          && sent == (if top then [] else [Sending(query.value, reply.bytes, Upstream(answers))])
          && negative == (reply.rcode == 3 && !top) && cached == reply.cache
    {
      hide Rewritten, Unpack16;
      sent, negative, cached := [], false, None;
      var id := Unpack16(data, 0);
      assert forall s: State :: s.replies + [] == s.replies;
      if id !in table { return; }
      var entry := table[id];
      table := table - {id};
      if entry.query.None? || entry.query.value !in requests { return; }
      var request := requests[entry.query.value];
      var r := TtlRewrite(data, request.dnsId, now.Floor);
      if r.Ok? {
        negative := r.value.rcode == 3 && !request.topDomain;
        if !request.topDomain {
          sent := [Sending(entry.query.value, r.value.bytes, Upstream(answers))];
        }
        cached := r.value.cache;
      }
    }
  }

  // ---------------------------------------------------------------------------
  // What each step sends, and how long entries stay.

  /**
   * A response pops its entry. If that is filled by a client and the response
   * can be rewritten for it, the client gets the rewritten bytes; in every
   * other case nothing is sent.
   */
  lemma RespondSends(s: State, data: Octets, answers: RequestId, now: real)
    requires |data| >= 12
    ensures var t, query := Step(s, Respond(data, answers, now)), QueryUnder(s.table, s.requests, Unpack16(data, 0));
      && t == s.(table := s.table - {Unpack16(data, 0)}, replies := t.replies)
      && t.replies ==
           if query.Some? && !s.requests[query.value].topDomain
              && Rewritten(data, s.requests[query.value].dnsId, now.Floor).Ok?
           then s.replies + [Sending(query.value, Rewritten(data, s.requests[query.value].dnsId, now.Floor).value.bytes,
                                     Upstream(answers))]
           else s.replies
  {
    hide Rewritten, Unpack16;
    assert s.replies + [] == s.replies;
    var id: nat := Unpack16(data, 0);
    assert id !in s.table ==> s.table - {id} == s.table;
  }

  /** So a client gets a well-formed message with its own ID and clamped TTLs. */
  lemma MessageForwarded(s: State, m: Message, answers: RequestId, now: real)
    requires WellFormed(m)
    ensures |Encode(m)| >= 12
    ensures var t, query := Step(s, Respond(Encode(m), answers, now)), QueryUnder(s.table, s.requests, m.id);
      t.replies ==
        if query.Some? && !s.requests[query.value].topDomain
        then s.replies + [Sending(query.value, Encode(Clamped(m, s.requests[query.value].dnsId, Reached(m))),
                                  Upstream(answers))]
        else s.replies
  {
    hide *;
    var q := QueryUnder(s.table, s.requests, m.id);
    EncodedId(m);
    RespondSends(s, Encode(m), answers, now);
    if q.Some? { RewriteClampsMessage(m, s.requests[q.value].dnsId, now.Floor); }
  }

  lemma EncodedId(m: Message)
    ensures |Encode(m)| >= 12 && Unpack16(Encode(m), 0) == m.id
  {
    HeaderFields(m, EncodeQuestion(m) + EncodeRrs(All(m)) + m.additional);
    hide EncodeHeader, EncodeQuestion, EncodeRrs;
    assert Encode(m) == EncodeHeader(m) + (EncodeQuestion(m) + EncodeRrs(All(m)) + m.additional);
    assert Encode(m)[..2][0] == Pack16(m.id)[0] && Encode(m)[..2][1] == Pack16(m.id)[1];
  }

  /** The replies from the caches carry the client's ID, its recursion and checking bits and its question. */
  lemma LocalReplySends(s: State, op: Op)
    requires Enabled(s, op) && (op.ReplyNegative? || op.ReplyCached?)
    ensures var t := Step(s, op);
      && |t.replies| == |s.replies| + 1 && t.replies[..|s.replies|] == s.replies
      && var q, last := s.requests[op.r], t.replies[|s.replies|];
      && last.to == op.r && |last.bytes| >= 12 && Unpack16(last.bytes, 0) == q.dnsId
      && ReadFlags(Unpack16(last.bytes, 2)) ==
           Flags(1, 0, 0, 0, q.rd, 1, 0, 0, q.cd, if op.ReplyNegative? then 3 else 0)
      && SectionCounts(last.bytes) == [if op.ReplyNegative? then 0 else |op.records|, 0]
      && last.bytes[12..] == q.question + if op.ReplyNegative? then [] else RecordBytes(WithTtl(op.records, op.ttl))
  {
    var q := s.requests[op.r];
    hide NegativeReply, CachedReply, ReadFlags, RecordBytes, SectionCounts, Unpack16;
    if op.ReplyNegative? {
      NegativeReplyReads(q.dnsId, q.rd, q.cd, q.question);
      assert q.question + [] == q.question;
    } else {
      CachedReplyReads(q.dnsId, q.rd, q.cd, q.question, op.ttl, op.records);
    }
  }

  /** An entry stays at most 30 seconds, and at least as long unless it is answered; one stamped zero stays. */
  lemma EntriesStayThirtySeconds(s: State, now: real, id: nat)
    requires id in s.table
    ensures var t := Step(s, Purge(now)).table;
      && (id in t <==> s.table[id].addedAt == 0.0 || now - s.table[id].addedAt <= 30.0)
      && (id in t ==> t[id] == s.table[id])
    ensures forall i :: i in Step(s, Purge(now)).table ==> i in s.table
  {
  }

  /** Reserving and filling stamp the entry with the clock. */
  lemma EntriesAreStamped(s: State, op: Op)
    requires Enabled(s, op) && (op.Reserve? || op.Fill?)
    ensures var t, id := Step(s, op).table, if op.Reserve? then op.id else s.phases[op.r].id;
      && t.Keys == s.table.Keys + {id} && (forall i :: i in s.table && i != id ==> t[i] == s.table[i])
      && t[id] == Entry(op.now, if op.Fill? then Some(op.r) else None)
  {
  }

  // ---------------------------------------------------------------------------
  // At most one reply, under the client's own ID.

  /** The request has its query in the table under `id`. */
  predicate Listed(s: State, id: nat, r: RequestId) { id in s.table && s.table[id].query == Some(r) }

  predicate Replied(s: State, r: RequestId) { exists i :: 0 <= i < |s.replies| && s.replies[i].to == r }

  predicate FilledAs(p: Phase, id: nat) { p == Filled(id) || p == Sent(id) }

  ghost predicate TableInv(s: State) {
    && s.requests.Keys == s.phases.Keys
    && (forall id :: id in s.table ==> LOWEST_ID <= id <= HIGHEST_ID)
    && (forall r :: r in s.phases && s.phases[r].Holding? ==> LOWEST_ID <= s.phases[r].id <= HIGHEST_ID)
    && (forall id, r :: Listed(s, id, r) ==> r in s.phases && FilledAs(s.phases[r], id) && !Replied(s, r))
  }

  ghost predicate ReplyInv(s: State) {
    && (forall r :: Replied(s, r) ==> r in s.phases && !s.phases[r].Arrived? && !s.phases[r].Holding?)
    && (forall i, j :: 0 <= i < j < |s.replies| ==> s.replies[i].to != s.replies[j].to)
    && (forall i :: 0 <= i < |s.replies| ==>
          && s.replies[i].to in s.requests && !s.requests[s.replies[i].to].topDomain
          && |s.replies[i].bytes| >= 12 && s.replies[i].bytes[..2] == Pack16(s.requests[s.replies[i].to].dnsId))
  }

  lemma RepliedMore(s: State, t: State, more: Sending)
    requires t.replies == s.replies + [more]
    ensures forall r :: Replied(t, r) <==> Replied(s, r) || r == more.to
  {
    forall r ensures Replied(t, r) <==> Replied(s, r) || r == more.to {
      if Replied(s, r) {
        var i :| 0 <= i < |s.replies| && s.replies[i].to == r;
        assert t.replies[i].to == r;
      }
      assert t.replies[|s.replies|] == more;
    }
  }

  lemma OneMoreReply(s: State, t: State, more: Sending)
    requires TableInv(s) && ReplyInv(s)
    requires t.requests == s.requests && t.phases.Keys == s.phases.Keys && t.replies == s.replies + [more]
    requires forall id :: id in t.table ==> id in s.table && t.table[id] == s.table[id]
    requires forall r :: r in s.phases && r != more.to ==> t.phases[r] == s.phases[r]
    requires more.to in s.phases && !Replied(s, more.to) && !t.phases[more.to].Arrived? && !t.phases[more.to].Holding?
    requires forall id :: !Listed(t, id, more.to)
    requires !s.requests[more.to].topDomain
    requires |more.bytes| >= 12 && more.bytes[..2] == Pack16(s.requests[more.to].dnsId)
    ensures TableInv(t) && ReplyInv(t)
  {
    RepliedMore(s, t, more);
    forall id, r | Listed(t, id, r) ensures r in t.phases && FilledAs(t.phases[r], id) && !Replied(t, r) {
      assert Listed(s, id, r);
    }
    forall i, j | 0 <= i < j < |t.replies| ensures t.replies[i].to != t.replies[j].to {
      if j == |s.replies| { assert Replied(s, s.replies[i].to); }
    }
  }

  lemma ReplyHeads(q: Request, ttl: U32, records: seq<Record>)
    requires |records| < 0x1_0000
    ensures |Negative(q)| >= 12 && Negative(q)[..2] == Pack16(q.dnsId)
    ensures |Replayed(q, ttl, records)| >= 12 && Replayed(q, ttl, records)[..2] == Pack16(q.dnsId)
  {
  }

  lemma RewrittenHead(data: Octets, dnsId: U16, now: int)
    requires Rewritten(data, dnsId, now).Ok?
    ensures var out := Rewritten(data, dnsId, now).value.bytes; |out| >= 12 && out[..2] == Pack16(dnsId)
  {
    hide *;
    RewrittenIsLong(data, dnsId, now);
    RewrittenCases(data, dnsId, now);
    ReplyParts(data, Parsed(data).value, dnsId, now);
  }

  /** Steps that send nothing and only move phases forward, or shrink or extend the table. */
  lemma QuietStep(s: State, t: State)
    requires TableInv(s) && ReplyInv(s) && t.replies == s.replies
    requires t.requests.Keys == t.phases.Keys
    requires forall r :: r in s.requests ==> r in t.requests && t.requests[r] == s.requests[r]
    requires forall id :: id in t.table ==> LOWEST_ID <= id <= HIGHEST_ID
    requires forall r :: r in t.phases && t.phases[r].Holding? ==> LOWEST_ID <= t.phases[r].id <= HIGHEST_ID
    requires forall id, r :: Listed(t, id, r) ==> r in t.phases && FilledAs(t.phases[r], id) && !Replied(s, r)
    requires forall r :: Replied(s, r) ==> r in t.phases && !t.phases[r].Arrived? && !t.phases[r].Holding?
    ensures TableInv(t) && ReplyInv(t)
  {
    assert forall r :: Replied(t, r) <==> Replied(s, r);
  }

  lemma StepKeepsInv(s: State, op: Op)
    requires Enabled(s, op) && TableInv(s) && ReplyInv(s)
    ensures TableInv(Step(s, op)) && ReplyInv(Step(s, op))
  {
    hide Step, TableInv, ReplyInv;
    match op {
      case ReplyNegative(_) =>
        LocalReplyKeepsInv(s, op);
      case ReplyCached(_, _, _) =>
        LocalReplyKeepsInv(s, op);
      case Respond(data, answers, now) =>
        RespondKeepsInv(s, data, answers, now);
      case Fill(r, _) =>
        FillKeepsInv(s, op);
      case _ =>
        OtherStepsKeepInv(s, op);
    }
  }

  lemma LocalReplyKeepsInv(s: State, op: Op)
    requires (op.ReplyNegative? || op.ReplyCached?) && Enabled(s, op) && TableInv(s) && ReplyInv(s)
    ensures TableInv(Step(s, op)) && ReplyInv(Step(s, op))
  {
    var t, r := Step(s, op), op.r;
    ReplyHeads(s.requests[r], if op.ReplyCached? then op.ttl else 0, if op.ReplyCached? then op.records else []);
    assert forall id :: Listed(t, id, r) ==> Listed(s, id, r);
    hide Negative, Replayed;
    OneMoreReply(s, t, t.replies[|s.replies|]);
  }

  lemma FillKeepsInv(s: State, op: Op)
    requires op.Fill? && Enabled(s, op) && TableInv(s) && ReplyInv(s)
    ensures TableInv(Step(s, op)) && ReplyInv(Step(s, op))
  {
    var t, r := Step(s, op), op.r;
    var id := s.phases[r].id;
    forall i, q | Listed(t, i, q) ensures q in t.phases && FilledAs(t.phases[q], i) && !Replied(s, q) {
      if i != id { assert Listed(s, i, q); }
    }
    hide Listed, Replied;
    QuietStep(s, t);
  }

  lemma OtherStepsKeepInv(s: State, op: Op)
    requires op.Arrive? || op.GiveUp? || op.Reserve? || op.SendUp? || op.Forget? || op.Purge?
    requires Enabled(s, op) && TableInv(s) && ReplyInv(s)
    ensures TableInv(Step(s, op)) && ReplyInv(Step(s, op))
  {
    hide Step, Enabled;
    OtherStepsMoveForward(s, op);
    var t := Step(s, op);
    forall i, q | Listed(t, i, q) ensures q in t.phases && FilledAs(t.phases[q], i) && !Replied(s, q) {
      assert Listed(s, i, q);
    }
    hide Listed, Replied;
    QuietStep(s, t);
  }

  lemma OtherStepsMoveForward(s: State, op: Op)
    requires op.Arrive? || op.GiveUp? || op.Reserve? || op.SendUp? || op.Forget? || op.Purge?
    requires Enabled(s, op) && s.requests.Keys == s.phases.Keys
    ensures var t := Step(s, op);
      && t.replies == s.replies && t.requests.Keys == t.phases.Keys
      && (forall r :: r in s.requests ==> r in t.requests && t.requests[r] == s.requests[r])
      && (forall id :: id in t.table ==>
            (id in s.table && t.table[id] == s.table[id]) || (t.table[id].query == None && InRange(id)))
      && (forall r :: r in t.phases && t.phases[r].Holding? ==>
            InRange(t.phases[r].id) || (r in s.phases && t.phases[r] == s.phases[r]))
      && (forall r :: r in s.phases && !s.phases[r].Arrived? && !s.phases[r].Holding? ==>
            r in t.phases && (t.phases[r] == s.phases[r] ||
                              (s.phases[r].Filled? && t.phases[r] == Sent(s.phases[r].id))))
  {
    hide Orphaned;
  }

  predicate InRange(id: nat) { LOWEST_ID <= id <= HIGHEST_ID }

  lemma RespondKeepsInv(s: State, data: Octets, answers: RequestId, now: real)
    requires |data| >= 12 && TableInv(s) && ReplyInv(s)
    ensures var t := Step(s, Respond(data, answers, now)); TableInv(t) && ReplyInv(t)
  {
    var id, t := Unpack16(data, 0), Step(s, Respond(data, answers, now));
    hide Rewritten;
    assert forall i, r :: Listed(t, i, r) ==> Listed(s, i, r) && i != id;
    if id in s.table {
      var sent := Answer(s, data, answers, now);
      if sent == [] {
        assert t.replies == s.replies;
        QuietStep(s, t);
      } else {
        var r := s.table[id].query.value;
        assert Listed(s, id, r);
        RewrittenHead(data, s.requests[r].dnsId, now.Floor);
        OneMoreReply(s, t, sent[0]);
      }
    }
  }

  lemma {:induction false} RunKeepsInv(s: State, ops: seq<Op>)
    requires Runs(s, ops) && TableInv(s) && ReplyInv(s)
    ensures TableInv(Run(s, ops)) && ReplyInv(Run(s, ops))
    decreases |ops|
  {
    hide Enabled, Step, TableInv, ReplyInv;
    if ops != [] {
      StepKeepsInv(s, ops[0]);
      RunKeepsInv(Step(s, ops[0]), ops[1..]);
    }
  }

  /**
   * In every interleaving, with any responses at all: no datagram gets two
   * replies, whatever their paths; every reply goes to a client and carries
   * that client's own ID; and the table holds IDs 70 to 65534 only, so the
   * keepalive ID never matches.
   */
  lemma AtMostOneReply(ops: seq<Op>)
    requires Runs(INIT, ops)
    ensures var s := Run(INIT, ops);
      && (forall i, j :: 0 <= i < j < |s.replies| ==> s.replies[i].to != s.replies[j].to)
      && (forall i :: 0 <= i < |s.replies| ==>
            && s.replies[i].to in s.requests && !s.requests[s.replies[i].to].topDomain
            && |s.replies[i].bytes| >= 12
            && s.replies[i].bytes[..2] == Pack16(s.requests[s.replies[i].to].dnsId))
      && (forall id :: id in s.table ==> 70 <= id <= 65534)
  {
    RunKeepsInv(INIT, ops);
  }

  // ---------------------------------------------------------------------------
  // Responses reach the request they answer, when IDs are not reused too early.

  /** The thread of `r` has reserved `id` and not yet sent its query. */
  predicate Claims(s: State, id: nat, r: RequestId) {
    r in s.phases && (s.phases[r] == Holding(id) || s.phases[r] == Filled(id))
  }

  /** A query of `r` was or will be sent under `id`, and a resolver may answer it. */
  predicate Rival(s: State, id: nat, r: RequestId) { Claims(s, id, r) || (id, r) in s.outstanding }

  predicate IsClient(s: State, r: RequestId) { r in s.requests && !s.requests[r].topDomain }

  /** `q` is a client that gets, now or once its entry is filled, whatever is answered under `id`. */
  predicate Exposed(s: State, id: nat, q: RequestId) {
    IsClient(s, q) && (PhaseOf(s, q) == Some(Holding(id)) || Listed(s, id, q))
  }

  /**
   * Responses answer queries that were sent. An ID that still has a rival is
   * reserved for refreshes of top domains only, and not while a client holds it.
   */
  ghost predicate Careful(s: State, op: Op) {
    match op
    case Reserve(r, id, _) => forall other :: Rival(s, id, other) ==> !IsClient(s, r) && !Exposed(s, id, other)
    case Respond(data, answers, _) => |data| >= 12 && (Unpack16(data, 0) as nat, answers) in s.outstanding
    case _ => true
  }

  ghost predicate CarefulRuns(s: State, ops: seq<Op>)
    requires Runs(s, ops)
    decreases |ops|
  {
    ops == [] || (Careful(s, ops[0]) && CarefulRuns(Step(s, ops[0]), ops[1..]))
  }

  /** Every forwarded response answers the query of the request it was sent to. */
  ghost predicate RepliesMatch(s: State) {
    forall i :: 0 <= i < |s.replies| && s.replies[i].source.Upstream? ==> s.replies[i].to == s.replies[i].source.answers
  }

  ghost predicate MatchInv(s: State) {
    && (forall id: nat, r :: (id, r) in s.outstanding ==> PhaseOf(s, r) == Some(Sent(id)))
    && (forall id, q, r :: Exposed(s, id, q) && Rival(s, id, r) ==> q == r)
    && RepliesMatch(s)
  }

  lemma StepKeepsMatch(s: State, op: Op)
    requires Enabled(s, op) && Careful(s, op) && TableInv(s) && MatchInv(s)
    ensures MatchInv(Step(s, op))
  {
    hide Step, MatchInv, TableInv, Careful;
    match op {
      case Respond(data, answers, now) => RespondKeepsMatch(s, data, answers, now);
      case Fill(_, _) => FillKeepsMatch(s, op);
      case SendUp(_) => SendKeepsMatch(s, op);
      case Reserve(_, _, _) => ReserveKeepsMatch(s, op);
      case _ => OthersKeepMatch(s, op);
    }
  }

  lemma OthersKeepMatch(s: State, op: Op)
    requires !op.Respond? && !op.Fill? && !op.SendUp? && !op.Reserve?
    requires Enabled(s, op) && TableInv(s) && MatchInv(s)
    ensures MatchInv(Step(s, op))
  {
    hide Step, Enabled;
    OtherStepsDoLittle(s, op);
    var t := Step(s, op);
    forall id, q | Listed(t, id, q) ensures Listed(s, id, q) && q in s.requests {
      assert Listed(s, id, q) && q in s.phases.Keys;
    }
    assert forall id, q :: Claims(t, id, q) ==> Claims(s, id, q);
    assert forall id, q :: Rival(t, id, q) ==> Rival(s, id, q);
    forall id, q | Exposed(t, id, q) ensures Exposed(s, id, q) {
      if !Listed(t, id, q) { assert Claims(t, id, q) && q in s.requests; }
    }
    hide Rival, Exposed;
  }

  /** They take no ID, add nothing to the table, and forward no response. */
  lemma OtherStepsDoLittle(s: State, op: Op)
    requires !op.Respond? && !op.Fill? && !op.SendUp? && !op.Reserve?
    requires Enabled(s, op) && s.requests.Keys == s.phases.Keys
    ensures var t := Step(s, op);
      && t.outstanding <= s.outstanding
      && (forall id :: id in t.table ==> id in s.table && t.table[id] == s.table[id])
      && (forall q :: q in t.phases && (t.phases[q].Holding? || t.phases[q].Filled?) ==>
            q in s.phases && t.phases[q] == s.phases[q])
      && (forall q :: q in s.phases && s.phases[q].Sent? ==> q in t.phases && t.phases[q] == s.phases[q])
      && (forall q :: q in s.requests ==> q in t.requests && t.requests[q] == s.requests[q])
      && (forall i :: 0 <= i < |t.replies| && t.replies[i].source.Upstream? ==>
            i < |s.replies| && t.replies[i] == s.replies[i])
  {
    hide Negative, Replayed, Orphaned;
  }

  lemma ReserveKeepsMatch(s: State, op: Op)
    requires op.Reserve? && Enabled(s, op) && Careful(s, op) && TableInv(s) && MatchInv(s)
    ensures MatchInv(Step(s, op))
  {
    var t := Step(s, op);
    assert forall id, q :: Rival(t, id, q) ==> Rival(s, id, q) || (id == op.id && q == op.r);
    assert forall id, q :: Listed(t, id, q) ==> Listed(s, id, q) && id != op.id;
    assert forall id, q :: Exposed(t, id, q) ==> Exposed(s, id, q) || (id == op.id && q == op.r && IsClient(s, q));
    assert forall q :: Exposed(s, op.id, q) ==> Rival(s, op.id, q);
    hide Rival, Exposed;
  }

  lemma FillKeepsMatch(s: State, op: Op)
    requires op.Fill? && Enabled(s, op) && TableInv(s) && MatchInv(s)
    ensures MatchInv(Step(s, op))
  {
    var t, id := Step(s, op), s.phases[op.r].id;
    assert forall i, q :: Rival(t, i, q) <==> Rival(s, i, q);
    assert forall i, q :: Listed(t, i, q) ==> Listed(s, i, q) || (i == id && q == op.r);
    assert forall i, q :: Exposed(t, i, q) ==> Exposed(s, i, q);
    hide Rival, Exposed;
  }

  lemma SendKeepsMatch(s: State, op: Op)
    requires op.SendUp? && Enabled(s, op) && TableInv(s) && MatchInv(s)
    ensures MatchInv(Step(s, op))
  {
    var t := Step(s, op);
    assert forall i, q :: Rival(t, i, q) <==> Rival(s, i, q);
    assert forall i, q :: Listed(t, i, q) <==> Listed(s, i, q);
    assert forall i, q :: Exposed(t, i, q) ==> Exposed(s, i, q);
    hide Rival, Exposed;
  }

  lemma RespondKeepsMatch(s: State, data: Octets, answers: RequestId, now: real)
    requires |data| >= 12 && Careful(s, Respond(data, answers, now)) && TableInv(s) && MatchInv(s)
    ensures MatchInv(Step(s, Respond(data, answers, now)))
  {
    hide Rewritten;
    var id: nat, t := Unpack16(data, 0), Step(s, Respond(data, answers, now));
    assert forall i, q :: Rival(t, i, q) <==> Rival(s, i, q);
    assert forall i, q :: Listed(t, i, q) ==> Listed(s, i, q);
    assert forall i, q :: Exposed(t, i, q) ==> Exposed(s, i, q);
    if id in s.table && Answer(s, data, answers, now) != [] {
      var r := s.table[id].query.value;
      assert Listed(s, id, r) && Exposed(s, id, r) && Rival(s, id, answers);
    }
  }

  lemma {:induction false} RunKeepsMatch(s: State, ops: seq<Op>)
    requires Runs(s, ops) && CarefulRuns(s, ops) && TableInv(s) && ReplyInv(s) && MatchInv(s)
    ensures MatchInv(Run(s, ops))
    decreases |ops|
  {
    hide Enabled, Step, Careful, TableInv, ReplyInv, MatchInv;
    if ops != [] {
      StepKeepsInv(s, ops[0]);
      StepKeepsMatch(s, ops[0]);
      RunKeepsMatch(Step(s, ops[0]), ops[1..]);
    }
  }

  /** In a careful run every forwarded response answers the query of the request it is sent to. */
  lemma ResponsesMatch(ops: seq<Op>)
    requires Runs(INIT, ops) && CarefulRuns(INIT, ops)
    ensures RepliesMatch(Run(INIT, ops))
  {
    RunKeepsMatch(INIT, ops);
  }

  // ---------------------------------------------------------------------------
  // The condition on reserving IDs is exact.

  /** Whatever happens next, as long as IDs are reserved with care and responses answer sent queries. */
  ghost predicate Safe(s: State) {
    forall ops :: Runs(s, ops) && CarefulRuns(s, ops) ==> RepliesMatch(Run(s, ops))
  }

  predicate ReservesNothing(ops: seq<Op>) { forall op: Op :: op in ops ==> !op.Reserve? }

  /** Some response can reach the wrong request even if no ID is reserved any more. */
  ghost predicate GoesAstray(s: State) {
    exists ops :: Runs(s, ops) && CarefulRuns(s, ops) && ReservesNothing(ops) && !RepliesMatch(Run(s, ops))
  }

  lemma Prepend(s: State, op: Op, ops: seq<Op>)
    requires Enabled(s, op) && Runs(Step(s, op), ops)
    ensures Runs(s, [op] + ops) && Run(s, [op] + ops) == Run(Step(s, op), ops)
    ensures Careful(s, op) && CarefulRuns(Step(s, op), ops) ==> CarefulRuns(s, [op] + ops)
  {
    hide Enabled, Step, Careful;
    assert ([op] + ops)[1..] == ops;
  }

  lemma AstrayNext(s: State, op: Op)
    requires Enabled(s, op) && Careful(s, op) && !op.Reserve? && GoesAstray(Step(s, op))
    ensures GoesAstray(s)
  {
    hide Enabled, Step, Careful, RepliesMatch;
    var t := Step(s, op);
    var ops :| Runs(t, ops) && CarefulRuns(t, ops) && ReservesNothing(ops) && !RepliesMatch(Run(t, ops));
    Prepend(s, op, ops);
  }

  lemma EmptyMessage(data: Octets, dnsId: U16, now: int)
    requires |data| == 12 && Unpack16(data, 6) == 0 && Unpack16(data, 8) == 0
    ensures Rewritten(data, dnsId, now).Ok?
  {
    assert SectionCounts(data) == [0, 0] && [0, 0][1..] == [0 as nat];
    var after := AfterQuestion(data);
    assert ParseSection(after, 0, Cap(0, |after|)) == Ok(Section([], 0));
    var next := Drop(after, 0);
    assert ParseSection(next, 0, Cap(0, |next|)) == Ok(Section([], 0));
    LastPrefix([], 0, Drop(next, 0), 0);
  }

  /** The least answer: a header with the ID and no records. */
  function BareAnswer(id: U16): (data: Octets)
    ensures |data| == 12
  {
    Pack16(id) + [0, 0, 0, 0, 0, 0, 0, 0, 0, 0]
  }

  lemma BareAnswerRewritten(id: U16, dnsId: U16, now: int)
    ensures Unpack16(BareAnswer(id), 0) == id && Rewritten(BareAnswer(id), dnsId, now).Ok?
  {
    var data := BareAnswer(id);
    assert data[0] == Pack16(id)[0] && data[1] == Pack16(id)[1];
    EmptyMessage(data, dnsId, now);
  }

  /** A query is outstanding under an ID whose entry belongs to somebody else. */
  lemma WrongEntry(s: State, id: U16, q: RequestId, r: RequestId, now: real)
    requires Listed(s, id, q) && IsClient(s, q) && (id, r) in s.outstanding && q != r
    ensures GoesAstray(s)
  {
    hide Rewritten, Unpack16, Pack16, BareAnswer;
    var op := Respond(BareAnswer(id), r, now);
    var t := Step(s, op);
    BareAnswerRewritten(id, s.requests[q].dnsId, now.Floor);
    var last := t.replies[|s.replies|];
    assert last.to == q && last.source == Upstream(r);
    assert !RepliesMatch(t) && Enabled(s, op) && Careful(s, op);
    hide *;
    AstrayNow(t);
    AstrayNext(s, op);
  }

  lemma AstrayNow(t: State)
    requires !RepliesMatch(t)
    ensures GoesAstray(t)
  {
    assert Runs(t, []) && CarefulRuns(t, []) && ReservesNothing([]) && Run(t, []) == t;
  }

  /** A client holds an ID and somebody else sends or has sent a query under it. */
  lemma HeldByTwo(s: State, id: U16, q: RequestId, r: RequestId, now: real)
    requires IsClient(s, q) && PhaseOf(s, q) == Some(Holding(id)) && Rival(s, id, r) && q != r
    ensures GoesAstray(s)
    decreases if (id as nat, r) in s.outstanding then 0 else if PhaseOf(s, r) == Some(Filled(id)) then 1 else 2
  {
    var next := if (id as nat, r) in s.outstanding then Fill(q, now)
      else if s.phases[r] == Filled(id) then SendUp(r) else Fill(r, now);
    var t := Step(s, next);
    if (id as nat, r) in s.outstanding {
      WrongEntry(t, id, q, r, now);
    } else {
      HeldByTwo(t, id, q, r, now);
    }
    AstrayNext(s, next);
  }

  /**
   * After any careful run, and for any request that now reserves a free ID:
   * the reservation is careful exactly when every forwarded response will
   * answer the right query in all careful continuations. Where it is not, one
   * goes astray in some continuation without any further reservation.
   */
  lemma ReuseConditionIsExact(before: seq<Op>, r: RequestId, id: nat, now: real)
    requires Runs(INIT, before) && CarefulRuns(INIT, before) && Enabled(Run(INIT, before), Reserve(r, id, now))
    ensures var s, op := Run(INIT, before), Reserve(r, id, now);
      && (Careful(s, op) <==> Safe(Step(s, op)))
      && (Careful(s, op) <==> !GoesAstray(Step(s, op)))
  {
    var s, op := Run(INIT, before), Reserve(r, id, now);
    RunKeepsInv(INIT, before);
    RunKeepsMatch(INIT, before);
    if Careful(s, op) {
      CarefulIsSafe(s, op);
    } else {
      CarelessGoesAstray(s, r, id, now);
    }
  }

  lemma CarefulIsSafe(s: State, op: Op)
    requires Enabled(s, op) && Careful(s, op) && TableInv(s) && ReplyInv(s) && MatchInv(s)
    ensures Safe(Step(s, op))
  {
    hide Enabled, Step, Careful, TableInv, ReplyInv;
    var t := Step(s, op);
    StepKeepsInv(s, op);
    StepKeepsMatch(s, op);
    forall ops | Runs(t, ops) && CarefulRuns(t, ops) ensures RepliesMatch(Run(t, ops)) {
      RunKeepsMatch(t, ops);
    }
  }

  lemma CarelessGoesAstray(s: State, r: RequestId, id: nat, now: real)
    requires Enabled(s, Reserve(r, id, now)) && !Careful(s, Reserve(r, id, now)) && MatchInv(s)
    ensures GoesAstray(Step(s, Reserve(r, id, now)))
  {
    hide RepliesMatch, GoesAstray;
    var t := Step(s, Reserve(r, id, now));
    var other :| Rival(s, id, other) && (IsClient(s, r) || Exposed(s, id, other));
    assert Rival(t, id, other) && Rival(t, id, r) && other != r;
    if IsClient(s, r) {
      HeldByTwo(t, id, r, other, now);
    } else {
      HeldByTwo(t, id, other, r, now);
    }
  }

  lemma {:induction false} Concatenated(s: State, first: seq<Op>, rest: seq<Op>)
    requires Runs(s, first) && Runs(Run(s, first), rest)
    ensures Runs(s, first + rest) && Run(s, first + rest) == Run(Run(s, first), rest)
    decreases |first|
  {
    hide Enabled, Step;
    if first == [] {
      assert first + rest == rest;
    } else {
      Concatenated(Step(s, first[0]), first[1..], rest);
      assert (first + rest)[1..] == first[1..] + rest;
    }
  }

  /** Request 1 is sent under ID 70 and purged, and request 2 gets the ID. */
  function Reused(q: Request): seq<Op> {
    [Arrive(1, q), Arrive(2, q)] + [Reserve(1, 70, 1.0), Fill(1, 1.0), SendUp(1)] + [Purge(32.0), Reserve(2, 70, 32.0)]
  }

  function BothArrived(q: Request): State {
    State(map[1 := q, 2 := q], map[1 := Arrived, 2 := Arrived], map[], {}, [])
  }

  function FirstSent(q: Request): State {
    State(map[1 := q, 2 := q], map[1 := Sent(70), 2 := Arrived], map[70 := Entry(1.0, Some(1))], {(70, 1)}, [])
  }

  lemma Arrivals(q: Request)
    ensures Runs(INIT, [Arrive(1, q), Arrive(2, q)]) && Run(INIT, [Arrive(1, q), Arrive(2, q)]) == BothArrived(q)
  {
    var a := Step(INIT, Arrive(1, q));
    assert Step(a, Arrive(2, q)) == BothArrived(q);
    hide Step, Careful, CarefulRuns;
    Prepend(a, Arrive(2, q), []);
    Prepend(INIT, Arrive(1, q), [Arrive(2, q)]);
  }

  lemma FirstSending(q: Request)
    ensures var ops := [Reserve(1, 70, 1.0), Fill(1, 1.0), SendUp(1)];
      Runs(BothArrived(q), ops) && Run(BothArrived(q), ops) == FirstSent(q)
  {
    var a := BothArrived(q);
    var b := a.(phases := map[1 := Holding(70), 2 := Arrived], table := map[70 := Entry(1.0, None)]);
    var c := a.(phases := map[1 := Filled(70), 2 := Arrived], table := map[70 := Entry(1.0, Some(1))]);
    assert Enabled(a, Reserve(1, 70, 1.0)) && Enabled(b, Fill(1, 1.0)) && Enabled(c, SendUp(1));
    assert Step(a, Reserve(1, 70, 1.0)) == b && Step(b, Fill(1, 1.0)) == c && Step(c, SendUp(1)) == FirstSent(q);
    hide *;
    NoSteps(FirstSent(q));
    Prepend(c, SendUp(1), []);
    Prepend(b, Fill(1, 1.0), [SendUp(1)]);
    Prepend(a, Reserve(1, 70, 1.0), [Fill(1, 1.0), SendUp(1)]);
  }

  lemma NoSteps(s: State)
    ensures Runs(s, []) && Run(s, []) == s
  {
  }

  lemma Reusing(q: Request)
    ensures var ops := [Purge(32.0), Reserve(2, 70, 32.0)];
      && Runs(FirstSent(q), ops)
      && Run(FirstSent(q), ops) ==
         FirstSent(q).(phases := map[1 := Sent(70), 2 := Holding(70)], table := map[70 := Entry(32.0, None)])
  {
    var a := FirstSent(q);
    var b := a.(table := map[]);
    var c := a.(phases := map[1 := Sent(70), 2 := Holding(70)], table := map[70 := Entry(32.0, None)]);
    assert Step(a, Purge(32.0)) == b && Enabled(b, Reserve(2, 70, 32.0)) && Step(b, Reserve(2, 70, 32.0)) == c;
    assert Enabled(a, Purge(32.0));
    hide *;
    NoSteps(c);
    Prepend(b, Reserve(2, 70, 32.0), []);
    Prepend(a, Purge(32.0), [Reserve(2, 70, 32.0)]);
  }

  lemma ReusedRuns(q: Request)
    ensures Runs(INIT, Reused(q))
    ensures var s := Run(INIT, Reused(q));
      PhaseOf(s, 2) == Some(Holding(70)) && (70, 1) in s.outstanding && 2 in s.requests && s.requests[2] == q
  {
    hide Run, Runs, Step, Enabled;
    Arrivals(q);
    FirstSending(q);
    Reusing(q);
    Concatenated(INIT, [Arrive(1, q), Arrive(2, q)], [Reserve(1, 70, 1.0), Fill(1, 1.0), SendUp(1)]);
    Concatenated(INIT, [Arrive(1, q), Arrive(2, q)] + [Reserve(1, 70, 1.0), Fill(1, 1.0), SendUp(1)],
                 [Purge(32.0), Reserve(2, 70, 32.0)]);
  }

  /** A response more than 30 seconds late reaches whoever was given its ID after the purge. */
  lemma LateResponseGoesAstray(q: Request) returns (rest: seq<Op>)
    requires !q.topDomain
    ensures Runs(INIT, Reused(q) + rest) && !RepliesMatch(Run(INIT, Reused(q) + rest))
  {
    ReusedRuns(q);
    var s := Run(INIT, Reused(q));
    hide Run, Runs, Reused, RepliesMatch;
    HeldByTwo(s, 70, 2, 1, 33.0);
    rest :| Runs(s, rest) && !RepliesMatch(Run(s, rest));
    Concatenated(INIT, Reused(q), rest);
  }
}
