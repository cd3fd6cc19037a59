/**
 * relay_queue of advanced_tools.py as an interleaved step system: any number
 * of producers append a job and then set the event; one worker waits for the
 * event, clears it and drains the queue.
 */
module WorkQueue {

  type Producer = nat

  /**
   * Where the worker is: in `job_wait`, before `job_clear`, at `while queue`,
   * inside the handler, or logging what the handler raised and sleeping on it.
   */
  datatype Worker<J> = Waiting | Clearing | Draining | Handling(job: J) | Recovering

  /**
   * `setting` are the producers between append and set; `added` and `handled`
   * record history. A job whose handler raised counts as handled.
   */
  datatype State<J> = State(queue: seq<J>, event: bool, worker: Worker<J>, setting: set<Producer>,
                            added: seq<J>, handled: seq<J>)

  datatype Op<J> =
    | Append(p: Producer, job: J)
    | Set(p: Producer)
    | Wake
    | Clear
    | Pop
    | Rest       // the queue was found empty
    | Return     // the handler returned
    | Raise      // the handler raised
    | Recover    // logged and slept

  predicate Enabled<J>(s: State<J>, op: Op<J>) {
    match op
    case Append(p, _) => p !in s.setting
    case Set(p) => p in s.setting
    case Wake => s.worker.Waiting? && s.event
    case Clear => s.worker.Clearing?
    case Pop => s.worker.Draining? && s.queue != []
    case Rest => s.worker.Draining? && s.queue == []
    case Return => s.worker.Handling?
    case Raise => s.worker.Handling?
    case Recover => s.worker.Recovering?
  }

  function Step<J>(s: State<J>, op: Op<J>): State<J>
    requires Enabled(s, op)
  {
    match op
    case Append(p, job) => s.(queue := s.queue + [job], added := s.added + [job], setting := s.setting + {p})
    case Set(p) => s.(event := true, setting := s.setting - {p})
    case Wake => s.(worker := Clearing)
    case Clear => s.(event := false, worker := Draining)
    case Pop => s.(queue := s.queue[1..], worker := Handling(s.queue[0]))
    case Rest => s.(worker := Waiting)
    case Return => s.(handled := s.handled + [s.worker.job], worker := Draining)
    case Raise => s.(handled := s.handled + [s.worker.job], worker := Recovering)
    case Recover => s.(worker := Draining)
  }

  predicate Runs<J>(s: State<J>, ops: seq<Op<J>>)
    decreases |ops|
  {
    ops == [] || (Enabled(s, ops[0]) && Runs(Step(s, ops[0]), ops[1..]))
  }

  function Run<J>(s: State<J>, ops: seq<Op<J>>): State<J>
    requires Runs(s, ops)
    decreases |ops|
  {
    if ops == [] then s else Run(Step(s, ops[0]), ops[1..])
  }

  function Init<J>(): State<J> { State([], false, Waiting, {}, [], []) }

  function InHand<J>(w: Worker<J>): seq<J> { if w.Handling? then [w.job] else [] }

  ghost predicate Inv<J>(s: State<J>) {
    && s.added == s.handled + InHand(s.worker) + s.queue
    && (s.worker.Waiting? && s.queue != [] ==> s.event || s.setting != {})
  }

  lemma StepKeepsInv<J>(s: State<J>, op: Op<J>)
    requires Inv(s) && Enabled(s, op)
    ensures Inv(Step(s, op))
  {
    var t := Step(s, op);
    match op {
      case Append(p, job) =>
        assert p in t.setting;
        assert s.handled + InHand(s.worker) + s.queue + [job] == s.handled + InHand(s.worker) + (s.queue + [job]);
      case Pop =>
        assert s.queue == [s.queue[0]] + s.queue[1..];
        assert s.handled + [] + s.queue == s.handled + [s.queue[0]] + s.queue[1..];
      case Return =>
        assert s.handled + [s.worker.job] + [] == s.handled + [s.worker.job];
      case Raise =>
        assert s.handled + [s.worker.job] + [] == s.handled + [s.worker.job];
      case _ =>
    }
  }

  lemma {:induction false} RunKeepsInv<J>(s: State<J>, ops: seq<Op<J>>)
    requires Inv(s) && Runs(s, ops)
    ensures Inv(Run(s, ops))
    decreases |ops|
  {
    if ops != [] {
      StepKeepsInv(s, ops[0]);
      RunKeepsInv(Step(s, ops[0]), ops[1..]);
    }
  }

  /**
   * In every interleaving: a worker that waits beside a nonempty queue has its
   * wakeup set or about to be set, and the jobs handled so far are the first
   * ones appended, in order and once each.
   */
  lemma NoLostWakeup<J>(ops: seq<Op<J>>)
    requires Runs(Init(), ops)
    ensures var s := Run(Init(), ops);
      && (s.worker.Waiting? && s.queue != [] ==> s.event || s.setting != {})
      && s.handled <= s.added
  {
    RunKeepsInv(Init(), ops);
  }

  /** Nothing can happen but a new append. */
  ghost predicate Quiescent<J(!new)>(s: State<J>) {
    forall op: Op<J> :: op.Append? || !Enabled(s, op)
  }

  lemma QuiescentIs<J(!new)>(s: State<J>)
    ensures Quiescent(s) <==> s.worker.Waiting? && !s.event && s.setting == {}
  {
    if Quiescent(s) {
      assert !Enabled(s, Wake) && !Enabled(s, Clear) && !Enabled(s, Pop) && !Enabled(s, Rest);
      assert !Enabled(s, Return) && !Enabled(s, Recover);
      forall p | p in s.setting ensures false { assert Enabled(s, Set(p)); }
    }
  }

  /** In every quiescent state all added jobs were handled, once each and in append order. */
  lemma QuiescentIsDone<J(!new)>(ops: seq<Op<J>>)
    requires Runs(Init(), ops) && Quiescent(Run(Init(), ops))
    ensures Run(Init(), ops).handled == Run(Init(), ops).added
  {
    var s := Run(Init(), ops);
    RunKeepsInv(Init(), ops);
    QuiescentIs(s);
    assert s.handled + [] + [] == s.handled;
  }

  // ---------------------------------------------------------------------------
  // Progress: without further appends every run comes to rest.

  function Rank<J>(s: State<J>): nat {
    6 * |s.setting| + 3 * |s.queue| + (if s.event then 4 else 0)
    + match s.worker
      case Waiting => 2
      case Clearing => 1
      case Draining => 4
      case Recovering => 5
      case Handling(_) => 6
  }

  lemma StepLowersRank<J>(s: State<J>, op: Op<J>)
    requires Enabled(s, op) && !op.Append? && (s.worker.Clearing? ==> s.event)
    ensures Rank(Step(s, op)) < Rank(s)
  {
    if op.Set? {
      assert |s.setting - {op.p}| == |s.setting| - 1;
    }
  }

  /** The event is still set when the worker is about to clear it. */
  lemma {:induction false} ClearingIsSet<J>(s: State<J>, ops: seq<Op<J>>)
    requires Runs(s, ops) && (s.worker.Clearing? ==> s.event)
    ensures Run(s, ops).worker.Clearing? ==> Run(s, ops).event
    decreases |ops|
  {
    if ops != [] { ClearingIsSet(Step(s, ops[0]), ops[1..]); }
  }

  /** A run without appends has at most `Rank` steps. */
  lemma {:induction false} RunsAreShort<J>(s: State<J>, ops: seq<Op<J>>)
    requires Runs(s, ops) && (s.worker.Clearing? ==> s.event)
    requires forall i :: 0 <= i < |ops| ==> !ops[i].Append?
    ensures |ops| + Rank(Run(s, ops)) <= Rank(s)
    decreases |ops|
  {
    if ops != [] {
      StepLowersRank(s, ops[0]);
      RunsAreShort(Step(s, ops[0]), ops[1..]);
    }
  }

  lemma {:induction false} RunsConcat<J>(s: State<J>, a: seq<Op<J>>, b: seq<Op<J>>)
    requires Runs(s, a) && Runs(Run(s, a), b)
    ensures Runs(s, a + b) && Run(s, a + b) == Run(Run(s, a), b)
    decreases |a|
  {
    hide Enabled, Step;
    if a == [] {
      assert a + b == b;
    } else {
      RunsConcat(Step(s, a[0]), a[1..], b);
      assert (a + b)[0] == a[0] && (a + b)[1..] == a[1..] + b;
    }
  }

  /**
   * From every reachable state, once appends stop, every run takes at most
   * `Rank` more steps, and one that cannot go on has handled all added jobs.
   */
  lemma EveryJobIsHandled<J(!new)>(before: seq<Op<J>>, after: seq<Op<J>>)
    requires Runs(Init(), before) && Runs(Run(Init(), before), after)
    requires forall i :: 0 <= i < |after| ==> !after[i].Append?
    ensures var s, t := Run(Init(), before), Run(Run(Init(), before), after);
      && |after| <= Rank(s)
      && (Quiescent(t) ==> t.handled == t.added)
  {
    ClearingIsSet(Init(), before);
    RunsAreShort(Run(Init(), before), after);
    RunsConcat(Init(), before, after);
    if Quiescent(Run(Run(Init(), before), after)) { QuiescentIsDone(before + after); }
  }
}
