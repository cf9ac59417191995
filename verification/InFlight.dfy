/** The memory bound on chunks in flight: the weighted semaphore taken before a body is read
    (internal/domain/upload.go:229-283) and the worker pool that gives it back
    (internal/domain/worker_pool.go:39-74), over every interleaving of requests and workers. */
module InFlight {
  import opened Types
  import opened Sums

  datatype Phase =
    | Arrived
    | Reading               // holds its weight, the body is being read
    | Body(length: nat)     // read and within bounds
    | Queued(length: nat)
    | Running(length: nat)
    | Done                  // a worker finished and released
    | Refused               // turned away holding nothing
    | Leaked                // turned away by a return that does not release

  /** A request, the weight it takes, how often that was released, and whether its caller is
      still there. */
  datatype Req = Req(weight: nat, phase: Phase, releases: nat, callerGone: bool)

  datatype State = State(
    capacity: nat, held: int, workers: nat, queueSize: nat, queue: seq<Id>, reqs: map<Id, Req>)

  datatype Action =
    | Acquire(r: Id)
    | Abandon(r: Id)                    // the context ends while waiting for the semaphore
    | Read(r: Id, length: nat, ok: bool)
    | TouchFails(r: Id)
    | Submit(r: Id, ok: bool)           // fails when the queue stays full or the context ends
    | Take                              // a free worker takes the head of the queue
    | Finish(r: Id)                     // the task returns and its deferred release runs
    | CallerLeaves(r: Id)

  function To(s: State, r: Id, phase: Phase): State
    requires r in s.reqs
  {
    s.(reqs := s.reqs[r := s.reqs[r].(phase := phase)])
  }

  /** Giving the weight back. */
  function Released(s: State, r: Id, phase: Phase): State
    requires r in s.reqs
  {
    var q := s.reqs[r];
    s.(held := s.held - q.weight, reqs := s.reqs[r := q.(phase := phase, releases := q.releases + 1)])
  }

  function RunningIds(reqs: map<Id, Req>): set<Id> { set r | r in reqs && reqs[r].phase.Running? }

  function Apply(s: State, a: Action): State {
    match a
    case Acquire(r) =>
      if r in s.reqs && s.reqs[r].phase.Arrived? && s.held + s.reqs[r].weight <= s.capacity
      then To(s, r, Reading).(held := s.held + s.reqs[r].weight) else s
    case Abandon(r) => if r in s.reqs && s.reqs[r].phase.Arrived? then To(s, r, Refused) else s
    case Read(r, length, ok) =>
      if r in s.reqs && s.reqs[r].phase.Reading? then
        To(s, r, if ok && length <= s.reqs[r].weight then Body(length) else Leaked)
      else s
    case TouchFails(r) => if r in s.reqs && s.reqs[r].phase.Body? then To(s, r, Leaked) else s
    case Submit(r, ok) =>
      if r in s.reqs && s.reqs[r].phase.Body? then
        if ok && |s.queue| < s.queueSize then
          To(s, r, Queued(s.reqs[r].phase.length)).(queue := s.queue + [r])
        else Released(s, r, Refused)
      else s
    case Take =>
      if s.queue != [] && |RunningIds(s.reqs)| < s.workers && s.queue[0] in s.reqs
      && s.reqs[s.queue[0]].phase.Queued? then
        To(s, s.queue[0], Running(s.reqs[s.queue[0]].phase.length)).(queue := s.queue[1..])
      else s
    case Finish(r) => if r in s.reqs && s.reqs[r].phase.Running? then Released(s, r, Done) else s
    case CallerLeaves(r) =>
      if r in s.reqs then s.(reqs := s.reqs[r := s.reqs[r].(callerGone := true)]) else s
  }

  function Run(s: State, actions: seq<Action>): State {
    if actions == [] then s else Apply(Run(s, actions[..|actions| - 1]), actions[|actions| - 1])
  }

  // ---------- safety ----------

  predicate HasWeight(ph: Phase) { ph.Reading? || ph.Body? || ph.Queued? || ph.Running? || ph.Leaked? }

  function WeightOf(q: Req): nat { if HasWeight(q.phase) then q.weight else 0 }

  function Weights(reqs: map<Id, Req>): map<Id, nat> {
    map r | r in reqs && HasWeight(reqs[r].phase) :: reqs[r].weight
  }

  function LengthOf(ph: Phase): nat {
    match ph
    case Body(n) => n
    case Queued(n) => n
    case Running(n) => n
    case _ => 0
  }

  /** The bytes read and not yet written. */
  function Lengths(reqs: map<Id, Req>): map<Id, nat> { map r | r in reqs :: LengthOf(reqs[r].phase) }

  /** A chunk fits the weight taken for it; a weight still to be given back, or not yet taken,
      has not been released, and none is released twice. */
  predicate Fair(q: Req) {
    LengthOf(q.phase) <= q.weight && q.releases <= 1 && (HasWeight(q.phase) || q.phase.Arrived? ==> q.releases == 0)
  }

  /** A request that finds room, a free place in the queue and a free worker is served: read
      whole, written once, and its weight is back. */
  lemma Served(s: State, r: Id, length: nat)
    requires r in s.reqs && s.reqs[r].phase.Arrived? && s.held + s.reqs[r].weight <= s.capacity
    requires length <= s.reqs[r].weight && s.queue == [] && s.queueSize > 0 && |RunningIds(s.reqs)| < s.workers
    ensures var s4 := Apply(Apply(Apply(Apply(s, Acquire(r)), Read(r, length, true)), Submit(r, true)), Take);
            var s5 := Apply(s4, Finish(r));
            && s4.reqs[r].phase == Running(length) && s4.held == s.held + s.reqs[r].weight && s4.queue == []
            && s5.reqs[r] == s.reqs[r].(phase := Done, releases := s.reqs[r].releases + 1)
            && s5.held == s.held && s5.queue == [] && s5.reqs - {r} == s.reqs - {r}
  {
    var s3 := Apply(Apply(Apply(s, Acquire(r)), Read(r, length, true)), Submit(r, true));
    assert s3.queue == [r] && RunningIds(s3.reqs) == RunningIds(s.reqs);
  }

  /** The semaphore knows exactly the weights held. */
  ghost predicate Accounted(s: State) {
    s.held == Total(Weights(s.reqs)) && s.held <= s.capacity && forall r | r in s.reqs :: Fair(s.reqs[r])
  }

  lemma WeightsMoved(reqs: map<Id, Req>, r: Id, q: Req)
    requires r in reqs && q.weight == reqs[r].weight
    ensures Total(Weights(reqs[r := q])) == Total(Weights(reqs))
              + WeightOf(q) - WeightOf(reqs[r])
  {
    var before, after := Weights(reqs), Weights(reqs[r := q]);
    TotalDrop(before, r);
    TotalDrop(after, r);
    assert before - {r} == after - {r};
  }

  function Actor(s: State, a: Action): Id {
    if a.Take? then if s.queue != [] then s.queue[0] else 0 else a.r
  }

  /** A step moves one request, and the semaphore by what that request gains or loses. */
  lemma Effect(s: State, a: Action)
    requires Apply(s, a) != s
    ensures var s', r := Apply(s, a), Actor(s, a);
            && r in s.reqs && r in s'.reqs && s'.reqs == s.reqs[r := s'.reqs[r]]
            && s'.reqs[r].weight == s.reqs[r].weight
            && (Fair(s.reqs[r]) ==> Fair(s'.reqs[r]))
            && s'.held == s.held + WeightOf(s'.reqs[r]) - WeightOf(s.reqs[r])
            && s'.capacity == s.capacity && (s.held <= s.capacity ==> s'.held <= s.capacity)
            && (s.reqs[r].phase.Leaked? ==> s'.reqs[r].phase.Leaked?)
  {
  }

  lemma StepAccounted(s: State, a: Action)
    requires Accounted(s)
    ensures Accounted(Apply(s, a)) && Apply(s, a).capacity == s.capacity
  {
    var s', r := Apply(s, a), Actor(s, a);
    if s' != s {
      Effect(s, a);
      WeightsMoved(s.reqs, r, s'.reqs[r]);
    }
  }

  lemma {:induction false} RunAccounted(s: State, actions: seq<Action>)
    requires Accounted(s)
    ensures Accounted(Run(s, actions)) && Run(s, actions).capacity == s.capacity
    ensures Queues(s) ==> Queues(Run(s, actions))
    decreases |actions|
  {
    if actions != [] {
      var before, a := Run(s, actions[..|actions| - 1]), actions[|actions| - 1];
      RunAccounted(s, actions[..|actions| - 1]);
      StepAccounted(before, a);
      if Queues(s) { StepQueues(before, a); }
    }
  }

  /** The bytes of the chunks in flight never exceed the bound, and no weight is ever given
      back twice, whoever fails, waits or leaves. */
  lemma MemoryBound(s: State, actions: seq<Action>)
    requires Accounted(s)
    ensures var t := Run(s, actions);
            && Total(Lengths(t.reqs)) <= t.held <= s.capacity
            && forall r | r in t.reqs :: t.reqs[r].releases <= 1
  {
    RunAccounted(s, actions);
    var t := Run(s, actions);
    BytesFit(t.reqs);
    forall r | r in t.reqs ensures t.reqs[r].releases <= 1 { assert Fair(t.reqs[r]); }
  }

  lemma BytesFit(reqs: map<Id, Req>)
    requires forall r | r in reqs :: Fair(reqs[r])
    ensures Total(Lengths(reqs)) <= Total(Weights(reqs))
  {
    var lengths := Lengths(reqs);
    var carried := map r | r in lengths && lengths[r] > 0 :: lengths[r];
    DropZeros(lengths);
    forall r | r in carried ensures r in Weights(reqs) && carried[r] <= Weights(reqs)[r] { assert Fair(reqs[r]); }
    TotalMono(carried, Weights(reqs));
  }

  // ---------- the queue ----------

  /** The queue holds each queued request once, and no more workers run than there are. */
  ghost predicate Queues(s: State) {
    && |s.queue| <= s.queueSize && |RunningIds(s.reqs)| <= s.workers
    && (forall i, j | 0 <= i < j < |s.queue| :: s.queue[i] != s.queue[j])
    && (forall r :: r in s.queue <==> r in s.reqs && s.reqs[r].phase.Queued?)
  }

  lemma RunningMoved(reqs: map<Id, Req>, r: Id, q: Req)
    requires r in reqs
    ensures q.phase.Running? && !reqs[r].phase.Running? ==> |RunningIds(reqs[r := q])| == |RunningIds(reqs)| + 1
    ensures !q.phase.Running? || reqs[r].phase.Running? ==> |RunningIds(reqs[r := q])| <= |RunningIds(reqs)|
  {
    var before, after := RunningIds(reqs), RunningIds(reqs[r := q]);
    if q.phase.Running? && !reqs[r].phase.Running? {
      assert after == before + {r};
    } else if !q.phase.Running? && reqs[r].phase.Running? {
      assert before == after + {r};
    } else {
      assert after == before;
    }
  }

  lemma StepQueues(s: State, a: Action)
    requires Queues(s)
    ensures Queues(Apply(s, a))
  {
    var s' := Apply(s, a);
    if s' != s {
      var r := if a.Take? then s.queue[0] else a.r;
      RunningMoved(s.reqs, r, s'.reqs[r]);
      if a.Take? {
        assert s.queue == [r] + s'.queue;
        assert r !in s'.queue;
      }
    }
  }

  // ---------- what is lost ----------

  function LeakedWeights(reqs: map<Id, Req>): map<Id, nat> {
    map r | r in reqs && reqs[r].phase.Leaked? :: reqs[r].weight
  }

  lemma LeaksStay(s: State, a: Action)
    ensures Total(LeakedWeights(Apply(s, a).reqs)) >= Total(LeakedWeights(s.reqs))
  {
    if Apply(s, a) != s {
      Effect(s, a);
      TotalMono(LeakedWeights(s.reqs), LeakedWeights(Apply(s, a).reqs));
    }
  }

  /** A request that does not fit beside what has leaked cannot be let in. */
  lemma NoRoom(s: State, a: Action, r: Id)
    requires Accounted(s) && r in s.reqs && (s.reqs[r].phase.Arrived? || s.reqs[r].phase.Refused?)
    requires Total(LeakedWeights(s.reqs)) + s.reqs[r].weight > s.capacity
    ensures var t := Apply(s, a);
            r in t.reqs && t.reqs[r].weight == s.reqs[r].weight
            && (t.reqs[r].phase.Arrived? || t.reqs[r].phase.Refused?)
  {
    TotalMono(LeakedWeights(s.reqs), Weights(s.reqs));
    if Apply(s, a) != s && Actor(s, a) != r { Effect(s, a); }
  }

  /** Weights lost on an early return never come back: a request that does not fit beside them
      is never let in, in any run. */
  lemma {:induction false} LeaksStarve(s: State, actions: seq<Action>, r: Id)
    requires Accounted(s) && r in s.reqs && s.reqs[r].phase.Arrived?
    requires Total(LeakedWeights(s.reqs)) + s.reqs[r].weight > s.capacity
    ensures var t := Run(s, actions);
            && r in t.reqs && t.reqs[r].weight == s.reqs[r].weight
            && (t.reqs[r].phase.Arrived? || t.reqs[r].phase.Refused?)
            && Total(LeakedWeights(t.reqs)) >= Total(LeakedWeights(s.reqs))
    decreases |actions|
  {
    if actions != [] {
      var before, a := Run(s, actions[..|actions| - 1]), actions[|actions| - 1];
      LeaksStarve(s, actions[..|actions| - 1], r);
      RunAccounted(s, actions[..|actions| - 1]);
      LeaksStay(before, a);
      NoRoom(before, a, r);
    }
  }
}
