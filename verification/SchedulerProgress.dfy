/** What the scheduler's invariant gives: first come first served, limits, and the end of all work. */
module SchedulerProgress {
  import opened SchedulerModel

  // ---------- what every run promises ----------

  /** Whatever tokens are sampled and whatever else runs in the batch, the result of a request is all but the last
      of the tokens sampled for it. None of them is end-of-sequence or zero, and the last one, which ended the
      request, is, or came when the limit was reached. */
  lemma ResultsAreOutputs(cfg: Config, ops: seq<Op>, b: BatchResult)
    requires b in Run(cfg, ops).completed || b in Run(cfg, ops).taken
    ensures var s := Run(cfg, ops);
      && 1 <= b.id <= |s.submitted| == |s.offered|
      && b.tokens == Output(s.offered[b.id - 1], s.submitted[b.id - 1].maxTokens, cfg.eos)
      && b.tokenCount == |b.tokens| <= s.submitted[b.id - 1].maxTokens
      && b.promptTokens == |s.submitted[b.id - 1].prompt|
      && (forall t | t in b.tokens :: t != cfg.eos && t != 0)
      && var o := s.offered[b.id - 1];
         && |o| > 0 && b.tokens == o[..|o| - 1]
         && (o[|o| - 1] == cfg.eos || o[|o| - 1] == 0 || |b.tokens| == s.submitted[b.id - 1].maxTokens)
  {
    hide Run, QueueOk, ActiveOk, Partitioned, Output;
    var s := Run(cfg, ops);
    RunKeeps(cfg, ops);
    assert ResultOk(b, s, cfg);
    OutputMeaning(s.offered[b.id - 1], s.submitted[b.id - 1].maxTokens, cfg.eos);
  }

  /** Every submitted id is queued, active, completed or taken, in one of these lists and once. */
  lemma OnePlace(cfg: Config, ops: seq<Op>, id: RequestId)
    ensures Places(Run(cfg, ops), id) == if 1 <= id < Run(cfg, ops).nextId then 1 else 0
    ensures Run(cfg, ops).totalRequests == Run(cfg, ops).nextId - 1
    ensures Run(cfg, ops).totalTokens == |AllTokens(Run(cfg, ops).completed)| + |AllTokens(Run(cfg, ops).taken)|
    ensures |Run(cfg, ops).active| <= cfg.maxBatch
  {
    RunKeeps(cfg, ops);
    TokensCounted(Run(cfg, ops), cfg);
  }

  lemma TokensCounted(s: State, cfg: Config)
    requires ResultsOk(s, cfg)
    ensures s.totalTokens == |AllTokens(s.completed)| + |AllTokens(s.taken)|
  {
    hide Output;
    forall b | b in s.completed || b in s.taken ensures b.tokenCount == |b.tokens| { assert ResultOk(b, s, cfg); }
    hide ResultOk;
    CountIsLength(s.completed);
    CountIsLength(s.taken);
  }

  /** The tokens of some results, joined. */
  function AllTokens(rs: seq<BatchResult>): seq<Token> {
    if rs == [] then [] else AllTokens(rs[..|rs| - 1]) + rs[|rs| - 1].tokens
  }

  lemma {:induction false} CountIsLength(rs: seq<BatchResult>)
    requires forall b | b in rs :: b.tokenCount == |b.tokens|
    ensures CountTokens(rs) == |AllTokens(rs)|
  {
    if rs != [] { CountIsLength(rs[..|rs| - 1]); }
  }

  /** First come, first served: when a request has left the queue, so has every earlier one. */
  lemma FirstComeFirstServed(cfg: Config, ops: seq<Op>, first: RequestId, second: RequestId)
    requires 1 <= first < second < Run(cfg, ops).nextId
    requires !IsActive(Run(cfg, ops).queue, second)
    ensures !IsActive(Run(cfg, ops).queue, first)
  {
    hide Inv;
    var s := Run(cfg, ops);
    RunKeeps(cfg, ops);
    if IsActive(s.queue, first) {
      QueueIds(s, cfg, first);
      QueueIds(s, cfg, second);
    }
  }

  /** The queue holds the newest ids, all of them from some id on. */
  lemma QueueIds(s: State, cfg: Config, id: RequestId)
    requires Inv(s, cfg)
    ensures IsActive(s.queue, id) <==> s.nextId - |s.queue| <= id < s.nextId
  {
    var low := s.nextId - |s.queue|;
    if low <= id < s.nextId { assert s.queue[id - low].id == id; }
  }

  // ---------- all work ends ----------

  /** The tokens a request may still produce, and the step that ends it. */
  function Left(r: Request): int { r.maxTokens - |r.generated| + 1 }

  function Remaining(a: seq<Request>): int {
    if a == [] then 0 else Remaining(a[..|a| - 1]) + Left(a[|a| - 1])
  }

  function Measure(s: State): int { Remaining(s.queue) + Remaining(s.active) }

  function Limits(a: seq<Request>): int { if a == [] then 0 else Limits(a[..|a| - 1]) + a[|a| - 1].maxTokens }

  function Produced(a: seq<Request>): int { if a == [] then 0 else Produced(a[..|a| - 1]) + |a[|a| - 1].generated| }

  /** The measure of some requests: their limits less the tokens they have, and one for each. */
  lemma {:induction false} RemainingIs(a: seq<Request>)
    ensures Remaining(a) == Limits(a) - Produced(a) + |a|
  {
    if a != [] { RemainingIs(a[..|a| - 1]); }
  }

  lemma {:induction false} RemainingOf(a: seq<Request>, b: seq<Request>)
    ensures Remaining(a + b) == Remaining(a) + Remaining(b)
  {
    if b == [] {
      assert a + b == a;
    } else {
      RemainingOf(a, b[..|b| - 1]);
      assert (a + b)[..|a + b| - 1] == a + b[..|b| - 1];
    }
  }

  lemma {:induction false} SameRemaining(a: seq<Request>, b: seq<Request>)
    requires |a| == |b| && forall i | 0 <= i < |a| :: Left(a[i]) == Left(b[i])
    ensures Remaining(a) == Remaining(b)
  {
    if a != [] { SameRemaining(a[..|a| - 1], b[..|a| - 1]); }
  }

  lemma {:induction false} RemainingPositive(a: seq<Request>)
    requires forall i | 0 <= i < |a| :: Left(a[i]) >= 1
    ensures Remaining(a) >= |a|
  {
    if a != [] { RemainingPositive(a[..|a| - 1]); }
  }

  lemma PromotedRemaining(s: State, cfg: Config)
    ensures var (q, a) := Promoted(s.queue, s.active, cfg.maxBatch);
      Remaining(q) + Remaining(a) == Measure(s)
  {
    hide Remaining;
    PromotedIs(s.queue, s.active, cfg.maxBatch);
    var k := Space(s.queue, s.active, cfg.maxBatch);
    RemainingOf(s.queue[..k], s.queue[k..]);
    assert s.queue[..k] + s.queue[k..] == s.queue;
    RemainingOf(s.active, Activated(s.queue[..k]));
    SameRemaining(s.queue[..k], Activated(s.queue[..k]));
  }

  /** A request that goes on has one token less to go; one that ends had at least its last step to go. */
  predicate OneLess(r: Request, w: Request) {
    if w.done then Left(r) >= 1 else Left(w) == Left(r) - 1
  }

  lemma {:induction false} KeptRemaining(a: seq<Request>, w: seq<Request>)
    requires |a| == |w| && forall i | 0 <= i < |a| :: OneLess(a[i], w[i])
    ensures Remaining(Kept(w)) <= Remaining(a) - |a|
  {
    if a != [] {
      var n := |a| - 1;
      KeptRemaining(a[..n], w[..n]);
      assert OneLess(a[n], w[n]);
      if !w[n].done { RemainingOf(Kept(w[..n]), [w[n]]); }
    }
  }

  lemma LeftPositive(r: Request, s: State, cfg: Config)
    requires RequestOk(r, s, cfg)
    ensures Left(r) >= 1
  {
  }

  lemma DecodeOneLess(r: Request, s: State, cfg: Config, t: Token)
    requires Ready(r, s, cfg)
    ensures OneLess(r, Decode(Prefill(r), t, cfg.eos))
  {
    LeftPositive(r, s, cfg);
  }

  /** An iteration brings the end nearer by at least one for every active request. */
  lemma StepProgress(s: State, cfg: Config, sample: RequestId -> Token)
    requires Inv(s, cfg) && Promoted(s.queue, s.active, cfg.maxBatch).1 != []
    ensures Measure(Step(s, cfg, sample)) <= Measure(s) - |Promoted(s.queue, s.active, cfg.maxBatch).1|
  {
    hide Inv, Promoted, Worked, Ready, Prefill, Decode, Kept, Finished, Offer, Remaining, CountTokens;
    var (q, a) := Promoted(s.queue, s.active, cfg.maxBatch);
    var w := Worked(s, cfg, sample);
    PromotedOk(s, cfg);
    WorkedIs(s, cfg, sample, 0);
    forall i | 0 <= i < |a| ensures OneLess(a[i], w[i]) {
      WorkedIs(s, cfg, sample, i);
      DecodeOneLess(a[i], s, cfg, sample(a[i].id));
    }
    KeptRemaining(a, w);
    PromotedRemaining(s, cfg);
  }

  lemma MeasureBounds(s: State, cfg: Config)
    requires Inv(s, cfg)
    ensures Measure(s) >= 0 && (HasWork(s) <==> Measure(s) > 0)
  {
    forall i | 0 <= i < |s.queue| ensures Left(s.queue[i]) >= 1 { LeftPositive(s.queue[i], s, cfg); }
    forall i | 0 <= i < |s.active| ensures Left(s.active[i]) >= 1 { LeftPositive(s.active[i], s, cfg); }
    RemainingPositive(s.queue);
    RemainingPositive(s.active);
  }

  /** Someone is active in every iteration exactly if there is work and the batch has a place. */
  lemma SomeActive(s: State, cfg: Config)
    requires Inv(s, cfg)
    ensures Promoted(s.queue, s.active, cfg.maxBatch).1 != [] <==> HasWork(s) && cfg.maxBatch >= 1
  {
    PromotedIs(s.queue, s.active, cfg.maxBatch);
  }

  ghost function AfterSteps(s: State, cfg: Config, samples: nat -> RequestId -> Token, n: nat): State {
    if n == 0 then s else Step(AfterSteps(s, cfg, samples, n - 1), cfg, samples(n))
  }

  lemma {:induction false} StepsProgress(s: State, cfg: Config, samples: nat -> RequestId -> Token, n: nat)
    requires Inv(s, cfg)
    ensures Inv(AfterSteps(s, cfg, samples, n), cfg)
    ensures cfg.maxBatch >= 1 && HasWork(AfterSteps(s, cfg, samples, n)) ==>
      Measure(AfterSteps(s, cfg, samples, n)) <= Measure(s) - n
    ensures cfg.maxBatch == 0 ==> AfterSteps(s, cfg, samples, n) == s
  {
    hide Inv, Step, Measure, Promoted;
    if n > 0 {
      var before := AfterSteps(s, cfg, samples, n - 1);
      StepsProgress(s, cfg, samples, n - 1);
      StepKeeps(before, cfg, samples(n));
      SomeActive(before, cfg);
      if Promoted(before.queue, before.active, cfg.maxBatch).1 == [] {
        StepIdle(before, cfg, samples(n));
      } else {
        StepProgress(before, cfg, samples(n));
      }
    }
  }

  /** From any reachable state and for any sampled tokens, all work is finished after `Measure(s)` steps or more,
      exactly if the batch has at least one place or there was no work. */
  lemma AllWorkFinishes(s: State, cfg: Config, samples: nat -> RequestId -> Token, n: nat)
    requires Inv(s, cfg) && n >= Measure(s)
    ensures !HasWork(AfterSteps(s, cfg, samples, n)) <==> cfg.maxBatch >= 1 || !HasWork(s)
  {
    hide Inv, AfterSteps;
    StepsProgress(s, cfg, samples, n);
    MeasureBounds(AfterSteps(s, cfg, samples, n), cfg);
    MeasureBounds(s, cfg);
    if !HasWork(s) { IdleStays(s, cfg, samples, n); }
  }

  lemma {:induction false} IdleStays(s: State, cfg: Config, samples: nat -> RequestId -> Token, n: nat)
    requires !HasWork(s)
    ensures AfterSteps(s, cfg, samples, n) == s
  {
    if n > 0 {
      IdleStays(s, cfg, samples, n - 1);
      StepIdle(s, cfg, samples(n));
    }
  }

  /** When no work is left every request that was ever submitted has exactly one result. */
  lemma AllHaveResults(s: State, cfg: Config, id: RequestId)
    requires Inv(s, cfg) && !HasWork(s) && 1 <= id < s.nextId
    ensures ResultTimes(s.completed, id) + ResultTimes(s.taken, id) == 1
  {
    assert Places(s, id) == 1;
  }
}
