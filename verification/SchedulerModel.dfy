/** The continuous batching scheduler as a state machine. The transformer is left open: at every step any
    token may be sampled for any active request. */
module SchedulerModel {
  import opened Arith

  type RequestId = nat

  type Token = nat

  datatype Phase = Queued | Prefilling | Decoding | Completed

  datatype Request = Request(
    id: RequestId, prompt: seq<Token>, maxTokens: nat, state: Phase, position: nat, generated: seq<Token>, done: bool)

  datatype BatchResult = BatchResult(id: RequestId, tokens: seq<Token>, tokenCount: nat, promptTokens: nat)

  datatype Submission = Submission(prompt: seq<Token>, maxTokens: nat)

  /** `submitted` and `offered` record, for request `i + 1`, what was submitted and the tokens sampled for it
      so far; `taken` the results that were handed out. They only serve to state what the scheduler promises. */
  datatype State = State(
    queue: seq<Request>, active: seq<Request>, completed: seq<BatchResult>, nextId: RequestId,
    totalRequests: nat, totalTokens: nat,
    submitted: seq<Submission>, offered: seq<seq<Token>>, taken: seq<BatchResult>)

  /** The fixed parameters: batch size and end-of-sequence token. */
  datatype Config = Config(maxBatch: nat, eos: Token)

  // ---------- submit ----------

  function NewRequest(id: RequestId, prompt: seq<Token>, maxTokens: nat): Request {
    Request(id, prompt, maxTokens, Queued, 0, [], false)
  }

  function Submitted(s: State, prompt: seq<Token>, maxTokens: nat): State {
    s.(queue := s.queue + [NewRequest(s.nextId, prompt, maxTokens)], nextId := s.nextId + 1,
       totalRequests := s.totalRequests + 1,
       submitted := s.submitted + [Submission(prompt, maxTokens)], offered := s.offered + [[]])
  }

  // ---------- step ----------

  /** Requests move from the queue to the active list while there is space. */
  function Promoted(queue: seq<Request>, active: seq<Request>, maxBatch: nat): (seq<Request>, seq<Request>)
    decreases |queue|
  {
    if |active| < maxBatch && queue != [] then
      Promoted(queue[1..], active + [queue[0].(state := Prefilling)], maxBatch)
    else (queue, active)
  }

  function Prefill(r: Request): Request {
    if r.state == Prefilling then r.(position := |r.prompt|, state := Decoding) else r
  }

  predicate Stops(t: Token, eos: Token) { t == eos || t == 0 }

  function Decode(r: Request, t: Token, eos: Token): Request {
    if r.state != Decoding then r
    else if Stops(t, eos) || |r.generated| >= r.maxTokens then r.(done := true)
    else r.(generated := r.generated + [t], position := r.position + 1)
  }

  function Prefilled(active: seq<Request>): (r: seq<Request>)
    ensures |r| == |active|
  {
    seq(|active|, i requires 0 <= i < |active| => Prefill(active[i]))
  }

  function Decoded(active: seq<Request>, sample: RequestId -> Token, eos: Token): (r: seq<Request>)
    ensures |r| == |active|
  {
    seq(|active|, i requires 0 <= i < |active| => Decode(active[i], sample(active[i].id), eos))
  }

  function ResultOf(r: Request): BatchResult { BatchResult(r.id, r.generated, |r.generated|, |r.prompt|) }

  function Kept(a: seq<Request>): seq<Request> {
    if a == [] then [] else
      var n := |a| - 1;
      if a[n].done then Kept(a[..n]) else Kept(a[..n]) + [a[n]]
  }

  function Finished(a: seq<Request>): seq<BatchResult> {
    if a == [] then [] else
      var n := |a| - 1;
      if a[n].done then Finished(a[..n]) + [ResultOf(a[n])] else Finished(a[..n])
  }

  function CountTokens(rs: seq<BatchResult>): nat {
    if rs == [] then 0 else CountTokens(rs[..|rs| - 1]) + rs[|rs| - 1].tokenCount
  }

  predicate IsActive(a: seq<Request>, id: RequestId) { exists i | 0 <= i < |a| :: a[i].id == id }

  /** Every active request is offered its token. */
  ghost function Offer(offered: seq<seq<Token>>, a: seq<Request>, sample: RequestId -> Token): (r: seq<seq<Token>>)
    ensures |r| == |offered|
  {
    seq(|offered|, k requires 0 <= k < |offered| =>
      if IsActive(a, k + 1) then offered[k] + [sample(k + 1)] else offered[k])
  }

  /** The active list after promotion, prefill and decoding, before finished requests leave it. */
  function Worked(s: State, cfg: Config, sample: RequestId -> Token): seq<Request> {
    Decoded(Prefilled(Promoted(s.queue, s.active, cfg.maxBatch).1), sample, cfg.eos)
  }

  /** One iteration of the scheduler. */
  ghost function Step(s: State, cfg: Config, sample: RequestId -> Token): State {
    var (queue, active) := Promoted(s.queue, s.active, cfg.maxBatch);
    if active == [] then s.(queue := queue, active := active)
    else
      var worked := Worked(s, cfg, sample);
      s.(queue := queue, active := Kept(worked), completed := s.completed + Finished(worked),
         totalTokens := s.totalTokens + CountTokens(Finished(worked)), offered := Offer(s.offered, active, sample))
  }

  // ---------- taking results ----------

  /** The position of the first result of a request, or the length. */
  function PositionIn(rs: seq<BatchResult>, id: RequestId): (p: nat)
    ensures p <= |rs| && (p < |rs| ==> rs[p].id == id) && forall i | 0 <= i < p :: rs[i].id != id
  {
    if rs == [] || rs[0].id == id then 0 else 1 + PositionIn(rs[1..], id)
  }

  function Taken(s: State, id: RequestId): State {
    var p := PositionIn(s.completed, id);
    if p == |s.completed| then s
    else s.(completed := s.completed[..p] + s.completed[p + 1..], taken := s.taken + [s.completed[p]])
  }

  // ---------- runs ----------

  datatype Op = Submit(prompt: seq<Token>, maxTokens: nat) | DoStep(sample: RequestId -> Token) | Take(id: RequestId)

  ghost function Do(s: State, cfg: Config, op: Op): State {
    match op
    case Submit(prompt, maxTokens) => Submitted(s, prompt, maxTokens)
    case DoStep(sample) => Step(s, cfg, sample)
    case Take(id) => Taken(s, id)
  }

  function Init(): State { State([], [], [], 1, 0, 0, [], [], []) }

  ghost function Run(cfg: Config, ops: seq<Op>): State {
    if ops == [] then Init() else Do(Run(cfg, ops[..|ops| - 1]), cfg, ops[|ops| - 1])
  }

  predicate HasWork(s: State) { s.queue != [] || s.active != [] }

  // ---------- the invariant ----------

  /** How many requests of a list have an id. */
  function Times(a: seq<Request>, id: RequestId): nat {
    if a == [] then 0 else Times(a[..|a| - 1], id) + if a[|a| - 1].id == id then 1 else 0
  }

  /** How many results of a list have an id. */
  function ResultTimes(rs: seq<BatchResult>, id: RequestId): nat {
    if rs == [] then 0 else ResultTimes(rs[..|rs| - 1], id) + if rs[|rs| - 1].id == id then 1 else 0
  }

  /** The part of the sampled tokens that a request outputs: up to the first stop token, at most `max`. */
  function Output(offered: seq<Token>, max: nat, eos: Token): (r: seq<Token>)
    ensures |r| <= max && |r| <= |offered|
  {
    if offered == [] || max == 0 || Stops(offered[0], eos) then []
    else [offered[0]] + Output(offered[1..], max - 1, eos)
  }

  /** A request that is queued or active agrees with its records. */
  predicate RequestOk(r: Request, s: State, cfg: Config) {
    && 1 <= r.id <= |s.submitted| == |s.offered|
    && !r.done
    && r.prompt == s.submitted[r.id - 1].prompt && r.maxTokens == s.submitted[r.id - 1].maxTokens
    && r.generated == s.offered[r.id - 1] == Output(s.offered[r.id - 1], r.maxTokens, cfg.eos)
  }

  /** A result agrees with its records: all output tokens, then one token more that ended the request. */
  predicate ResultOk(b: BatchResult, s: State, cfg: Config) {
    && 1 <= b.id <= |s.submitted| == |s.offered|
    && b.promptTokens == |s.submitted[b.id - 1].prompt|
    && b.tokens == Output(s.offered[b.id - 1], s.submitted[b.id - 1].maxTokens, cfg.eos)
    && b.tokenCount == |b.tokens| == |s.offered[b.id - 1]| - 1
  }

  ghost predicate QueueOk(s: State, cfg: Config) {
    && |s.queue| < s.nextId
    && forall i | 0 <= i < |s.queue| ::
      s.queue[i].id == s.nextId - |s.queue| + i && s.queue[i].state == Queued && s.queue[i].generated == []
      && s.queue[i].position == 0 && RequestOk(s.queue[i], s, cfg)
  }

  ghost predicate ActiveOk(s: State, cfg: Config) {
    && |s.active| <= cfg.maxBatch
    && (forall i | 0 <= i < |s.active| ::
      s.active[i].id < s.nextId - |s.queue| && s.active[i].state == Decoding
      && s.active[i].position == |s.active[i].prompt| + |s.active[i].generated|
      && RequestOk(s.active[i], s, cfg))
    && (forall i, j | 0 <= i < j < |s.active| :: s.active[i].id < s.active[j].id)
  }

  ghost predicate ResultsOk(s: State, cfg: Config) {
    && (forall i | 0 <= i < |s.completed| :: ResultOk(s.completed[i], s, cfg))
    && (forall i | 0 <= i < |s.taken| :: ResultOk(s.taken[i], s, cfg))
    && s.totalTokens == CountTokens(s.completed) + CountTokens(s.taken)
  }

  /** In how many places an id occurs: queued, active, completed or taken. */
  function Places(s: State, id: RequestId): nat {
    Times(s.queue, id) + Times(s.active, id) + ResultTimes(s.completed, id) + ResultTimes(s.taken, id)
  }

  /** Every submitted id, and no other, is in exactly one place. */
  ghost predicate Partitioned(s: State) {
    forall id: RequestId :: Places(s, id) == if 1 <= id < s.nextId then 1 else 0
  }

  ghost predicate Inv(s: State, cfg: Config) {
    && s.nextId >= 1 && |s.submitted| == |s.offered| == s.totalRequests == s.nextId - 1
    && QueueOk(s, cfg) && ActiveOk(s, cfg) && ResultsOk(s, cfg) && Partitioned(s)
  }

  // ---------- lists ----------

  lemma {:induction false} TimesOf(a: seq<Request>, b: seq<Request>, id: RequestId)
    ensures Times(a + b, id) == Times(a, id) + Times(b, id)
  {
    if b == [] {
      assert a + b == a;
    } else {
      var n := |b| - 1;
      TimesOf(a, b[..n], id);
      assert (a + b)[..|a + b| - 1] == a + b[..n];
    }
  }

  lemma {:induction false} ResultTimesOf(a: seq<BatchResult>, b: seq<BatchResult>, id: RequestId)
    ensures ResultTimes(a + b, id) == ResultTimes(a, id) + ResultTimes(b, id)
  {
    if b == [] {
      assert a + b == a;
    } else {
      var n := |b| - 1;
      ResultTimesOf(a, b[..n], id);
      assert (a + b)[..|a + b| - 1] == a + b[..n];
    }
  }

  lemma {:induction false} CountOf(a: seq<BatchResult>, b: seq<BatchResult>)
    ensures CountTokens(a + b) == CountTokens(a) + CountTokens(b)
  {
    if b == [] {
      assert a + b == a;
    } else {
      var n := |b| - 1;
      CountOf(a, b[..n]);
      assert (a + b)[..|a + b| - 1] == a + b[..n];
    }
  }

  /** Equal ids position by position. */
  lemma {:induction false} SameIds(a: seq<Request>, b: seq<Request>, id: RequestId)
    requires |a| == |b| && forall i | 0 <= i < |a| :: a[i].id == b[i].id
    ensures Times(a, id) == Times(b, id)
  {
    if a != [] { SameIds(a[..|a| - 1], b[..|a| - 1], id); }
  }

  /** Finished and kept requests together are all requests. */
  lemma {:induction false} SplitTimes(a: seq<Request>, id: RequestId)
    ensures Times(Kept(a), id) + ResultTimes(Finished(a), id) == Times(a, id)
  {
    if a != [] { SplitTimes(a[..|a| - 1], id); }
  }

  lemma {:induction false} KeptOrdered(a: seq<Request>)
    requires forall i, j | 0 <= i < j < |a| :: a[i].id < a[j].id
    ensures forall i, j | 0 <= i < j < |Kept(a)| :: Kept(a)[i].id < Kept(a)[j].id
    ensures forall i | 0 <= i < |Kept(a)| :: Kept(a)[i] in a && !Kept(a)[i].done
  {
    if a != [] {
      var n := |a| - 1;
      KeptOrdered(a[..n]);
      assert forall r | r in a[..n] :: r in a && r.id < a[n].id;
    }
  }

  lemma {:induction false} FinishedFrom(a: seq<Request>)
    ensures forall b | b in Finished(a) :: exists r :: r in a && r.done && b == ResultOf(r)
  {
    if a != [] {
      var n := |a| - 1;
      FinishedFrom(a[..n]);
      forall b | b in Finished(a) ensures exists r :: r in a && r.done && b == ResultOf(r) {
        if b in Finished(a[..n]) {
          var r :| r in a[..n] && r.done && b == ResultOf(r);
          assert r in a;
        } else {
          assert a[n] in a;
        }
      }
    }
  }

  lemma {:induction false} KeptLength(a: seq<Request>)
    ensures |Kept(a)| + |Finished(a)| == |a|
  {
    if a != [] { KeptLength(a[..|a| - 1]); }
  }

  /** How many requests are promoted. */
  function Space(queue: seq<Request>, active: seq<Request>, maxBatch: nat): (k: nat)
    ensures k <= |queue|
  {
    if |active| >= maxBatch then 0 else Min(maxBatch - |active|, |queue|)
  }

  function Activated(queue: seq<Request>): (r: seq<Request>)
    ensures |r| == |queue|
  {
    seq(|queue|, i requires 0 <= i < |queue| => queue[i].(state := Prefilling))
  }

  /** Promotion takes the oldest requests, as many as there is space for. */
  lemma {:induction false} PromotedIs(queue: seq<Request>, active: seq<Request>, maxBatch: nat)
    ensures var k := Space(queue, active, maxBatch);
      Promoted(queue, active, maxBatch) == (queue[k..], active + Activated(queue[..k]))
    decreases |queue|
  {
    var k := Space(queue, active, maxBatch);
    if |active| < maxBatch && queue != [] {
      var first := queue[0].(state := Prefilling);
      PromotedIs(queue[1..], active + [first], maxBatch);
      assert queue[1..][k - 1..] == queue[k..];
      assert active + [first] + Activated(queue[1..][..k - 1]) == active + Activated(queue[..k]);
    } else {
      assert queue[0..] == queue && active + Activated(queue[..0]) == active;
    }
  }

  // ---------- the tokens of one request ----------

  /** One token more: it is output unless a stop token or the limit came first. */
  lemma {:induction false} OutputNext(offered: seq<Token>, t: Token, max: nat, eos: Token)
    requires Output(offered, max, eos) == offered
    ensures Output(offered + [t], max, eos) ==
      if Stops(t, eos) || |offered| >= max then offered else offered + [t]
  {
    if offered == [] {
      assert (offered + [t])[1..] == [];
    } else {
      assert max > 0 && !Stops(offered[0], eos);
      assert Output(offered[1..], max - 1, eos) == offered[1..];
      OutputNext(offered[1..], t, max - 1, eos);
      assert (offered + [t])[1..] == offered[1..] + [t];
    }
  }

  /** What the output is: the offered tokens before the first end-of-sequence or zero token, or the first `max`. */
  lemma {:induction false} OutputMeaning(offered: seq<Token>, max: nat, eos: Token)
    ensures var k := |Output(offered, max, eos)|;
      && k <= |offered| && k <= max && Output(offered, max, eos) == offered[..k]
      && (forall i | 0 <= i < k :: offered[i] != eos && offered[i] != 0)
      && (k < |offered| ==> offered[k] == eos || offered[k] == 0 || k == max)
  {
    if offered != [] && max > 0 && !Stops(offered[0], eos) {
      OutputMeaning(offered[1..], max - 1, eos);
      assert offered == [offered[0]] + offered[1..];
    }
  }

  // ---------- every operation keeps the invariant ----------

  lemma {:induction false} TimesZero(a: seq<Request>, id: RequestId)
    ensures Times(a, id) > 0 <==> IsActive(a, id)
  {
    if a != [] {
      var n := |a| - 1;
      TimesZero(a[..n], id);
      if a[n].id == id { assert IsActive(a, id); }
      if IsActive(a[..n], id) {
        var i :| 0 <= i < n && a[..n][i].id == id;
        assert a[i].id == id;
      }
      if IsActive(a, id) && a[n].id != id {
        var i :| 0 <= i < |a| && a[i].id == id;
        assert a[..n][i].id == id;
      }
    }
  }

  lemma {:induction false} ResultTimesPositive(rs: seq<BatchResult>, i: nat)
    requires i < |rs|
    ensures ResultTimes(rs, rs[i].id) > 0
  {
    if i < |rs| - 1 { ResultTimesPositive(rs[..|rs| - 1], i); }
  }

  lemma RequestFrame(r: Request, s: State, s': State, cfg: Config)
    requires RequestOk(r, s, cfg)
    requires |s.submitted| <= |s'.submitted| == |s'.offered| && s'.submitted[..|s.submitted|] == s.submitted
    requires s'.offered[r.id - 1] == s.offered[r.id - 1]
    ensures RequestOk(r, s', cfg)
  {
    assert s'.submitted[r.id - 1] == s'.submitted[..|s.submitted|][r.id - 1];
  }

  lemma ResultFrame(b: BatchResult, s: State, s': State, cfg: Config)
    requires ResultOk(b, s, cfg)
    requires |s.submitted| <= |s'.submitted| == |s'.offered| && s'.submitted[..|s.submitted|] == s.submitted
    requires s'.offered[b.id - 1] == s.offered[b.id - 1]
    ensures ResultOk(b, s', cfg)
  {
    assert s'.submitted[b.id - 1] == s'.submitted[..|s.submitted|][b.id - 1];
  }

  lemma InitInv(cfg: Config)
    ensures Inv(Init(), cfg)
  {
  }

  lemma SubmitRequests(s: State, cfg: Config, prompt: seq<Token>, maxTokens: nat)
    requires Inv(s, cfg)
    ensures QueueOk(Submitted(s, prompt, maxTokens), cfg) && ActiveOk(Submitted(s, prompt, maxTokens), cfg)
  {
    hide ResultsOk, Partitioned, RequestOk;
    var s' := Submitted(s, prompt, maxTokens);
    forall i | 0 <= i < |s.queue| ensures RequestOk(s.queue[i], s', cfg) {
      SubmitFrame(s.queue[i], s, cfg, prompt, maxTokens);
    }
    forall i | 0 <= i < |s.active| ensures RequestOk(s.active[i], s', cfg) {
      SubmitFrame(s.active[i], s, cfg, prompt, maxTokens);
    }
    NewRequestOk(s, cfg, prompt, maxTokens);
  }

  lemma SubmitFrame(r: Request, s: State, cfg: Config, prompt: seq<Token>, maxTokens: nat)
    requires RequestOk(r, s, cfg)
    ensures RequestOk(r, Submitted(s, prompt, maxTokens), cfg)
  {
    RequestFrame(r, s, Submitted(s, prompt, maxTokens), cfg);
  }

  lemma NewRequestOk(s: State, cfg: Config, prompt: seq<Token>, maxTokens: nat)
    requires |s.submitted| == |s.offered| == s.nextId - 1
    ensures RequestOk(NewRequest(s.nextId, prompt, maxTokens), Submitted(s, prompt, maxTokens), cfg)
  {
  }

  lemma SubmitResults(s: State, cfg: Config, prompt: seq<Token>, maxTokens: nat)
    requires ResultsOk(s, cfg)
    ensures ResultsOk(Submitted(s, prompt, maxTokens), cfg)
  {
    hide ResultOk;
    var s' := Submitted(s, prompt, maxTokens);
    forall i | 0 <= i < |s.completed| ensures ResultOk(s.completed[i], s', cfg) {
      SubmitResultFrame(s.completed[i], s, cfg, prompt, maxTokens);
    }
    forall i | 0 <= i < |s.taken| ensures ResultOk(s.taken[i], s', cfg) {
      SubmitResultFrame(s.taken[i], s, cfg, prompt, maxTokens);
    }
  }

  lemma SubmitResultFrame(b: BatchResult, s: State, cfg: Config, prompt: seq<Token>, maxTokens: nat)
    requires ResultOk(b, s, cfg)
    ensures ResultOk(b, Submitted(s, prompt, maxTokens), cfg)
  {
    ResultFrame(b, s, Submitted(s, prompt, maxTokens), cfg);
  }

  lemma SubmitKeeps(s: State, cfg: Config, prompt: seq<Token>, maxTokens: nat)
    requires Inv(s, cfg)
    ensures Inv(Submitted(s, prompt, maxTokens), cfg)
  {
    hide QueueOk, ActiveOk, ResultsOk;
    var s' := Submitted(s, prompt, maxTokens);
    SubmitRequests(s, cfg, prompt, maxTokens);
    SubmitResults(s, cfg, prompt, maxTokens);
    forall id: RequestId ensures Places(s', id) == if 1 <= id < s'.nextId then 1 else 0 {
      assert Places(s, id) == if 1 <= id < s.nextId then 1 else 0;
      TimesOf(s.queue, [NewRequest(s.nextId, prompt, maxTokens)], id);
    }
  }

  /** One element moves from one list to the end of another. */
  lemma MovedPlaces(a: seq<BatchResult>, p: nat, b: seq<BatchResult>, id: RequestId)
    requires p < |a|
    ensures ResultTimes(a[..p] + a[p + 1..], id) + ResultTimes(b + [a[p]], id)
      == ResultTimes(a, id) + ResultTimes(b, id)
  {
    assert a == a[..p] + ([a[p]] + a[p + 1..]);
    ResultTimesOf(a[..p], [a[p]] + a[p + 1..], id);
    ResultTimesOf([a[p]], a[p + 1..], id);
    ResultTimesOf(a[..p], a[p + 1..], id);
    ResultTimesOf(b, [a[p]], id);
  }

  lemma MovedTokens(a: seq<BatchResult>, p: nat, b: seq<BatchResult>)
    requires p < |a|
    ensures CountTokens(a[..p] + a[p + 1..]) + CountTokens(b + [a[p]]) == CountTokens(a) + CountTokens(b)
  {
    assert a == a[..p] + ([a[p]] + a[p + 1..]);
    CountOf(a[..p], [a[p]] + a[p + 1..]);
    CountOf([a[p]], a[p + 1..]);
    CountOf(a[..p], a[p + 1..]);
    CountOf(b, [a[p]]);
  }

  lemma TakeKeeps(s: State, cfg: Config, id: RequestId)
    requires Inv(s, cfg)
    ensures Inv(Taken(s, id), cfg)
  {
    hide ResultOk, Output, RequestOk, CountTokens, ResultTimes;
    var p, s' := PositionIn(s.completed, id), Taken(s, id);
    if p < |s.completed| {
      forall i | 0 <= i < |s.completed| ensures ResultOk(s.completed[i], s', cfg) {
        SameRecords(s.completed[i], s, s', cfg);
      }
      forall i | 0 <= i < |s.taken| ensures ResultOk(s.taken[i], s', cfg) { SameRecords(s.taken[i], s, s', cfg); }
      MovedTokens(s.completed, p, s.taken);
      forall i | 0 <= i < |s.queue| ensures RequestOk(s.queue[i], s', cfg) { SameRequest(s.queue[i], s, s', cfg); }
      forall i | 0 <= i < |s.active| ensures RequestOk(s.active[i], s', cfg) { SameRequest(s.active[i], s, s', cfg); }
      forall i: RequestId ensures Places(s', i) == if 1 <= i < s'.nextId then 1 else 0 {
        assert Places(s, i) == if 1 <= i < s.nextId then 1 else 0;
        MovedPlaces(s.completed, p, s.taken, i);
      }
    }
  }

  lemma SameRecords(b: BatchResult, s: State, s': State, cfg: Config)
    requires ResultOk(b, s, cfg) && s'.submitted == s.submitted && s'.offered == s.offered
    ensures ResultOk(b, s', cfg)
  {
  }

  lemma SameRequest(r: Request, s: State, s': State, cfg: Config)
    requires RequestOk(r, s, cfg) && s'.submitted == s.submitted && s'.offered == s.offered
    ensures RequestOk(r, s', cfg)
  {
  }

  /** A request that goes into prefill or decoding. */
  predicate Ready(r: Request, s: State, cfg: Config) {
    && RequestOk(r, s, cfg) && Prefill(r).state == Decoding
    && Prefill(r).position == |r.prompt| + |r.generated|
  }

  /** The active list after promotion. */
  lemma PromotedOk(s: State, cfg: Config)
    requires Inv(s, cfg)
    ensures var (q, a) := Promoted(s.queue, s.active, cfg.maxBatch);
      && |q| <= |s.queue| && q == s.queue[|s.queue| - |q|..]
      && |a| + |q| == |s.active| + |s.queue| && |a| <= cfg.maxBatch
      && (forall i | 0 <= i < |a| :: a[i].id < s.nextId - |q| && Ready(a[i], s, cfg))
      && (forall i, j | 0 <= i < j < |a| :: a[i].id < a[j].id)
      && (a == [] ==> q == s.queue && a == s.active)
  {
    hide Inv, ResultsOk, Partitioned, Output, Ready, RequestOk, Activated, Promoted;
    InvParts(s, cfg);
    PromotedIs(s.queue, s.active, cfg.maxBatch);
    var k := Space(s.queue, s.active, cfg.maxBatch);
    ActivatedReady(s, cfg, k);
    ActiveReady(s, cfg);
  }

  lemma ActivatedReady(s: State, cfg: Config, k: nat)
    requires QueueOk(s, cfg) && k <= |s.queue|
    ensures |Activated(s.queue[..k])| == k
    ensures forall i | 0 <= i < k ::
      Ready(Activated(s.queue[..k])[i], s, cfg) && Activated(s.queue[..k])[i].id == s.nextId - |s.queue| + i
  {
    hide Output;
    forall i | 0 <= i < k ensures Ready(Activated(s.queue[..k])[i], s, cfg) {
      assert Activated(s.queue[..k])[i] == s.queue[i].(state := Prefilling);
    }
  }

  lemma ActiveReady(s: State, cfg: Config)
    requires ActiveOk(s, cfg)
    ensures forall i | 0 <= i < |s.active| :: Ready(s.active[i], s, cfg)
  {
    hide Output;
  }

  lemma InvParts(s: State, cfg: Config)
    requires Inv(s, cfg)
    ensures QueueOk(s, cfg) && ActiveOk(s, cfg) && ResultsOk(s, cfg) && Partitioned(s)
    ensures s.nextId >= 1 && |s.submitted| == |s.offered| == s.totalRequests == s.nextId - 1
  {
  }

  /** Promotion moves ids, it adds and loses none. */
  lemma PromotedTimes(s: State, cfg: Config, id: RequestId)
    ensures var (q, a) := Promoted(s.queue, s.active, cfg.maxBatch);
      Times(q, id) + Times(a, id) == Times(s.queue, id) + Times(s.active, id)
  {
    PromotedIs(s.queue, s.active, cfg.maxBatch);
    var k := Space(s.queue, s.active, cfg.maxBatch);
    TimesOf(s.queue[..k], s.queue[k..], id);
    assert s.queue[..k] + s.queue[k..] == s.queue;
    TimesOf(s.active, Activated(s.queue[..k]), id);
    SameIds(s.queue[..k], Activated(s.queue[..k]), id);
  }

  /** What holds of a request after decoding: it goes on, or it is done and its result is right. */
  predicate AfterDecode(w: Request, s: State, cfg: Config) {
    && (w.done ==> ResultOk(ResultOf(w), s, cfg))
    && (!w.done ==> RequestOk(w, s, cfg) && w.state == Decoding && w.position == |w.prompt| + |w.generated|)
  }

  /** Decoding one token keeps a request in line with its records. */
  lemma DecodeOk(r: Request, s: State, s': State, cfg: Config, t: Token)
    requires Ready(r, s, cfg)
    requires s'.submitted == s.submitted && |s'.offered| == |s.offered|
    requires s'.offered[r.id - 1] == s.offered[r.id - 1] + [t]
    ensures Decode(Prefill(r), t, cfg.eos).id == r.id && AfterDecode(Decode(Prefill(r), t, cfg.eos), s', cfg)
  {
    hide Output;
    OutputNext(s.offered[r.id - 1], t, r.maxTokens, cfg.eos);
  }

  /** Requests that are not active are offered nothing. */
  lemma OfferedOther(s: State, cfg: Config, a: seq<Request>, sample: RequestId -> Token, id: RequestId)
    requires 1 <= id <= |s.offered|
    ensures Offer(s.offered, a, sample)[id - 1] ==
      if IsActive(a, id) then s.offered[id - 1] + [sample(id)] else s.offered[id - 1]
  {
  }

  lemma WorkedIs(s: State, cfg: Config, sample: RequestId -> Token, i: nat)
    requires i < |Promoted(s.queue, s.active, cfg.maxBatch).1|
    ensures var a, w := Promoted(s.queue, s.active, cfg.maxBatch).1, Worked(s, cfg, sample);
      |w| == |a| && w[i] == Decode(Prefill(a[i]), sample(a[i].id), cfg.eos)
  {
    hide Promoted, Decode;
  }

  lemma StepRecords(s: State, cfg: Config, sample: RequestId -> Token)
    requires Promoted(s.queue, s.active, cfg.maxBatch).1 != []
    ensures Step(s, cfg, sample).submitted == s.submitted
    ensures Step(s, cfg, sample).offered == Offer(s.offered, Promoted(s.queue, s.active, cfg.maxBatch).1, sample)
  {
    hide Promoted, Offer, Worked;
  }

  /** What every request in the working list has become. */
  lemma WorkedOk(s: State, cfg: Config, sample: RequestId -> Token, i: nat)
    requires Inv(s, cfg) && i < |Promoted(s.queue, s.active, cfg.maxBatch).1|
    ensures var a, w := Promoted(s.queue, s.active, cfg.maxBatch).1, Worked(s, cfg, sample);
      |w| == |a| && w[i].id == a[i].id && AfterDecode(w[i], Step(s, cfg, sample), cfg)
  {
    hide Inv, Promoted, Worked, Step, Ready, AfterDecode, Decode, Prefill, Offer;
    PromotedOk(s, cfg);
    WorkedIs(s, cfg, sample, i);
    StepRecords(s, cfg, sample);
    var a, r := Promoted(s.queue, s.active, cfg.maxBatch).1, Promoted(s.queue, s.active, cfg.maxBatch).1[i];
    ReadyId(r, s, cfg);
    assert IsActive(a, r.id);
    OfferedOther(s, cfg, a, sample, r.id);
    DecodeOk(r, s, Step(s, cfg, sample), cfg, sample(r.id));
  }

  lemma ReadyId(r: Request, s: State, cfg: Config)
    requires Ready(r, s, cfg)
    ensures 1 <= r.id <= |s.submitted| == |s.offered|
  {
  }

  lemma StepRequests(s: State, cfg: Config, sample: RequestId -> Token)
    requires Inv(s, cfg) && Promoted(s.queue, s.active, cfg.maxBatch).1 != []
    ensures ActiveOk(Step(s, cfg, sample), cfg)
  {
    hide Inv, RequestOk, ResultOk, Output, Offer, Ready, Prefill, Decode, Decoded, Prefilled, Kept, Finished,
         CountTokens;
    var (q, a) := Promoted(s.queue, s.active, cfg.maxBatch);
    var s', w := Step(s, cfg, sample), Worked(s, cfg, sample);
    PromotedOk(s, cfg);
    forall i | 0 <= i < |w|
      ensures w[i].id == a[i].id
      ensures !w[i].done ==> RequestOk(w[i], s', cfg) && w[i].state == Decoding
                             && w[i].position == |w[i].prompt| + |w[i].generated|
    {
      WorkedOk(s, cfg, sample, i);
    }
    KeptOrdered(w);
    KeptLength(w);
  }

  lemma StepQueue(s: State, cfg: Config, sample: RequestId -> Token)
    requires Inv(s, cfg) && Promoted(s.queue, s.active, cfg.maxBatch).1 != []
    ensures QueueOk(Step(s, cfg, sample), cfg)
  {
    hide RequestOk, ResultsOk, Output, Offer, Ready, Worked, Kept, Finished, CountTokens;
    var (q, a) := Promoted(s.queue, s.active, cfg.maxBatch);
    var s' := Step(s, cfg, sample);
    PromotedOk(s, cfg);
    forall i | 0 <= i < |q| ensures RequestOk(q[i], s', cfg) {
      var r := s.queue[|s.queue| - |q| + i];
      assert r == q[i] && !IsActive(a, r.id);
      NotOffered(r, s, cfg, a, sample, s');
    }
  }

  lemma NotOffered(r: Request, s: State, cfg: Config, a: seq<Request>, sample: RequestId -> Token, s': State)
    requires RequestOk(r, s, cfg) && !IsActive(a, r.id)
    requires s'.submitted == s.submitted && s'.offered == Offer(s.offered, a, sample)
    ensures RequestOk(r, s', cfg)
  {
    OfferedOther(s, cfg, a, sample, r.id);
  }

  lemma ResultNotOffered(b: BatchResult, s: State, cfg: Config, a: seq<Request>, sample: RequestId -> Token, s': State)
    requires ResultOk(b, s, cfg) && !IsActive(a, b.id)
    requires s'.submitted == s.submitted && s'.offered == Offer(s.offered, a, sample)
    ensures ResultOk(b, s', cfg)
  {
    OfferedOther(s, cfg, a, sample, b.id);
  }

  /** A request with a result is not active any more. */
  lemma HasResult(s: State, cfg: Config, id: RequestId)
    requires Inv(s, cfg) && ResultTimes(s.completed, id) + ResultTimes(s.taken, id) > 0
    ensures !IsActive(Promoted(s.queue, s.active, cfg.maxBatch).1, id)
  {
    assert Places(s, id) <= 1;
    PromotedTimes(s, cfg, id);
    TimesZero(Promoted(s.queue, s.active, cfg.maxBatch).1, id);
  }

  lemma StepResults(s: State, cfg: Config, sample: RequestId -> Token)
    requires Inv(s, cfg) && Promoted(s.queue, s.active, cfg.maxBatch).1 != []
    ensures ResultsOk(Step(s, cfg, sample), cfg)
  {
    hide Inv, RequestOk, ResultOk, Output, Offer, Ready, Prefill, Decode, Decoded, Prefilled, Kept, Finished,
         CountTokens,
         ResultTimes;
    InvParts(s, cfg);
    var (q, a) := Promoted(s.queue, s.active, cfg.maxBatch);
    var s', w := Step(s, cfg, sample), Worked(s, cfg, sample);
    forall i | 0 <= i < |s.completed| ensures ResultOk(s.completed[i], s', cfg) {
      ResultTimesPositive(s.completed, i);
      HasResult(s, cfg, s.completed[i].id);
      ResultNotOffered(s.completed[i], s, cfg, a, sample, s');
    }
    forall i | 0 <= i < |s.taken| ensures ResultOk(s.taken[i], s', cfg) {
      ResultTimesPositive(s.taken, i);
      HasResult(s, cfg, s.taken[i].id);
      ResultNotOffered(s.taken[i], s, cfg, a, sample, s');
    }
    FinishedOk(s, cfg, sample);
    CountOf(s.completed, Finished(w));
  }

  lemma FinishedOk(s: State, cfg: Config, sample: RequestId -> Token)
    requires Inv(s, cfg) && Promoted(s.queue, s.active, cfg.maxBatch).1 != []
    ensures forall b | b in Finished(Worked(s, cfg, sample)) :: ResultOk(b, Step(s, cfg, sample), cfg)
  {
    hide Inv, RequestOk, ResultOk, Output, Offer, Ready, Prefill, Decode, Decoded, Prefilled, Kept, Finished,
         CountTokens,
         Promoted, Step;
    var w := Worked(s, cfg, sample);
    FinishedFrom(w);
    forall b | b in Finished(w) ensures ResultOk(b, Step(s, cfg, sample), cfg) {
      var r :| r in w && r.done && b == ResultOf(r);
      var i :| 0 <= i < |w| && w[i] == r;
      WorkedOk(s, cfg, sample, i);
    }
  }

  lemma StepPlaces(s: State, cfg: Config, sample: RequestId -> Token, id: RequestId)
    requires Inv(s, cfg) && Promoted(s.queue, s.active, cfg.maxBatch).1 != []
    ensures Places(Step(s, cfg, sample), id) == Places(s, id)
  {
    hide Inv, RequestOk, ResultOk, Output, Offer, Ready, Prefill, Decode, Decoded, Prefilled, Kept, Finished,
         CountTokens,
         Times, ResultTimes;
    var a, w := Promoted(s.queue, s.active, cfg.maxBatch).1, Worked(s, cfg, sample);
    forall i | 0 <= i < |a| ensures w[i].id == a[i].id { WorkedOk(s, cfg, sample, i); }
    SameIds(a, w, id);
    PromotedTimes(s, cfg, id);
    SplitTimes(w, id);
    ResultTimesOf(s.completed, Finished(w), id);
  }

  /** Without active requests an iteration changes nothing. */
  lemma StepIdle(s: State, cfg: Config, sample: RequestId -> Token)
    requires Promoted(s.queue, s.active, cfg.maxBatch).1 == []
    ensures Step(s, cfg, sample) == s
  {
    PromotedIs(s.queue, s.active, cfg.maxBatch);
  }

  lemma StepKeeps(s: State, cfg: Config, sample: RequestId -> Token)
    requires Inv(s, cfg)
    ensures Inv(Step(s, cfg, sample), cfg)
  {
    hide QueueOk, ActiveOk, ResultsOk, Places, Promoted, Worked, Finished, Kept, CountTokens;
    if Promoted(s.queue, s.active, cfg.maxBatch).1 == [] {
      StepIdle(s, cfg, sample);
    } else {
      StepQueue(s, cfg, sample);
      StepRequests(s, cfg, sample);
      StepResults(s, cfg, sample);
      forall id: RequestId ensures Places(Step(s, cfg, sample), id) == Places(s, id) { StepPlaces(s, cfg, sample, id); }
    }
  }

  /** The invariant holds in every run. */
  lemma {:induction false} RunKeeps(cfg: Config, ops: seq<Op>)
    ensures Inv(Run(cfg, ops), cfg)
  {
    hide Inv, Step, Submitted, Taken;
    if ops == [] {
      InitInv(cfg);
    } else {
      var s, op := Run(cfg, ops[..|ops| - 1]), ops[|ops| - 1];
      RunKeeps(cfg, ops[..|ops| - 1]);
      match op
      case Submit(prompt, maxTokens) => SubmitKeeps(s, cfg, prompt, maxTokens);
      case DoStep(sample) => StepKeeps(s, cfg, sample);
      case Take(id) => TakeKeeps(s, cfg, id);
    }
  }
}
