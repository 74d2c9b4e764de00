/** The scheduler as it is written: a queue, an active list and a list of results that its methods change. */
module BatchScheduler {
  import opened SchedulerModel
  import opened Wrappers

  class BatchScheduler {
    var queue: seq<Request>
    var active: seq<Request>
    var completed: seq<BatchResult>
    const maxBatchSize: nat
    var nextId: RequestId
    var totalRequests: nat
    var totalTokensGenerated: nat
    ghost var submitted: seq<Submission>
    ghost var offered: seq<seq<Token>>
    ghost var taken: seq<BatchResult>

    ghost function Value(): State
      reads this
    {
      State(queue, active, completed, nextId, totalRequests, totalTokensGenerated, submitted, offered, taken)
    }

    constructor (maxBatchSize: nat)
      ensures this.maxBatchSize == maxBatchSize && Value() == Init()
    {
      this.maxBatchSize := maxBatchSize;
      queue, active, completed, nextId, totalRequests, totalTokensGenerated := [], [], [], 1, 0, 0;
      submitted, offered, taken := [], [], [];
    }

    method Submit(prompt: seq<Token>, maxTokens: nat) returns (id: RequestId)
      modifies this
      ensures id == old(nextId) && Value() == Submitted(old(Value()), prompt, maxTokens)
    {
      id := nextId;
      nextId := nextId + 1;
      queue := queue + [Request(id, prompt, maxTokens, Queued, 0, [], false)];
      totalRequests := totalRequests + 1;
      submitted, offered := submitted + [Submission(prompt, maxTokens)], offered + [[]];
    }

    /** One iteration. `sample` is the token that the model and the sampler yield for each request. */
    method Iterate(eos: Token, sample: RequestId -> Token) returns (results: seq<BatchResult>)
      modifies this
      ensures Value() == Step(old(Value()), Config(maxBatchSize, eos), sample)
      ensures results == Finished(Worked(old(Value()), Config(maxBatchSize, eos), sample))
    {
      hide Worked, Offer, Promoted, Prefilled, Decoded, CountTokens;
      Promote();
      if active == [] {
        NoneWorked(old(Value()), Config(maxBatchSize, eos), sample);
        return [];
      }
      ghost var promoted := active;
      PrefillAll();
      DecodeAll(eos, sample);
      WorkedOf(old(Value()), Config(maxBatchSize, eos), sample);
      offered := Offer(offered, promoted, sample);
      results := Collect();
    }

    method Promote()
      modifies `queue, `active
      ensures (queue, active) == Promoted(old(queue), old(active), maxBatchSize)
    {
      while |active| < maxBatchSize && queue != []
        invariant Promoted(queue, active, maxBatchSize) == Promoted(old(queue), old(active), maxBatchSize)
        decreases |queue|
      {
        var req := queue[0].(state := Prefilling);
        queue := queue[1..];
        active := active + [req];
      }
    }

    /** Prefill every active request that has just been promoted. */
    method PrefillAll()
      modifies `active
      ensures active == Prefilled(old(active))
    {
      for i := 0 to |active|
        invariant |active| == |old(active)|
        invariant forall k | 0 <= k < |active| :: active[k] == if k < i then Prefill(old(active)[k]) else old(active)[k]
      {
        var req := active[i];
        if req.state == Prefilling {
          active := active[i := req.(position := |req.prompt|, state := Decoding)];
        }
      }
    }

    /** The indices of the active requests that are decoding. */
    method DecodingIds() returns (ids: seq<nat>)
      ensures forall j | 0 <= j < |ids| :: ids[j] < |active|
      ensures forall j, k | 0 <= j < k < |ids| :: ids[j] < ids[k]
      ensures forall i | 0 <= i < |active| :: active[i].state == Decoding <==> i in ids
    {
      ids := [];
      for i := 0 to |active|
        invariant forall j | 0 <= j < |ids| :: ids[j] < i
        invariant forall j, k | 0 <= j < k < |ids| :: ids[j] < ids[k]
        invariant forall k | 0 <= k < i :: active[k].state == Decoding <==> k in ids
      {
        if active[i].state == Decoding { ids := ids + [i]; }
      }
    }

    /** One token for every decoding request. */
    method DecodeAll(eos: Token, sample: RequestId -> Token)
      modifies `active
      ensures active == Decoded(old(active), sample, eos)
    {
      var ids := DecodingIds();
      for j := 0 to |ids|
        invariant |active| == |old(active)|
        invariant forall k | 0 <= k < |active| && k in ids[..j] ::
          active[k] == Decode(old(active)[k], sample(old(active)[k].id), eos)
        invariant forall k | 0 <= k < |active| && k !in ids[..j] :: active[k] == old(active)[k]
      {
        var idx := ids[j];
        assert idx !in ids[..j] && ids[..j + 1] == ids[..j] + [idx];
        var req := active[idx];
        var tokenId := sample(req.id);
        if tokenId == eos || tokenId == 0 || |req.generated| >= req.maxTokens {
          active := active[idx := req.(done := true)];
        } else {
          active := active[idx := req.(generated := req.generated + [tokenId], position := req.position + 1)];
        }
      }
      assert ids[..|ids|] == ids;
      forall k | 0 <= k < |active| ensures active[k] == Decode(old(active)[k], sample(old(active)[k].id), eos) {
        assert k in ids <==> old(active)[k].state == Decoding;
      }
    }

    /** Finished requests leave the active list and become results. */
    method Collect() returns (results: seq<BatchResult>)
      modifies `active, `completed, `totalTokensGenerated
      ensures results == Finished(old(active)) && active == Kept(old(active))
      ensures completed == old(completed) + results
      ensures totalTokensGenerated == old(totalTokensGenerated) + CountTokens(results)
    {
      results := [];
      var kept: seq<Request> := [];
      for i := 0 to |active|
        invariant active == old(active)
        invariant results == Finished(active[..i]) && kept == Kept(active[..i])
      {
        assert active[..i + 1][..i] == active[..i];
        var req := active[i];
        if req.done {
          results := results + [BatchResult(req.id, req.generated, |req.generated|, |req.prompt|)];
        } else {
          kept := kept + [req];
        }
      }
      assert active[..|active|] == active;
      active := kept;
      for i := 0 to |results|
        invariant active == kept && completed == old(completed)
        invariant totalTokensGenerated == old(totalTokensGenerated) + CountTokens(results[..i])
      {
        assert results[..i + 1][..i] == results[..i];
        totalTokensGenerated := totalTokensGenerated + results[i].tokenCount;
      }
      assert results[..|results|] == results;
      completed := completed + results;
    }

    predicate IsBusy()
      reads this
      ensures IsBusy() <==> HasWork(Value())
    {
      queue != [] || active != []
    }

    /** Hand out the result of a request, if it is there. */
    method TakeResult(id: RequestId) returns (r: Option<BatchResult>)
      modifies this
      ensures Value() == Taken(old(Value()), id)
      ensures r.None? <==> forall i | 0 <= i < |old(completed)| :: old(completed)[i].id != id
      ensures r.Some? ==> r.value.id == id && taken == old(taken) + [r.value]
    {
      var pos := 0;
      while pos < |completed| && completed[pos].id != id
        invariant 0 <= pos <= |completed| && forall i | 0 <= i < pos :: completed[i].id != id
      {
        pos := pos + 1;
      }
      if pos == |completed| { return None; }
      r := Some(completed[pos]);
      taken := taken + [completed[pos]];
      completed := completed[..pos] + completed[pos + 1..];
    }
  }

  lemma WorkedOf(s: State, cfg: Config, sample: RequestId -> Token)
    ensures Worked(s, cfg, sample) == Decoded(Prefilled(Promoted(s.queue, s.active, cfg.maxBatch).1), sample, cfg.eos)
  {
  }

  lemma NoneWorked(s: State, cfg: Config, sample: RequestId -> Token)
    requires Promoted(s.queue, s.active, cfg.maxBatch).1 == []
    ensures Worked(s, cfg, sample) == []
  {
  }

  /** A result can be taken once: after that the request is in the taken list for good. */
  lemma TakenOnce(s: State, cfg: Config, id: RequestId)
    requires Inv(s, cfg) && 1 <= id < s.nextId
    ensures Taken(Taken(s, id), id) == Taken(s, id)
  {
    var p := PositionIn(s.completed, id);
    if p < |s.completed| {
      var s' := Taken(s, id);
      TakeKeeps(s, cfg, id);
      TakenHas(s, id);
      OnceTaken(s', cfg, id);
    }
  }

  /** A taken request has no second result. */
  lemma OnceTaken(s: State, cfg: Config, id: RequestId)
    requires Inv(s, cfg) && 1 <= id < s.nextId && ResultTimes(s.taken, id) >= 1
    ensures PositionIn(s.completed, id) == |s.completed|
  {
    var p, places := PositionIn(s.completed, id), Places(s, id);
    if p < |s.completed| {
      ResultTimesPositive(s.completed, p);
      assert false;
    }
  }

  lemma TakenHas(s: State, id: RequestId)
    requires PositionIn(s.completed, id) < |s.completed|
    ensures ResultTimes(Taken(s, id).taken, id) >= 1
  {
  }
}
