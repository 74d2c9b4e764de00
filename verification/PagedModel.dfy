/** The whole paged cache as a value, one `Layer` per transformer layer, and its refinement of the
    plain model: a map from sequence to, for each layer, the list of its own appended entries. */
module PagedModel {
  import opened PagedLayer
  import opened PagedOps

  datatype Cache = Cache(layers: seq<Layer>, lens: map<SeqId, nat>, nextId: SeqId)

  datatype Op =
    | Add
    | Append(id: SeqId, layer: nat, entry: Entry)
    | Increment(id: SeqId)
    | Fork(id: SeqId)
    | Remove(id: SeqId)
    | Rollback(id: SeqId, newLen: nat)

  datatype Outcome = Done | NewSequence(id: SeqId) | UnknownSequence(id: SeqId) | OutOfBlocks

  /** The reference: plain lists. */
  datatype Model = Model(nLayers: nat, lists: map<SeqId, seq<seq<Entry>>>, lens: map<SeqId, nat>, nextId: SeqId)

  ghost predicate CacheInv(c: Cache, d: Dims) {
    && d.blockSize > 0
    && (forall i | 0 <= i < |c.layers| :: Inv(c.layers[i], d) && c.layers[i].tables.Keys == c.lens.Keys)
    && (forall id | id in c.lens :: id < c.nextId)
  }

  /** What the callers owe: layer indices in range and vectors of the configured width. */
  predicate OpOk(c: Cache, op: Op, d: Dims) {
    op.Append? ==> op.layer < |c.layers| && |op.entry.key| == |op.entry.value| == d.kvDim
  }

  ghost function Lists(c: Cache, id: SeqId, d: Dims): (r: seq<seq<Entry>>)
    requires CacheInv(c, d) && id in c.lens
    ensures |r| == |c.layers|
  {
    seq(|c.layers|, i requires 0 <= i < |c.layers| => ViewOf(c.layers[i], id, d))
  }

  ghost function Abs(c: Cache, d: Dims): Model
    requires CacheInv(c, d)
  {
    Model(|c.layers|, map id | id in c.lens :: Lists(c, id, d), c.lens, c.nextId)
  }

  // ---------- the operations ----------

  function Added(c: Cache): Cache {
    Cache(seq(|c.layers|, i requires 0 <= i < |c.layers| =>
            c.layers[i].(tables := c.layers[i].tables[c.nextId := []])),
          c.lens[c.nextId := 0], c.nextId + 1)
  }

  ghost function Forked(c: Cache, id: SeqId, d: Dims): Cache
    requires CacheInv(c, d) && id in c.lens
  {
    Cache(seq(|c.layers|, i requires 0 <= i < |c.layers| => ForkLayer(c.layers[i], id, c.nextId)),
          c.lens[c.nextId := c.lens[id]], c.nextId + 1)
  }

  ghost function Removed(c: Cache, id: SeqId, d: Dims): Cache
    requires CacheInv(c, d) && id in c.lens
  {
    c.(layers := seq(|c.layers|, i requires 0 <= i < |c.layers| => RemoveLayer(c.layers[i], id)),
       lens := c.lens - {id})
  }

  ghost function RolledBack(c: Cache, id: SeqId, newLen: nat, d: Dims): Cache
    requires CacheInv(c, d) && id in c.lens
  {
    c.(layers := seq(|c.layers|, i requires 0 <= i < |c.layers| => RollbackLayer(c.layers[i], id, newLen, d)),
       lens := c.lens[id := newLen])
  }

  ghost function Step(c: Cache, op: Op, d: Dims): (Cache, Outcome)
    requires CacheInv(c, d) && OpOk(c, op, d)
  {
    match op
    case Add => (Added(c), NewSequence(c.nextId))
    case Append(id, i, e) =>
      if id !in c.lens then (c, UnknownSequence(id))
      else
        var (l, ok) := AppendLayer(c.layers[i], id, e, d);
        (c.(layers := c.layers[i := l]), if ok then Done else OutOfBlocks)
    case Increment(id) =>
      if id !in c.lens then (c, UnknownSequence(id)) else (c.(lens := c.lens[id := c.lens[id] + 1]), Done)
    case Fork(id) =>
      if id !in c.lens then (c, UnknownSequence(id)) else (Forked(c, id, d), NewSequence(c.nextId))
    case Remove(id) =>
      if id !in c.lens then (c, UnknownSequence(id)) else (Removed(c, id, d), Done)
    case Rollback(id, newLen) =>
      if id !in c.lens then (c, UnknownSequence(id))
      else if newLen >= c.lens[id] then (c, Done)
      else (RolledBack(c, id, newLen, d), Done)
  }

  /** Operations that make a sequence answer with its id. */
  predicate Answered(m: Model, op: Op, out: Outcome) {
    op.Add? || (op.Fork? && op.id in m.lists) ==> out.NewSequence?
  }

  /** The same operation on plain lists, given its answer: a new sequence has the id that the answer names, and
      running out of blocks changes nothing. */
  function ModelStep(m: Model, op: Op, out: Outcome): Model
    requires m.lists.Keys == m.lens.Keys && Answered(m, op, out)
    requires op.Append? && op.id in m.lists ==> op.layer < |m.lists[op.id]|
  {
    match op
    case Add => m.(lists := m.lists[out.id := seq(m.nLayers, _ => [])], lens := m.lens[out.id := 0],
                   nextId := m.nextId + 1)
    case Append(id, i, e) =>
      if id !in m.lists || out.OutOfBlocks? then m
      else m.(lists := m.lists[id := m.lists[id][i := m.lists[id][i] + [e]]])
    case Increment(id) => if id !in m.lens then m else m.(lens := m.lens[id := m.lens[id] + 1])
    case Fork(id) =>
      if id !in m.lists then m
      else m.(lists := m.lists[out.id := m.lists[id]], lens := m.lens[out.id := m.lens[id]],
              nextId := m.nextId + 1)
    case Remove(id) => m.(lists := m.lists - {id}, lens := m.lens - {id})
    case Rollback(id, newLen) =>
      if id !in m.lists || newLen >= m.lens[id] then m
      else m.(lists := m.lists[id := TruncateAll(m.lists[id], newLen)], lens := m.lens[id := newLen])
  }

  function TruncateAll(ls: seq<seq<Entry>>, n: nat): (r: seq<seq<Entry>>)
    ensures |r| == |ls|
  {
    seq(|ls|, i requires 0 <= i < |ls| => Truncate(ls[i], n))
  }

  // ---------- every step refines the plain lists ----------

  /** Between two caches with `id` as the only sequence affected, all other lists agree. */
  ghost predicate LayersAgree(c: Cache, c': Cache, id: SeqId, d: Dims)
    requires CacheInv(c, d)
  {
    && |c'.layers| == |c.layers|
    && forall i | 0 <= i < |c.layers| :: Inv(c'.layers[i], d) && OthersSame(c.layers[i], c'.layers[i], id, d)
  }

  lemma OtherLists(c: Cache, c': Cache, id: SeqId, o: SeqId, d: Dims)
    requires CacheInv(c, d) && CacheInv(c', d) && LayersAgree(c, c', id, d)
    requires o != id && o in c.lens && o in c'.lens
    ensures Lists(c', o, d) == Lists(c, o, d)
  {
    hide Inv, View;
    forall i | 0 <= i < |c.layers| ensures Lists(c', o, d)[i] == Lists(c, o, d)[i] {
      assert o in c.layers[i].tables;
      assert OthersSame(c.layers[i], c'.layers[i], id, d);
    }
  }

  /** If only `id` changes, and to `now`, then the model changes exactly there. */
  lemma AbsUpdate(c: Cache, c': Cache, id: SeqId, now: seq<seq<Entry>>, d: Dims)
    requires CacheInv(c, d) && CacheInv(c', d) && LayersAgree(c, c', id, d)
    requires c'.lens.Keys == c.lens.Keys + {id} && |now| == |c.layers|
    requires forall i | 0 <= i < |c.layers| :: id in c'.layers[i].tables && ViewOf(c'.layers[i], id, d) == now[i]
    ensures Abs(c', d) == Model(|c.layers|, Abs(c, d).lists[id := now], c'.lens, c'.nextId)
  {
    hide Inv, View, OthersSame;
    forall o | o in c'.lens ensures Lists(c', o, d) == Abs(c, d).lists[id := now][o] {
      if o == id {
        assert Lists(c', id, d) == now;
      } else {
        OtherLists(c, c', id, o, d);
      }
    }
  }

  lemma AddRefines(c: Cache, d: Dims)
    requires CacheInv(c, d)
    ensures CacheInv(Added(c), d)
    ensures Abs(Added(c), d) == ModelStep(Abs(c, d), Add, NewSequence(c.nextId))
  {
    hide Inv, View, OthersSame;
    var c' := Added(c);
    forall i | 0 <= i < |c.layers|
      ensures Inv(c'.layers[i], d) && OthersSame(c.layers[i], c'.layers[i], c.nextId, d)
        && ViewOf(c'.layers[i], c.nextId, d) == []
    {
      AddTableKeeps(c.layers[i], c.nextId, d);
    }
    AbsUpdate(c, c', c.nextId, seq(|c.layers|, _ => []), d);
  }

  lemma AppendRefines(c: Cache, id: SeqId, i: nat, e: Entry, d: Dims)
    requires CacheInv(c, d) && id in c.lens && OpOk(c, Append(id, i, e), d)
    ensures var (c', out) := Step(c, Append(id, i, e), d);
      CacheInv(c', d) && Abs(c', d) == ModelStep(Abs(c, d), Append(id, i, e), out) && (out == OutOfBlocks ==> c' == c)
  {
    hide Inv, View, OthersSame, AppendLayer;
    AppendLayerCorrect(c.layers[i], id, e, d);
    var (l', ok) := AppendLayer(c.layers[i], id, e, d);
    var c' := c.(layers := c.layers[i := l']);
    if ok {
      forall j | 0 <= j < |c.layers| ensures OthersSame(c.layers[j], c'.layers[j], id, d) {
        if j != i { OthersSameRefl(c.layers[j], id, d); }
      }
      var ls := Lists(c, id, d);
      AbsUpdate(c, c', id, ls[i := ls[i] + [e]], d);
    } else {
      assert c.layers[i := l'] == c.layers;
    }
  }

  lemma ForkRefines(c: Cache, id: SeqId, d: Dims)
    requires CacheInv(c, d) && id in c.lens
    ensures CacheInv(Forked(c, id, d), d)
    ensures Abs(Forked(c, id, d), d) == ModelStep(Abs(c, d), Fork(id), NewSequence(c.nextId))
  {
    hide Inv, View, OthersSame, ForkLayer;
    var c' := Forked(c, id, d);
    forall i | 0 <= i < |c.layers|
      ensures Inv(c'.layers[i], d) && c'.layers[i].tables.Keys == c'.lens.Keys
      ensures OthersSame(c.layers[i], c'.layers[i], c.nextId, d)
      ensures ViewOf(c'.layers[i], c.nextId, d) == Lists(c, id, d)[i]
    {
      TableRange(c.layers[i], id, d);
      ForkLayerCorrect(c.layers[i], id, c.nextId, d);
    }
    AbsUpdate(c, c', c.nextId, Lists(c, id, d), d);
  }

  lemma RemoveRefines(c: Cache, id: SeqId, d: Dims)
    requires CacheInv(c, d) && id in c.lens
    ensures CacheInv(Removed(c, id, d), d)
    ensures Abs(Removed(c, id, d), d) == ModelStep(Abs(c, d), Remove(id), Done)
  {
    hide Inv, View, OthersSame, RemoveLayer;
    var c' := Removed(c, id, d);
    forall i | 0 <= i < |c.layers|
      ensures Inv(c'.layers[i], d) && c'.layers[i].tables.Keys == c'.lens.Keys
      ensures OthersSame(c.layers[i], c'.layers[i], id, d)
    {
      TableRange(c.layers[i], id, d);
      RemoveLayerCorrect(c.layers[i], id, d);
    }
    forall o | o in c'.lens ensures Lists(c', o, d) == Lists(c, o, d) {
      OtherLists(c, c', id, o, d);
    }
  }

  /** A rollback keeps the cache invariant even where it damages the list of another sequence. */
  lemma RollbackKeepsInv(c: Cache, id: SeqId, newLen: nat, d: Dims)
    requires CacheInv(c, d) && id in c.lens
    ensures CacheInv(RolledBack(c, id, newLen, d), d)
  {
    hide Inv, ViewOf, OthersSame, RollbackLayer;
    var c' := RolledBack(c, id, newLen, d);
    forall i | 0 <= i < |c.layers|
      ensures Inv(c'.layers[i], d) && c'.layers[i].tables.Keys == c.lens.Keys
    {
      RollbackKeys(c.layers[i], id, newLen, d);
    }
    assert c'.lens.Keys == c.lens.Keys;
  }

  lemma RollbackKeys(l: Layer, id: SeqId, newLen: nat, d: Dims)
    requires Inv(l, d) && id in l.tables
    ensures Inv(RollbackLayer(l, id, newLen, d), d) && RollbackLayer(l, id, newLen, d).tables.Keys == l.tables.Keys
    ensures forall o | o in l.tables && o != id :: RollbackLayer(l, id, newLen, d).tables[o] == l.tables[o]
  {
    hide Inv, ViewOf, OthersSame, RollbackLayer;
    RollbackLayerKeeps(l, id, newLen, d);
  }

  lemma RollbackRefines(c: Cache, id: SeqId, newLen: nat, d: Dims)
    requires CacheInv(c, d) && id in c.lens && newLen < c.lens[id]
    requires forall i | 0 <= i < |c.layers| :: RollbackSafe(c.layers[i], id, newLen, d)
    ensures CacheInv(RolledBack(c, id, newLen, d), d)
    ensures Abs(RolledBack(c, id, newLen, d), d) == ModelStep(Abs(c, d), Rollback(id, newLen), Done)
  {
    hide Inv, View, OthersSame, RollbackLayer, RollbackSafe;
    var c' := RolledBack(c, id, newLen, d);
    RollbackKeepsInv(c, id, newLen, d);
    forall i | 0 <= i < |c.layers|
      ensures TruncatesOnly(c.layers[i], c'.layers[i], id, newLen, d)
    {
      RollbackLayerExact(c.layers[i], id, newLen, d);
    }
    AbsUpdate(c, c', id, TruncateAll(Lists(c, id, d), newLen), d);
  }

  /** The one demand on callers that the code leaves unchecked: a rollback that takes effect must be
      `RollbackSafe` in every layer. */
  ghost predicate Admissible(c: Cache, op: Op, d: Dims)
    requires CacheInv(c, d)
  {
    op.Rollback? && op.id in c.lens && op.newLen < c.lens[op.id] ==>
      forall i | 0 <= i < |c.layers| :: RollbackSafe(c.layers[i], op.id, op.newLen, d)
  }

  /** The accounts of every pool stay exact in every operation, admissible or not, and an admissible operation
      does to the lists what the plain operation does. */
  lemma StepRefines(c: Cache, op: Op, d: Dims)
    requires CacheInv(c, d) && OpOk(c, op, d)
    ensures var (c', out) := Step(c, op, d);
      && CacheInv(c', d) && |c'.layers| == |c.layers| && Answered(Abs(c, d), op, out)
      && (Admissible(c, op, d) ==> Abs(c', d) == ModelStep(Abs(c, d), op, out))
  {
    hide Inv, ViewOf, OthersSame, RollbackSafe;
    match op
    case Add => AddRefines(c, d);
    case Append(id, i, e) => if id in c.lens { AppendRefines(c, id, i, e, d); }
    case Increment(id) => if id in c.lens { IncrementRefines(c, id, d); }
    case Fork(id) => if id in c.lens { ForkRefines(c, id, d); }
    case Remove(id) =>
      if id in c.lens { RemoveRefines(c, id, d); } else { RemoveNothing(c, id, d); }
    case Rollback(id, n) =>
      if id in c.lens && n < c.lens[id] {
        RollbackKeepsInv(c, id, n, d);
        if Admissible(c, op, d) { RollbackRefines(c, id, n, d); }
      }
  }

  /** An operation agrees with the plain lists exactly if it is admissible. */
  lemma StepExact(c: Cache, op: Op, d: Dims)
    requires CacheInv(c, d) && OpOk(c, op, d)
    ensures var (c', out) := Step(c, op, d);
      && CacheInv(c', d) && Answered(Abs(c, d), op, out)
      && (Abs(c', d) == ModelStep(Abs(c, d), op, out) <==> Admissible(c, op, d))
  {
    hide Inv, ViewOf, OthersSame, RollbackSafe, RolledBack, Abs;
    StepRefines(c, op, d);
    if op.Rollback? && op.id in c.lens && op.newLen < c.lens[op.id] { RollbackExact(c, op.id, op.newLen, d); }
  }

  lemma RemoveNothing(c: Cache, id: SeqId, d: Dims)
    requires CacheInv(c, d) && id !in c.lens
    ensures ModelStep(Abs(c, d), Remove(id), UnknownSequence(id)) == Abs(c, d)
  {
    hide Inv;
    assert c.lens - {id} == c.lens;
    assert Abs(c, d).lists - {id} == Abs(c, d).lists;
  }

  lemma IncrementRefines(c: Cache, id: SeqId, d: Dims)
    requires CacheInv(c, d) && id in c.lens
    ensures var c' := c.(lens := c.lens[id := c.lens[id] + 1]);
      CacheInv(c', d) && Abs(c', d) == ModelStep(Abs(c, d), Increment(id), Done)
  {
    hide Inv, ViewOf;
    var c' := c.(lens := c.lens[id := c.lens[id] + 1]);
    assert c'.lens.Keys == c.lens.Keys;
    forall o | o in c.lens ensures Lists(c', o, d) == Lists(c, o, d) {
    }
  }

  // ---------- what an operation answers ----------

  /** The sequence that an operation is about is there; a new one needs none. */
  predicate Known(c: Cache, op: Op) { op.Add? || op.id in c.lens }

  /** The layer has no free block for the next entry of a sequence, and needs one: its table is empty, its last
      block is full, or that block is shared. */
  predicate NoRoom(l: Layer, id: SeqId, d: Dims)
    requires id in l.tables && forall i | 0 <= i < |l.tables[id]| :: l.tables[id][i] < |l.blocks|
  {
    var t := l.tables[id];
    l.free == [] && (t == [] || l.blocks[Last(t)].numFilled == d.blockSize || l.blocks[Last(t)].refCount >= 2)
  }

  /** What each answer means, and when it is given. A new sequence gets an id that no sequence has or had; it has
      no entries, or after a fork those of its source. */
  lemma StepAnswers(c: Cache, op: Op, d: Dims)
    requires CacheInv(c, d) && OpOk(c, op, d)
    ensures op.Append? && Known(c, op) ==>
      && op.id in c.layers[op.layer].tables
      && (forall i | 0 <= i < |c.layers[op.layer].tables[op.id]| ::
            c.layers[op.layer].tables[op.id][i] < |c.layers[op.layer].blocks|)
    ensures var (c', out) := Step(c, op, d);
      && CacheInv(c', d) && c'.nextId >= c.nextId
      && (out.UnknownSequence? <==> !Known(c, op)) && (out.UnknownSequence? ==> out.id == op.id && c' == c)
      && (out.OutOfBlocks? <==> op.Append? && Known(c, op) && NoRoom(c.layers[op.layer], op.id, d))
      && (out.OutOfBlocks? ==> c' == c)
      && (out.NewSequence? <==> Known(c, op) && (op.Add? || op.Fork?))
      && (out.NewSequence? ==>
            && out.id !in c.lens && c.nextId <= out.id < c'.nextId && c'.lens.Keys == c.lens.Keys + {out.id}
            && c'.lens[out.id] == (if op.Add? then 0 else c.lens[op.id])
            && Lists(c', out.id, d) == if op.Add? then seq(|c.layers|, _ => []) else Lists(c, op.id, d))
  {
    hide Inv, ViewOf, OthersSame, AppendLayer, RollbackLayer, ForkLayer, RemoveLayer;
    StepRefines(c, op, d);
    match op
    case Add => assert Abs(Added(c), d).lists[c.nextId] == Lists(Added(c), c.nextId, d);
    case Append(id, i, e) =>
      if id in c.lens {
        TableRange(c.layers[i], id, d);
        AppendRoom(c.layers[i], id, e, d);
        AppendRefines(c, id, i, e, d);
      }
    case Fork(id) =>
      if id in c.lens { assert Abs(Forked(c, id, d), d).lists[c.nextId] == Lists(Forked(c, id, d), c.nextId, d); }
    case _ =>
  }

  lemma AppendRoom(l: Layer, id: SeqId, e: Entry, d: Dims)
    requires Inv(l, d) && id in l.tables && |e.key| == |e.value| == d.kvDim
    ensures forall i | 0 <= i < |l.tables[id]| :: l.tables[id][i] < |l.blocks|
    ensures AppendLayer(l, id, e, d).1 <==> !NoRoom(l, id, d)
  {
    hide Inv, ViewOf, OthersSame, AppendLayer;
    LastBlock(l, id, d);
    AppendLayerCorrect(l, id, e, d);
  }

  // ---------- whole runs ----------

  function Init(nLayers: nat, nBlocks: nat, d: Dims): Cache {
    Cache(seq(nLayers, _ => Layer(seq(nBlocks, _ => ClearBlock(d)), seq(nBlocks, b => b), map[])), map[], 0)
  }

  lemma InitInv(nLayers: nat, nBlocks: nat, d: Dims)
    requires d.blockSize > 0
    ensures CacheInv(Init(nLayers, nBlocks, d), d)
    ensures Abs(Init(nLayers, nBlocks, d), d) == Model(nLayers, map[], map[], 0)
  {
    var l := Layer(seq(nBlocks, _ => ClearBlock(d)), seq(nBlocks, b => b), map[]);
    forall b | 0 <= b < nBlocks ensures b in l.free && Holders(l.tables, b) == {} {
      assert l.free[b] == b;
    }
    assert Inv(l, d);
    assert Abs(Init(nLayers, nBlocks, d), d).lists == map[];
  }

  /** The layer indices and vector widths of a run; both are fixed when the cache is made. */
  predicate RunOk(nLayers: nat, ops: seq<Op>, d: Dims) {
    forall o | o in ops :: o.Append? ==> o.layer < nLayers && |o.entry.key| == |o.entry.value| == d.kvDim
  }

  ghost function Run(c: Cache, ops: seq<Op>, d: Dims): (r: (Cache, seq<Outcome>))
    requires CacheInv(c, d) && RunOk(|c.layers|, ops, d)
    ensures |r.1| == |ops|
    decreases |ops|
  {
    if ops == [] then (c, [])
    else
      StepRefines(c, ops[0], d);
      var (c', out) := Step(c, ops[0], d);
      var (c2, outs) := Run(c', ops[1..], d);
      (c2, [out] + outs)
  }

  /** Every rollback of the run is admissible when its turn comes. */
  ghost predicate AdmissibleRun(c: Cache, ops: seq<Op>, d: Dims)
    requires CacheInv(c, d) && RunOk(|c.layers|, ops, d)
    decreases |ops|
  {
    ops == [] ||
    (Admissible(c, ops[0], d) && (StepRefines(c, ops[0], d); AdmissibleRun(Step(c, ops[0], d).0, ops[1..], d)))
  }

  /** Every step of the run does to the lists what the plain operation does. */
  ghost predicate AgreesThroughout(c: Cache, ops: seq<Op>, d: Dims)
    requires CacheInv(c, d) && RunOk(|c.layers|, ops, d)
    decreases |ops|
  {
    ops == [] || (
      StepRefines(c, ops[0], d);
      var (c', out) := Step(c, ops[0], d);
      Abs(c', d) == ModelStep(Abs(c, d), ops[0], out) && AgreesThroughout(c', ops[1..], d))
  }

  ghost predicate ModelOk(m: Model) {
    m.lists.Keys == m.lens.Keys && forall id | id in m.lists :: |m.lists[id]| == m.nLayers
  }

  ghost function ModelRun(m: Model, ops: seq<Op>, outs: seq<Outcome>): Model
    requires ModelOk(m) && |outs| == |ops| && forall o | o in ops :: o.Append? ==> o.layer < m.nLayers
    requires AllAnswered(m, ops, outs)
    decreases |ops|
  {
    if ops == [] then m else ModelRun(ModelStep(m, ops[0], outs[0]), ops[1..], outs[1..])
  }

  ghost predicate AllAnswered(m: Model, ops: seq<Op>, outs: seq<Outcome>)
    requires ModelOk(m) && |outs| == |ops| && forall o | o in ops :: o.Append? ==> o.layer < m.nLayers
    decreases |ops|
  {
    ops == [] ||
    (Answered(m, ops[0], outs[0]) && AllAnswered(ModelStep(m, ops[0], outs[0]), ops[1..], outs[1..]))
  }

  /** In every state of every run the accounts of the pools are in order, shared rollbacks or not. */
  lemma {:induction false} RunKeeps(c: Cache, ops: seq<Op>, d: Dims)
    requires CacheInv(c, d) && RunOk(|c.layers|, ops, d)
    ensures CacheInv(Run(c, ops, d).0, d) && |Run(c, ops, d).0.layers| == |c.layers|
    decreases |ops|
  {
    hide Inv, ViewOf, Step;
    if ops != [] {
      StepRefines(c, ops[0], d);
      RunKeeps(Step(c, ops[0], d).0, ops[1..], d);
    }
  }

  /** The main theorem: after any admissible run the lists of the cache are those that the plain model computes
      from the same operations and outcomes. */
  lemma {:induction false} RunRefines(c: Cache, ops: seq<Op>, d: Dims)
    requires CacheInv(c, d) && RunOk(|c.layers|, ops, d) && AdmissibleRun(c, ops, d)
    ensures var (c', outs) := Run(c, ops, d);
      && CacheInv(c', d) && ModelOk(Abs(c, d)) && AllAnswered(Abs(c, d), ops, outs)
      && Abs(c', d) == ModelRun(Abs(c, d), ops, outs)
    decreases |ops|
  {
    hide Inv, ViewOf, RollbackSafe, Step;
    RunKeeps(c, ops, d);
    if ops != [] {
      StepRefines(c, ops[0], d);
      RunRefines(Step(c, ops[0], d).0, ops[1..], d);
    }
  }

  /** A run agrees with the plain lists at every step exactly if every rollback in it is admissible. */
  lemma {:induction false} RunExact(c: Cache, ops: seq<Op>, d: Dims)
    requires CacheInv(c, d) && RunOk(|c.layers|, ops, d)
    ensures AgreesThroughout(c, ops, d) <==> AdmissibleRun(c, ops, d)
    decreases |ops|
  {
    hide Inv, ViewOf, RollbackSafe, Step, Abs, ModelStep;
    if ops != [] {
      StepRefines(c, ops[0], d);
      StepExact(c, ops[0], d);
      RunExact(Step(c, ops[0], d).0, ops[1..], d);
    }
  }

  /** The operation is a rollback that takes effect and changes a fill count that `o` reads, in some layer. */
  ghost predicate StepReachesInto(c: Cache, op: Op, o: SeqId, d: Dims)
    requires CacheInv(c, d) && o in c.lens
  {
    op.Rollback? && op.id in c.lens && op.newLen < c.lens[op.id]
    && exists i :: 0 <= i < |c.layers| && ReachesInto(c.layers[i], op.id, op.newLen, o, d)
  }

  /** An operation on one sequence never changes the length of another, and leaves its lists alone exactly if it is
      not a rollback that reaches into it. */
  lemma StepIsolates(c: Cache, op: Op, o: SeqId, d: Dims)
    requires CacheInv(c, d) && OpOk(c, op, d) && o in c.lens
    requires op.Add? || op.Fork? || op.id != o
    ensures var c' := Step(c, op, d).0;
      && CacheInv(c', d) && o in c'.lens && c'.lens[o] == c.lens[o]
      && (Lists(c', o, d) == Lists(c, o, d) <==> !StepReachesInto(c, op, o, d))
  {
    hide Inv, ViewOf, RollbackSafe, ReachesInto, RolledBack;
    StepRefines(c, op, d);
    if op.Rollback? && op.id in c.lens && op.newLen < c.lens[op.id] {
      RollbackIsolates(c, op.id, op.newLen, o, d);
    } else {
      hide Step;
      var c' := Step(c, op, d).0;
      assert Abs(c', d).lens == c'.lens;
      assert Abs(c', d).lists[o] == Lists(c', o, d) && Abs(c, d).lists[o] == Lists(c, o, d);
    }
  }

  lemma RollbackIsolates(c: Cache, id: SeqId, newLen: nat, o: SeqId, d: Dims)
    requires CacheInv(c, d) && id in c.lens && o in c.lens && o != id && newLen < c.lens[id]
    ensures var c' := RolledBack(c, id, newLen, d);
      && CacheInv(c', d) && o in c'.lens && c'.lens[o] == c.lens[o]
      && (Lists(c', o, d) == Lists(c, o, d) <==> !StepReachesInto(c, Rollback(id, newLen), o, d))
  {
    hide Inv, ViewOf, OthersSame, ReachesInto, RollbackLayer;
    RollbackKeepsInv(c, id, newLen, d);
    var c' := RolledBack(c, id, newLen, d);
    forall i | 0 <= i < |c.layers|
      ensures Lists(c', o, d)[i] == Lists(c, o, d)[i] <==> !ReachesInto(c.layers[i], id, newLen, o, d)
    {
      RollbackOtherList(c.layers[i], id, newLen, o, d);
    }
  }

  // ---------- conservation of blocks ----------

  ghost function Used(l: Layer): set<nat> {
    set b | 0 <= b < |l.blocks| && Holders(l.tables, b) != {}
  }

  ghost function Elements(s: seq<nat>): (r: set<nat>)
    ensures forall x :: x in r <==> x in s
    ensures NoDup(s) ==> |r| == |s|
  {
    if s == [] then {} else
      assert s == [s[0]] + s[1..];
      {s[0]} + Elements(s[1..])
  }

  ghost function UpTo(n: nat): (r: set<nat>)
    ensures forall x: nat :: x in r <==> x < n
    ensures |r| == n
  {
    if n == 0 then {} else {n - 1} + UpTo(n - 1)
  }

  /** Free blocks and used blocks add up to the pool; with no sequence left the whole pool is free. */
  lemma PoolConserved(l: Layer)
    requires Counted(l)
    ensures |l.free| + |Used(l)| == |l.blocks|
    ensures l.tables == map[] ==> |l.free| == |l.blocks|
  {
    hide Elements, UpTo, Holders;
    var free := Elements(l.free);
    assert forall b | b in l.free :: b < |l.blocks|;
    assert UpTo(|l.blocks|) == free + Used(l);
    assert free !! Used(l);
    if l.tables == map[] { NoHolders(l); }
  }

  lemma NoHolders(l: Layer)
    requires l.tables == map[]
    ensures Used(l) == {}
  {
  }

  // ---------- rollback on a shared block ----------

  /** A rollback that takes effect truncates this sequence and nothing else exactly if it is safe in every layer. */
  lemma RollbackExact(c: Cache, id: SeqId, newLen: nat, d: Dims)
    requires CacheInv(c, d) && id in c.lens && newLen < c.lens[id]
    ensures var c' := RolledBack(c, id, newLen, d);
      && CacheInv(c', d)
      && (Abs(c', d) == ModelStep(Abs(c, d), Rollback(id, newLen), Done)
          <==> forall i | 0 <= i < |c.layers| :: RollbackSafe(c.layers[i], id, newLen, d))
  {
    hide Inv, ViewOf, OthersSame, RollbackSafe, RollbackLayer;
    var c' := RolledBack(c, id, newLen, d);
    RollbackKeepsInv(c, id, newLen, d);
    if forall i | 0 <= i < |c.layers| :: RollbackSafe(c.layers[i], id, newLen, d) {
      RollbackRefines(c, id, newLen, d);
    } else if Abs(c', d) == ModelStep(Abs(c, d), Rollback(id, newLen), Done) {
      var i :| 0 <= i < |c.layers| && !RollbackSafe(c.layers[i], id, newLen, d);
      RollbackKeys(c.layers[i], id, newLen, d);
      ModelTruncates(c, c', id, newLen, i, d);
      RollbackLayerExact(c.layers[i], id, newLen, d);
    }
  }

  lemma ModelTruncates(c: Cache, c': Cache, id: SeqId, newLen: nat, i: nat, d: Dims)
    requires CacheInv(c, d) && CacheInv(c', d) && id in c.lens && newLen < c.lens[id] && i < |c.layers|
    requires Abs(c', d) == ModelStep(Abs(c, d), Rollback(id, newLen), Done)
    requires forall o | o in c.layers[i].tables && o != id && o in c'.layers[i].tables && i < |c'.layers| ::
      c'.layers[i].tables[o] == c.layers[i].tables[o]
    ensures i < |c'.layers| && TruncatesOnly(c.layers[i], c'.layers[i], id, newLen, d)
  {
    hide Inv, ViewOf, OthersSame;
    assert c'.lens.Keys == c.lens.Keys;
    forall o | o in c.lens && o != id ensures ViewOf(c'.layers[i], o, d) == ViewOf(c.layers[i], o, d) {
      assert Abs(c', d).lists[o] == Lists(c', o, d) && Abs(c, d).lists[o] == Lists(c, o, d);
      assert Lists(c', o, d)[i] == Lists(c, o, d)[i];
    }
    assert Abs(c', d).lists[id] == Lists(c', id, d);
    assert Lists(c', id, d)[i] == Truncate(Lists(c, id, d)[i], newLen);
    SameViews(c.layers[i], c'.layers[i], id, d);
  }

  lemma SameViews(l: Layer, l': Layer, id: SeqId, d: Dims)
    requires Inv(l, d) && Inv(l', d) && l'.tables.Keys == l.tables.Keys
    requires forall o | o in l.tables && o != id :: l'.tables[o] == l.tables[o] && ViewOf(l', o, d) == ViewOf(l, o, d)
    ensures OthersSame(l, l', id, d)
  {
    hide Inv, ViewOf;
  }

  /** Two sequences sharing one full block of two positions, as a fork leaves them. */
  function SharedPair(): Layer {
    Layer([Block([1.0, 2.0], [1.0, 2.0], 2, 2), ClearBlock(Dims(2, 1))], [1], map[0 := [0], 1 := [0]])
  }

  function Scalar(x: real): Entry { Entry([x], [x]) }

  function AfterRollback(): Layer {
    Layer([Block([1.0, 2.0], [1.0, 2.0], 1, 2), ClearBlock(Dims(2, 1))], [1], map[0 := [0], 1 := [0]])
  }

  /** Rolling back one of them to length 1 and appending to the other loses an entry of the other. */
  lemma RollbackLosesForeignEntry() returns (l: Layer)
    ensures Inv(SharedPair(), Dims(2, 1)) && Inv(AfterRollback(), Dims(2, 1))
    ensures ViewOf(SharedPair(), 1, Dims(2, 1)) == [Scalar(1.0), Scalar(2.0)]
    ensures RollbackLayer(SharedPair(), 0, 1, Dims(2, 1)) == AfterRollback()
    ensures (l, true) == AppendLayer(AfterRollback(), 1, Scalar(3.0), Dims(2, 1)) && Inv(l, Dims(2, 1))
    ensures 1 in l.tables && ViewOf(l, 1, Dims(2, 1)) == [Scalar(1.0), Scalar(3.0)]
  {
    hide Inv, ViewOf, AppendLayer, RollbackLayer;
    PairInv();
    PairViews();
    PairRollback();
    l := PairAppend();
  }

  lemma PairAppend() returns (l: Layer)
    requires Inv(AfterRollback(), Dims(2, 1)) && ViewOf(AfterRollback(), 1, Dims(2, 1)) == [Scalar(1.0)]
    ensures (l, true) == AppendLayer(AfterRollback(), 1, Scalar(3.0), Dims(2, 1)) && Inv(l, Dims(2, 1))
    ensures 1 in l.tables && ViewOf(l, 1, Dims(2, 1)) == [Scalar(1.0), Scalar(3.0)]
  {
    hide Inv, ViewOf, OthersSame, AppendLayer;
    AppendLayerCorrect(AfterRollback(), 1, Scalar(3.0), Dims(2, 1));
    l := AppendLayer(AfterRollback(), 1, Scalar(3.0), Dims(2, 1)).0;
  }

  lemma PairInv()
    ensures Inv(SharedPair(), Dims(2, 1)) && Inv(AfterRollback(), Dims(2, 1))
  {
    PairCounted(SharedPair());
    PairCounted(AfterRollback());
  }

  lemma PairCounted(l: Layer)
    requires l == SharedPair() || l == AfterRollback()
    ensures Counted(l)
  {
    assert Holders(l.tables, 0) == {0, 1};
    assert Holders(l.tables, 1) == {};
  }

  lemma PairViews()
    requires Inv(SharedPair(), Dims(2, 1)) && Inv(AfterRollback(), Dims(2, 1))
    ensures ViewOf(SharedPair(), 1, Dims(2, 1)) == [Scalar(1.0), Scalar(2.0)]
    ensures ViewOf(AfterRollback(), 1, Dims(2, 1)) == [Scalar(1.0)]
  {
    var v := ViewOf(SharedPair(), 1, Dims(2, 1));
    assert |v| == 2 && v[0] == Scalar(1.0) && v[1] == Scalar(2.0);
    var w := ViewOf(AfterRollback(), 1, Dims(2, 1));
    assert |w| == 1 && w[0] == Scalar(1.0);
  }

  lemma PairRollback()
    requires Inv(SharedPair(), Dims(2, 1))
    ensures RollbackLayer(SharedPair(), 0, 1, Dims(2, 1)) == AfterRollback()
  {
    assert PopTo(SharedPair(), 0, 1, Dims(2, 1)) == SharedPair();
  }
}
