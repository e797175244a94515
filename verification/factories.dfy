/** The factory class's entry points: single generation under a strategy,
    with the abstract-factory guard in front of the step builder, the
    `simple_generate` and `acreate` shorthands, and the batch helpers, which
    run one single generation per item, in order, each against the world the
    previous one left behind. */
module Factories {
  import opened Values
  import opened OrderedMaps
  import opened Orm
  import opened Declarations
  import opened Steps
  import opened Pipeline

  /** A single generation: the world afterwards, the instance or error, and
      the sequence number its step used, if a step was built at all. */
  datatype Generated = Generated(w: World, res: Result<Instance>, sequence: Option<int>)

  /** `_agenerate`: an abstract factory is refused before any step builder
      exists, so nothing is resolved, counted or written; otherwise a fresh
      step builder with the call's parameters runs as a top-level build. */
  function Generate(f: Factory, strategy: Strategy, params: OMap<Value>, w: World): (g: Generated)
    ensures f.isAbstract ==> g == Generated(w, Err(AbstractFactory(f.name)), None)
    ensures !f.isAbstract ==> g.sequence.Some?
    ensures Effects(w, g.w, strategy)
    ensures !f.isAbstract && SequenceKey in params.m && params.m[SequenceKey].Int? ==>
      g.sequence == Some(params.m[SequenceKey].i)
    ensures !f.isAbstract && !(SequenceKey in params.m && params.m[SequenceKey].Int?) ==>
      g.sequence == Some(Counter(w.counters, f.name)) && Counter(w.counters, f.name) < Counter(g.w.counters, f.name)
    ensures g.res.Ok? && strategy == CreateStrategy ==> Durable(g.w.store, g.res.value) && g.res.value.model == f.model.name
    ensures g.res.Ok? && strategy == BuildStrategy ==> g.res.value.Built? && g.res.value.model == f.model.name
    ensures g.res.Ok? && strategy == StubStrategy ==> g.res.value.StubObject?
  {
    if f.isAbstract then Generated(w, Err(AbstractFactory(f.name)), None)
    else
      var o := Build(NewStepBuilder(f, params, strategy), w, None, None);
      Generated(o.w, o.res, Some(o.sequence))
  }

  /** `acreate`: a single generation under the create strategy. */
  function ACreateOne(f: Factory, params: OMap<Value>, w: World): (g: Generated)
    ensures g.res.Ok? ==> Durable(g.w.store, g.res.value) && g.res.value.model == f.model.name
    ensures f.isAbstract ==> g.res == Err(AbstractFactory(f.name)) && g.w == w
    ensures Grows(w.store, g.w.store)
  {
    Generate(f, CreateStrategy, params, w)
  }

  /** `simple_generate`: create or build, never stub. */
  function SimpleGenerate(f: Factory, create: bool, params: OMap<Value>, w: World): (g: Generated)
    ensures !create ==> g.w.store == w.store
    ensures g.res.Ok? && create ==> Durable(g.w.store, g.res.value)
    ensures g.res.Ok? && !create ==> g.res.value.Built?
    ensures g.res.Ok? ==> !g.res.value.StubObject?
  {
    Generate(f, SimpleStrategy(create), params, w)
  }

  /** What a batch produced: the world afterwards, every instance in order (or
      the first error), and the sequence number of each successful item. */
  datatype Batch = Batch(w: World, res: Result<seq<Instance>>, sequences: seq<int>)

  /** The batch helpers' list comprehension over any single generation
      `gen`: item `size - 1` is generated after the first `size - 1` items,
      against the world they left behind; the first error ends the batch and
      keeps the effects so far. */
  function Repeat(gen: World -> Generated, size: nat, w: World): (b: Batch)
    ensures b.res.Ok? ==> |b.res.value| == size && |b.sequences| == size
    ensures b.res.Err? ==> |b.sequences| < size
    decreases size
  {
    if size == 0 then Batch(w, Ok([]), [])
    else
      var prev := Repeat(gen, size - 1, w);
      match prev.res
      case Err(_) => prev
      case Ok(items) =>
        var g := gen(prev.w);
        match g.res
        case Err(e) => Batch(g.w, Err(e), prev.sequences)
        case Ok(inst) => Batch(g.w, Ok(items + [inst]), prev.sequences + [if g.sequence.Some? then g.sequence.value else 0])
  }

  /** The batch helpers of a factory: `size` single generations with the
      same strategy and parameters. */
  function BatchOf(f: Factory, strategy: Strategy, params: OMap<Value>, size: nat, w: World): (b: Batch)
    ensures b.res.Ok? ==> |b.res.value| == size
  {
    Repeat(Generator(f, strategy, params), size, w)
  }

  /** The single generation a batch repeats. */
  function Generator(f: Factory, strategy: Strategy, params: OMap<Value>): (gen: World -> Generated)
    ensures forall x: World :: gen(x) == Generate(f, strategy, params, x)
  {
    x => Generate(f, strategy, params, x)
  }

  /** One more item of a batch, spelled out. */
  lemma RepeatUnfold(gen: World -> Generated, n: nat, w: World)
    requires n > 0
    ensures var prev := Repeat(gen, n - 1, w);
      var b := Repeat(gen, n, w);
      && (prev.res.Err? ==> b == prev)
      && (prev.res.Ok? && gen(prev.w).res.Err? ==> b == Batch(gen(prev.w).w, Err(gen(prev.w).res.error), prev.sequences))
      && (prev.res.Ok? && gen(prev.w).res.Ok? ==>
            && b.w == gen(prev.w).w
            && b.res == Ok(prev.res.value + [gen(prev.w).res.value])
            && b.sequences == prev.sequences + [if gen(prev.w).sequence.Some? then gen(prev.w).sequence.value else 0])
  {
  }

  /** A successful batch extends the successful batch one item shorter by
      one more generation run against the world that batch left behind. */
  lemma RepeatOkStep(gen: World -> Generated, n: nat, w: World)
    requires n > 0 && Repeat(gen, n, w).res.Ok?
    ensures var prev := Repeat(gen, n - 1, w);
      var b := Repeat(gen, n, w);
      && prev.res.Ok?
      && gen(prev.w).res.Ok?
      && b.res.value[..n - 1] == prev.res.value
      && b.sequences[..n - 1] == prev.sequences
      && b.res.value[n - 1] == gen(prev.w).res.value
      && b.w == gen(prev.w).w
  {
    RepeatUnfold(gen, n, w);
    var prev := Repeat(gen, n - 1, w);
    var b := Repeat(gen, n, w);
    assert b.res.value[..n - 1] == prev.res.value;
    assert b.sequences[..n - 1] == prev.sequences;
  }

  /** Once a batch has failed, asking for more items changes nothing. */
  lemma {:induction false} RepeatErrorSticks(gen: World -> Generated, i: nat, n: nat, w: World)
    requires i <= n && Repeat(gen, i, w).res.Err?
    ensures Repeat(gen, n, w) == Repeat(gen, i, w)
    decreases n - i
  {
    if i < n {
      RepeatErrorSticks(gen, i, n - 1, w);
      RepeatUnfold(gen, n, w);
    }
  }

  /** The number of items `range(size)` yields: none for a negative size. */
  function Count(size: int): (n: nat)
    ensures size >= 0 ==> n == size
    ensures size < 0 ==> n == 0
  {
    if size < 0 then 0 else size
  }

  /** The batch loop over any single generation `gen`: run it `count`
      times, each run against the world the previous one left behind, and
      stop at the first error. */
  method RunBatch(gen: World -> Generated, count: nat, w: World) returns (b: Batch)
    ensures b == Repeat(gen, count, w)
  {
    var world := w;
    var items: seq<Instance> := [];
    var sequences: seq<int> := [];
    var i := 0;
    while i < count
      invariant 0 <= i <= count
      invariant Repeat(gen, i, w) == Batch(world, Ok(items), sequences)
    {
      var g := gen(world);
      RepeatUnfold(gen, i + 1, w);
      if g.res.Err? {
        b := Batch(g.w, Err(g.res.error), sequences);
        RepeatErrorSticks(gen, i + 1, count, w);
        return;
      }
      var n := if g.sequence.Some? then g.sequence.value else 0;
      world, items, sequences := g.w, items + [g.res.value], sequences + [n];
      i := i + 1;
    }
    b := Batch(world, Ok(items), sequences);
  }

  /** `build_batch`, `create_batch`, `acreate_batch`, `stub_batch` and
      `generate_batch`: the single generation once per element of
      `range(size)`, in order, stopping at the first error. */
  method GenerateBatch(f: Factory, strategy: Strategy, params: OMap<Value>, size: int, w: World) returns (b: Batch)
    ensures b == BatchOf(f, strategy, params, Count(size), w)
    ensures b.res.Ok? ==> |b.res.value| == Count(size)
    ensures size <= 0 ==> b == Batch(w, Ok([]), [])
  {
    b := RunBatch(Generator(f, strategy, params), Count(size), w);
  }

  /** `simple_generate_batch`: a batch under create or build. */
  method SimpleGenerateBatch(f: Factory, create: bool, params: OMap<Value>, size: int, w: World) returns (b: Batch)
    ensures b == BatchOf(f, SimpleStrategy(create), params, Count(size), w)
    ensures b.res.Ok? ==> |b.res.value| == Count(size)
    ensures size <= 0 ==> b == Batch(w, Ok([]), [])
  {
    b := GenerateBatch(f, SimpleStrategy(create), params, size, w);
  }

  lemma PrefixOfPrefix<T>(s: seq<T>, t: seq<T>, m: nat, k: nat)
    requires m <= k <= |s| && (s[..k] == t || (k == |s| && s == t))
    ensures m <= |t| && s[..m] == t[..m]
  {
    assert s[..k][..m] == s[..m];
  }

  /** A batch is the shorter batch followed by more items: the first `m`
      items of a successful batch of `n` are exactly a batch of `m`. */
  lemma {:induction false} RepeatPrefix(gen: World -> Generated, m: nat, n: nat, w: World)
    requires m <= n && Repeat(gen, n, w).res.Ok?
    ensures Repeat(gen, m, w).res.Ok?
    ensures Repeat(gen, n, w).res.value[..m] == Repeat(gen, m, w).res.value
    ensures Repeat(gen, n, w).sequences[..m] == Repeat(gen, m, w).sequences
    decreases n - m
  {
    var full := Repeat(gen, n, w);
    if m < n {
      RepeatOkStep(gen, n, w);
      var prev := Repeat(gen, n - 1, w);
      RepeatPrefix(gen, m, n - 1, w);
      PrefixOfPrefix(full.res.value, prev.res.value, m, n - 1);
      PrefixOfPrefix(full.sequences, prev.sequences, m, n - 1);
    } else {
      PrefixOfPrefix(full.res.value, full.res.value, m, m);
      PrefixOfPrefix(full.sequences, full.sequences, m, m);
    }
  }

  /** Whatever a single generation may do to the world, a batch of them may
      do too. */
  lemma {:induction false} RepeatEffects(gen: World -> Generated, strategy: Strategy, size: nat, w: World)
    requires forall x: World :: Effects(x, gen(x).w, strategy)
    ensures Effects(w, Repeat(gen, size, w).w, strategy)
    decreases size
  {
    if size > 0 {
      RepeatUnfold(gen, size, w);
      RepeatEffects(gen, strategy, size - 1, w);
      var prev := Repeat(gen, size - 1, w);
      if prev.res.Ok? {
        EffectsTrans(w, prev.w, gen(prev.w).w, strategy);
      }
    }
  }

  /** A batch of a factory has the effects of one generation: under any
      strategy but create it leaves the store as it was. */
  lemma BatchEffects(f: Factory, strategy: Strategy, params: OMap<Value>, size: nat, w: World)
    ensures Effects(w, BatchOf(f, strategy, params, size, w).w, strategy)
    ensures strategy != CreateStrategy ==> BatchOf(f, strategy, params, size, w).w.store == w.store
  {
    var gen := Generator(f, strategy, params);
    forall x: World
      ensures Effects(x, gen(x).w, strategy)
    {
      assert gen(x) == Generate(f, strategy, params, x);
    }
    RepeatEffects(gen, strategy, size, w);
  }

  /** A generation from `x` that never winds the counter of `name` back and,
      when it succeeds, takes that counter as its sequence number and
      advances it. */
  predicate Counts(x: World, g: Generated, name: string) {
    && Counter(x.counters, name) <= Counter(g.w.counters, name)
    && (g.res.Ok? ==> g.sequence == Some(Counter(x.counters, name)) && Counter(x.counters, name) < Counter(g.w.counters, name))
  }

  /** Strictly increasing. */
  predicate Increasing(s: seq<int>) {
    forall i, j :: 0 <= i < j < |s| ==> s[i] < s[j]
  }

  /** Every element lies in `[lo, hi)`. */
  predicate Within(s: seq<int>, lo: int, hi: int) {
    forall i :: 0 <= i < |s| ==> lo <= s[i] < hi
  }

  /** Under a generation that takes the counter of `name` as its sequence
      number and advances it, and never winds that counter back, the
      sequence numbers of a batch strictly increase and all lie from the
      starting counter up to, not including, the counter the batch leaves
      behind. */
  lemma {:induction false} RepeatSequencesIncrease(gen: World -> Generated, name: string, size: nat, w: World)
    requires forall x: World {:trigger gen(x)} :: Counts(x, gen(x), name)
    ensures var b := Repeat(gen, size, w);
      && Counter(w.counters, name) <= Counter(b.w.counters, name)
      && Increasing(b.sequences)
      && Within(b.sequences, Counter(w.counters, name), Counter(b.w.counters, name))
    decreases size
  {
    if size > 0 {
      RepeatUnfold(gen, size, w);
      RepeatSequencesIncrease(gen, name, size - 1, w);
      var prev := Repeat(gen, size - 1, w);
      if prev.res.Ok? {
        var g := gen(prev.w);
        var lo, mid, hi := Counter(w.counters, name), Counter(prev.w.counters, name), Counter(g.w.counters, name);
        if g.res.Ok? {
          AppendIncreasing(prev.sequences, g.sequence.value, lo, hi);
        } else {
          WithinWiden(prev.sequences, lo, mid, hi);
        }
      }
    }
  }

  lemma WithinWiden(s: seq<int>, lo: int, mid: int, hi: int)
    requires Within(s, lo, mid) && mid <= hi
    ensures Within(s, lo, hi)
  {
  }

  /** Appending a number above every element of a strictly increasing
      sequence keeps it strictly increasing. */
  lemma AppendIncreasing(s: seq<int>, v: int, lo: int, hi: int)
    requires Increasing(s) && Within(s, lo, v) && lo <= v < hi
    ensures Increasing(s + [v]) && Within(s + [v], lo, hi)
  {
  }

  lemma BatchSequencesIncrease(f: Factory, strategy: Strategy, params: OMap<Value>, size: nat, w: World)
    requires !(SequenceKey in params.m && params.m[SequenceKey].Int?)
    ensures var b := BatchOf(f, strategy, params, size, w);
      && Increasing(b.sequences)
      && Within(b.sequences, Counter(w.counters, f.name), Counter(b.w.counters, f.name))
  {
    var gen := Generator(f, strategy, params);
    forall x: World
      ensures Counts(x, gen(x), f.name)
    {
      GenerateCounts(f, strategy, params, x);
    }
    RepeatSequencesIncrease(gen, f.name, size, w);
  }

  lemma GenerateCounts(f: Factory, strategy: Strategy, params: OMap<Value>, x: World)
    requires !(SequenceKey in params.m && params.m[SequenceKey].Int?)
    ensures Counts(x, Generate(f, strategy, params, x), f.name)
  {
  }

  /** With an integer sequence override, every item of a factory's batch
      shares that sequence number. */
  lemma {:induction false} RepeatForcedSequence(gen: World -> Generated, n: int, size: nat, w: World)
    requires forall x: World :: gen(x).res.Ok? ==> gen(x).sequence == Some(n)
    ensures forall i :: 0 <= i < |Repeat(gen, size, w).sequences| ==> Repeat(gen, size, w).sequences[i] == n
    decreases size
  {
    if size > 0 {
      RepeatUnfold(gen, size, w);
      RepeatForcedSequence(gen, n, size - 1, w);
    }
  }

  lemma BatchForcedSequence(f: Factory, strategy: Strategy, params: OMap<Value>, size: nat, w: World)
    requires SequenceKey in params.m && params.m[SequenceKey].Int?
    ensures var b := BatchOf(f, strategy, params, size, w);
      forall i :: 0 <= i < |b.sequences| ==> b.sequences[i] == params.m[SequenceKey].i
  {
    var gen := Generator(f, strategy, params);
    forall x: World
      ensures gen(x).res.Ok? ==> gen(x).sequence == Some(params.m[SequenceKey].i)
    {
      assert gen(x) == Generate(f, strategy, params, x);
    }
    RepeatForcedSequence(gen, params.m[SequenceKey].i, size, w);
  }

  /** What is persisted stays persisted as the store grows. */
  lemma DurableGrows(s: Store, t: Store, inst: Instance)
    requires Grows(s, t) && Durable(s, inst)
    ensures Durable(t, inst)
  {
    assert t.rows[inst.id] == s.rows[inst.id];
  }

  /** When every successful single generation yields a row of the store it
      leaves behind and the store only grows, every instance of a successful
      batch is a row of the store the batch leaves behind. */
  lemma {:induction false} RepeatDurable(gen: World -> Generated, model: string, size: nat, w: World)
    requires forall x: World :: Grows(x.store, gen(x).w.store)
    requires forall x: World :: gen(x).res.Ok? ==> Durable(gen(x).w.store, gen(x).res.value) && gen(x).res.value.model == model
    ensures var b := Repeat(gen, size, w);
      b.res.Ok? ==> forall i :: 0 <= i < |b.res.value| ==> Durable(b.w.store, b.res.value[i]) && b.res.value[i].model == model
    decreases size
  {
    var b := Repeat(gen, size, w);
    if size > 0 && b.res.Ok? {
      RepeatOkStep(gen, size, w);
      RepeatDurable(gen, model, size - 1, w);
      var prev := Repeat(gen, size - 1, w);
      forall i | 0 <= i < size - 1
        ensures Durable(b.w.store, b.res.value[i]) && b.res.value[i].model == model
      {
        assert b.res.value[i] == prev.res.value[i];
        DurableGrows(prev.w.store, b.w.store, prev.res.value[i]);
      }
    }
  }

  /** Under the create strategy every instance of a successful batch is a row
      of the store the batch leaves behind. */
  lemma BatchDurable(f: Factory, params: OMap<Value>, size: nat, w: World)
    ensures var b := BatchOf(f, CreateStrategy, params, size, w);
      b.res.Ok? ==> forall i :: 0 <= i < |b.res.value| ==>
        Durable(b.w.store, b.res.value[i]) && b.res.value[i].model == f.model.name
  {
    var gen := Generator(f, CreateStrategy, params);
    forall x: World
      ensures Grows(x.store, gen(x).w.store)
      ensures gen(x).res.Ok? ==> Durable(gen(x).w.store, gen(x).res.value) && gen(x).res.value.model == f.model.name
    {
      assert gen(x) == Generate(f, CreateStrategy, params, x);
    }
    RepeatDurable(gen, f.model.name, size, w);
  }

  /** A batch of an abstract factory fails at its first item and leaves the
      world as it was; only an empty batch succeeds. */
  lemma {:induction false} BatchAbstract(f: Factory, strategy: Strategy, params: OMap<Value>, size: nat, w: World)
    requires f.isAbstract
    ensures var b := BatchOf(f, strategy, params, size, w);
      && b.w == w
      && (b.res.Ok? <==> size == 0)
      && (size > 0 ==> b.res == Err(AbstractFactory(f.name)))
    decreases size
  {
    if size > 0 {
      var gen := Generator(f, strategy, params);
      RepeatUnfold(gen, size, w);
      BatchAbstract(f, strategy, params, size - 1, w);
      assert gen(w) == Generate(f, strategy, params, w);
    }
  }
}
