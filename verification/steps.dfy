/** The state of one generation: the world it runs against (store and
    per-factory sequence counters), the step being built, the lazy resolver
    bound to it, and the step builder that drives it. Also the parts of a
    build that do not recurse: choosing the sequence number, checking a
    sub-factory target, and running the post-generation hooks. */
module Steps {
  import opened Values
  import opened OrderedMaps
  import opened Orm
  import opened Declarations

  /** Everything a generation can change outside its own step. */
  datatype World = World(store: Store, counters: map<string, nat>)

  /** A factory's next sequence number; a fresh counter starts at 0. */
  function Counter(counters: map<string, nat>, factory: string): nat {
    if factory in counters then counters[factory] else 0
  }

  ghost predicate CountersGrow(a: map<string, nat>, b: map<string, nat>) {
    forall k :: Counter(a, k) <= Counter(b, k)
  }

  /** One build step: its strategy, its sequence number and, when nested, a
      view of the parent step's attributes resolved so far. */
  datatype StepCtx = StepCtx(strategy: Strategy, sequence: int, parentStub: Option<map<Name, Value>>)

  /** The lazy attribute resolver of one step: its declarations, the values
      computed so far, and the names whose computation is under way. */
  datatype Resolver = Resolver(
    decls: map<Name, Decl>,
    values: map<Name, Value>,
    pending: seq<Name>,
    step: StepCtx)

  /** One factory invocation: the factory, the call-time overrides, the
      strategy and an optional initial sequence. */
  datatype StepBuilder = StepBuilder(
    factory: Factory,
    extras: OMap<Value>,
    strategy: Strategy,
    forceInitSequence: Option<int>)

  /** A nested build requested by a sub-factory declaration. */
  datatype ChildBuild = ChildBuild(builder: StepBuilder, parentStub: map<Name, Value>, forceSequence: Option<int>)

  datatype Sequenced = Sequenced(sequence: int, counters: map<string, nat>)

  /** The override name that carries an initial sequence number. */
  const SequenceKey: Name := "__sequence"

  /** `keys` without `k`. */
  function Without(keys: seq<Name>, k: Name): (r: seq<Name>)
    ensures forall x :: x in r <==> x in keys && x != k
    ensures Distinct(keys) ==> Distinct(r)
  {
    if keys == [] then []
    else if keys[0] == k then Without(keys[1..], k)
    else
      var rest := Without(keys[1..], k);
      assert Distinct(keys) ==> keys[0] !in keys[1..];
      [keys[0]] + rest
  }

  /** A step builder for `f`; the sequence override is taken out of the
      overrides and becomes the initial sequence when it is an integer. */
  function NewStepBuilder(f: Factory, extras: OMap<Value>, strategy: Strategy): (b: StepBuilder)
    ensures b.factory == f && b.strategy == strategy
    ensures b.extras.m == extras.m - {SequenceKey}
    ensures forall k :: Has(b.extras, k) <==> Has(extras, k) && k != SequenceKey
    ensures extras.Valid() ==> b.extras.Valid()
    ensures b.forceInitSequence.Some? <==> SequenceKey in extras.m && extras.m[SequenceKey].Int?
    ensures b.forceInitSequence.Some? ==> b.forceInitSequence.value == extras.m[SequenceKey].i
  {
    var init := if SequenceKey in extras.m && extras.m[SequenceKey].Int? then Some(extras.m[SequenceKey].i) else None;
    StepBuilder(f, OMap(Without(extras.keys, SequenceKey), extras.m - {SequenceKey}), strategy, init)
  }

  /** The sequence number of a build: a forced value, else the builder's
      initial sequence, else the factory's counter, which advances only in
      that last case. */
  function ChooseSequence(force: Option<int>, init: Option<int>, counters: map<string, nat>, factory: string): (c: Sequenced)
    ensures force.Some? ==> c.sequence == force.value
    ensures force.None? && init.Some? ==> c.sequence == init.value
    ensures force.None? && init.None? ==> c.sequence == Counter(counters, factory)
    ensures Counter(c.counters, factory) == Counter(counters, factory) + (if force.None? && init.None? then 1 else 0)
    ensures forall other :: other != factory ==> Counter(c.counters, other) == Counter(counters, other)
  {
    if force.Some? then Sequenced(force.value, counters)
    else if init.Some? then Sequenced(init.value, counters)
    else
      var n := Counter(counters, factory);
      Sequenced(n, counters[factory := n + 1])
  }

  /** `arecurse`: a target that is not a factory class is refused before any
      child builder exists; otherwise the child builder inherits the
      strategy, has this step as parent and receives the forced sequence as
      given. */
  function ARecurse(step: StepCtx, stub: map<Name, Value>, target: Target, overrides: OMap<Value>,
                    forceSequence: Option<int>): (r: Result<ChildBuild>)
    ensures r.Err? <==> target.NotAFactory?
    ensures r.Err? ==> r.error == AssociatedClass(target.name)
    ensures r.Ok? ==> r.value.builder.factory == target.factory && r.value.builder.strategy == step.strategy
    ensures r.Ok? ==> r.value.builder.extras.m == overrides.m - {SequenceKey}
    ensures r.Ok? ==> r.value.parentStub == stub && r.value.forceSequence == forceSequence
  {
    match target
    case NotAFactory(name) => Err(AssociatedClass(name))
    case FactoryClass(f) => Ok(ChildBuild(NewStepBuilder(f, overrides, step.strategy), stub, forceSequence))
  }

  /** Evaluating a hook against the instance; an async hook yields a coroutine. */
  function EvaluatePost(h: Hook, inst: Instance): Value {
    var v := Computed(h.fn, [Obj(inst)]);
    if h.isAsync then Awaitable(v) else v
  }

  function HookResults(keys: seq<Name>, hooks: map<Name, Hook>, inst: Instance): (m: map<Name, Value>)
    requires forall k :: k in keys ==> k in hooks
    ensures forall k :: k in m <==> k in keys
    ensures forall k :: k in m ==> m[k] == Await(EvaluatePost(hooks[k], inst)) && Settled(m[k])
  {
    if keys == [] then map[]
    else HookResults(keys[1..], hooks, inst)[keys[0] := Await(EvaluatePost(hooks[keys[0]], inst))]
  }

  /** The post-generation loop: every hook runs once, in declaration order,
      and its result is awaited before being recorded under its name. */
  function RunPostHooks(post: OMap<Hook>, inst: Instance): (r: OMap<Value>)
    requires post.Valid()
    ensures r.Valid() && r.keys == post.keys
    ensures r.m.Keys == post.m.Keys
    ensures forall k :: k in r.m ==> r.m[k] == Await(EvaluatePost(post.m[k], inst)) && Settled(r.m[k])
  {
    OMap(post.keys, HookResults(post.keys, post.m, inst))
  }
}
