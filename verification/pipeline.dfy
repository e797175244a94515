/** The async build pipeline: the lazy attribute resolver (`aget` and the
    evaluation of one declaration), the step's eager resolution of its
    attribute declarations (`aresolve`), and the step builder's full
    generation (`abuild`), which a sub-factory declaration re-enters for the
    nested factory.

    Awaiting is sequencing: every call threads the world (store and sequence
    counters) through in evaluation order. Termination: a nested build is for
    a factory structurally inside the current one; within one step, every
    recursive `Get` runs with one more declared name pending. */
module Pipeline {
  import opened Values
  import opened OrderedMaps
  import opened Orm
  import opened Declarations
  import opened Options
  import opened Steps

  datatype Got = Got(r: Resolver, w: World, res: Result<Value>)
  datatype GotAll = GotAll(r: Resolver, w: World, res: Result<seq<Value>>)
  datatype Resolved = Resolved(r: Resolver, w: World, res: Result<OMap<Value>>)

  /** A generation's world afterwards, its instance or error, and the
      sequence number its step used. */
  datatype Outcome = Outcome(w: World, res: Result<Instance>, sequence: int)

  /** The declared names not pending: the resolver's termination measure. */
  function Unresolved(declared: set<Name>, pending: seq<Name>): nat {
    |declared - (set x | x in pending)|
  }

  lemma PushShrinks(declared: set<Name>, pending: seq<Name>, name: Name)
    requires name in declared && name !in pending
    ensures Unresolved(declared, pending + [name]) < Unresolved(declared, pending)
  {
    var before := declared - (set x | x in pending);
    var after := declared - (set x | x in pending + [name]);
    assert after == before - {name};
  }

  /** The resolver's stack discipline and memoisation across one call: same
      declarations and step, the pending stack as it was, every cached value
      kept, and no pending name cached behind its computation's back. */
  ghost predicate Keeps(r: Resolver, r': Resolver) {
    && r'.decls == r.decls
    && r'.step == r.step
    && r'.pending == r.pending
    && Extends(r.values, r'.values)
    && (forall k :: k in r.pending && k !in r.values ==> k !in r'.values)
  }

  /** Every cached raw-value declaration holds exactly its declared value. */
  ghost predicate RawCached(r: Resolver) {
    forall k :: k in r.values && k in r.decls && r.decls[k].Static? ==> r.values[k] == r.decls[k].v
  }

  lemma KeepsTrans(a: Resolver, b: Resolver, c: Resolver)
    requires Keeps(a, b) && Keeps(b, c)
    ensures Keeps(a, c)
  {
  }

  /** What a call under `strategy` may do to the world: the store only grows,
      and only the create strategy writes to it at all; counters only grow. */
  ghost predicate Effects(w: World, w': World, strategy: Strategy) {
    && Grows(w.store, w'.store)
    && (strategy != CreateStrategy ==> w'.store == w.store)
    && CountersGrow(w.counters, w'.counters)
  }

  lemma EffectsTrans(a: World, b: World, c: World, strategy: Strategy)
    requires Effects(a, b, strategy) && Effects(b, c, strategy)
    ensures Effects(a, c, strategy)
  {
  }

  /** `aget`: a pending name is a cycle; a cached name is returned as is; a
      declaration of the attribute-resolution phase is pushed, evaluated and
      popped, on success and on failure alike, then cached; any other
      declaration is cached unevaluated; an undeclared name is an error. */
  function Get(ghost owner: Factory, r: Resolver, w: World, name: Name): (g: Got)
    requires DeclaredBy(r.decls, owner) && RawCached(r)
    ensures Keeps(r, g.r) && RawCached(g.r) && Effects(w, g.w, r.step.strategy)
    ensures name in r.pending ==> g == Got(r, w, Err(CyclicDefinition(name, r.pending)))
    ensures name !in r.pending && name in r.values ==> g == Got(r, w, Ok(r.values[name]))
    ensures name !in r.pending && name !in r.values && name !in r.decls ==>
      g == Got(r, w, Err(UnknownAttribute(name)))
    ensures (name !in r.pending && name !in r.values && name in r.decls
             && BuilderPhase(r.decls[name]) != Some(AttributeResolution)) ==>
      g == Got(r.(values := r.values[name := RawValue(r.decls[name])]), w, Ok(RawValue(r.decls[name])))
    ensures g.res.Ok? ==> name in g.r.values && g.r.values[name] == g.res.value
    ensures g.res.Err? && name !in r.values ==> name !in g.r.values
    decreases owner, 1, Unresolved(r.decls.Keys, r.pending), 1
  {
    if name in r.pending then Got(r, w, Err(CyclicDefinition(name, r.pending)))
    else if name in r.values then Got(r, w, Ok(r.values[name]))
    else if name !in r.decls then Got(r, w, Err(UnknownAttribute(name)))
    else
      var d := r.decls[name];
      if BuilderPhase(d) != Some(AttributeResolution) then
        Got(r.(values := r.values[name := RawValue(d)]), w, Ok(RawValue(d)))
      else Compute(owner, r, w, name)
  }

  /** The evaluating branch of `aget`: push the name, evaluate its
      declaration, pop the name whether evaluation succeeded or failed, and
      cache a successful value. */
  function Compute(ghost owner: Factory, r: Resolver, w: World, name: Name): (g: Got)
    requires DeclaredBy(r.decls, owner) && RawCached(r)
    requires name !in r.pending && name !in r.values && name in r.decls
    requires BuilderPhase(r.decls[name]) == Some(AttributeResolution)
    ensures Keeps(r, g.r) && RawCached(g.r) && Effects(w, g.w, r.step.strategy)
    ensures g.res.Ok? ==> name in g.r.values && g.r.values[name] == g.res.value
    ensures g.res.Err? ==> name !in g.r.values
    decreases owner, 1, Unresolved(r.decls.Keys, r.pending), 0
  {
    var pushed := r.(pending := r.pending + [name]);
    PushShrinks(r.decls.Keys, r.pending, name);
    var e := EvaluatePre(owner, pushed, w, name, r.decls[name]);
    var last := e.r.pending[|e.r.pending| - 1];
    assert last == name;
    var popped := e.r.(pending := e.r.pending[..|e.r.pending| - 1]);
    assert popped == r.(values := e.r.values);
    match e.res
    case Err(err) => Got(popped, e.w, Err(err))
    case Ok(v) => Got(popped.(values := popped.values[name := v]), e.w, Ok(v))
  }

  /** `aget` of a declared name of the attribute-resolution phase, not yet
      cached nor pending, returns what its declaration evaluates to while the
      name is pending, leaves the world that evaluation left, and caches the
      value only when evaluation succeeded. */
  lemma GetEvaluates(owner: Factory, r: Resolver, w: World, name: Name)
    requires DeclaredBy(r.decls, owner) && RawCached(r)
    requires name !in r.pending && name !in r.values && name in r.decls
    requires BuilderPhase(r.decls[name]) == Some(AttributeResolution)
    ensures var g := Get(owner, r, w, name);
      var e := EvaluatePre(owner, r.(pending := r.pending + [name]), w, name, r.decls[name]);
      && g.res == e.res && g.w == e.w && g.r.pending == r.pending
      && g.r.values == (if e.res.Ok? then e.r.values[name := e.res.value] else e.r.values)
  {
  }

  /** `aget` of a sequence declaration yields its function of the step's
      sequence number and caches it. */
  lemma GetSequence(owner: Factory, r: Resolver, w: World, name: Name)
    requires DeclaredBy(r.decls, owner) && RawCached(r)
    requires name !in r.pending && name !in r.values && name in r.decls && r.decls[name].Sequence?
    ensures var g := Get(owner, r, w, name);
      && g.res == Ok(Computed(r.decls[name].fn, [Int(r.step.sequence)]))
      && g.w == w && g.r == r.(values := r.values[name := g.res.value])
  {
    GetEvaluates(owner, r, w, name);
  }

  /** Memoisation: once `aget` has produced a value for a name, asking again
      returns that value and changes nothing, so a declaration is evaluated
      at most once per resolver. */
  lemma GetMemoised(owner: Factory, r: Resolver, w: World, name: Name)
    requires DeclaredBy(r.decls, owner) && RawCached(r)
    requires name !in r.pending
    ensures var g := Get(owner, r, w, name);
      g.res.Ok? ==> Get(owner, g.r, g.w, name) == g
  {
  }

  /** `chain` is a run of lazy declarations, none pending or cached yet,
      each requesting the next one first; the last one requests `back`. */
  ghost predicate LazyChain(r: Resolver, chain: seq<Name>, back: Name) {
    && Distinct(chain)
    && forall i :: 0 <= i < |chain| ==>
      && chain[i] !in r.pending && chain[i] !in r.values && chain[i] in r.decls
      && r.decls[chain[i]].Lazy? && |r.decls[chain[i]].deps| > 0
      && r.decls[chain[i]].deps[0] == (if i + 1 < |chain| then chain[i + 1] else back)
  }

  /** One link of a lazy chain. */
  lemma ChainLink(r: Resolver, chain: seq<Name>, back: Name, i: nat)
    requires LazyChain(r, chain, back) && i < |chain|
    ensures chain[i] !in r.pending && chain[i] !in r.values && chain[i] in r.decls
    ensures r.decls[chain[i]].Lazy? && |r.decls[chain[i]].deps| > 0
    ensures r.decls[chain[i]].deps[0] == (if i + 1 < |chain| then chain[i + 1] else back)
  {
  }

  /** Cycle detection: when a chain of lazy declarations leads back to a
      name already being computed, the request for the head of the chain
      fails with a cyclic-definition error naming that name and the pending
      chain that reached it. A declaration that needs itself first is the
      chain of one name. */
  lemma {:induction false} CycleDetected(owner: Factory, r: Resolver, w: World, chain: seq<Name>, back: Name)
    requires DeclaredBy(r.decls, owner) && RawCached(r)
    requires |chain| > 0 && LazyChain(r, chain, back)
    requires back in r.pending + chain
    ensures Get(owner, r, w, chain[0]).res == Err(CyclicDefinition(back, r.pending + chain))
    decreases |chain|
  {
    var name := chain[0];
    var d := r.decls[name];
    var pushed := r.(pending := r.pending + [name]);
    var next := if 1 < |chain| then chain[1] else back;
    ChainLink(r, chain, back, 0);
    if |chain| == 1 {
      assert back in pushed.pending;
      assert pushed.pending == r.pending + chain;
      assert Get(owner, pushed, w, next).res == Err(CyclicDefinition(back, pushed.pending));
    } else {
      var rest := chain[1..];
      assert pushed.pending + rest == r.pending + chain;
      forall i | 0 <= i < |rest|
        ensures rest[i] !in pushed.pending
      {
        assert rest[i] == chain[i + 1];
      }
      assert LazyChain(pushed, rest, back) by {
        forall i | 0 <= i < |rest|
          ensures pushed.decls[rest[i]].deps[0] == (if i + 1 < |rest| then rest[i + 1] else back)
        {
          var j := i + 1;
          assert rest[i] == chain[j];
          ChainLink(r, chain, back, j);
          assert j + 1 < |chain| ==> rest[i + 1] == chain[j + 1];
        }
      }
      CycleDetected(owner, pushed, w, rest, back);
      assert rest[0] == next;
    }
    var first := Get(owner, pushed, w, next);
    assert first.res == Err(CyclicDefinition(back, r.pending + chain));
    assert GetAll(owner, pushed, w, d.deps).res == Err(first.res.error);
    assert EvaluatePre(owner, pushed, w, name, d).res == first.res;
    assert Compute(owner, r, w, name).res == first.res;
  }

  function Weight(d: Decl): nat {
    if d.Lazy? then |d.deps| + 2 else 0
  }

  /** `aevaluate_pre` of the declaration of `name`: a lazy function requests
      its dependencies in order, a sequence declaration reads the step's
      sequence number, a parent attribute reads the parent step's resolved
      attributes, and a sub-factory runs a nested build whose step has this
      step as parent. */
  function EvaluatePre(ghost owner: Factory, r: Resolver, w: World, name: Name, d: Decl): (g: Got)
    requires DeclaredBy(r.decls, owner) && RawCached(r)
    requires name in r.decls && d == r.decls[name]
    ensures Keeps(r, g.r) && RawCached(g.r) && Effects(w, g.w, r.step.strategy)
    ensures d.Sequence? ==> g == Got(r, w, Ok(Computed(d.fn, [Int(r.step.sequence)])))
    ensures d.ParentAttr? && r.step.parentStub.None? ==> g == Got(r, w, Err(UnknownAttribute(d.attr)))
    ensures d.Sub? && d.target.NotAFactory? ==> g == Got(r, w, Err(AssociatedClass(d.target.name)))
    ensures d.Sub? && g.res.Ok? ==> g.res.value.Obj?
    decreases owner, 1, Unresolved(r.decls.Keys, r.pending), Weight(d)
  {
    match d
    case Lazy(deps, fn) =>
      var all := GetAll(owner, r, w, deps);
      (match all.res
       case Err(e) => Got(all.r, all.w, Err(e))
       case Ok(vs) => Got(all.r, all.w, Ok(Computed(fn, vs))))
    case Sequence(fn) => Got(r, w, Ok(Computed(fn, [Int(r.step.sequence)])))
    case ParentAttr(attr) =>
      (match r.step.parentStub
       case None => Got(r, w, Err(UnknownAttribute(attr)))
       case Some(stub) =>
         if attr in stub then Got(r, w, Ok(stub[attr])) else Got(r, w, Err(UnknownAttribute(attr))))
    case Sub(target, overrides, forceSeq) =>
      var force := if forceSeq then Some(r.step.sequence) else None;
      (match ARecurse(r.step, r.values, target, overrides, force)
       case Err(e) => Got(r, w, Err(e))
       case Ok(child) =>
         assert d == owner.decls.m[name];
         var o := Build(child.builder, w, Some(child.parentStub), child.forceSequence);
         (match o.res
          case Err(e) => Got(r, o.w, Err(e))
          case Ok(inst) => Got(r, o.w, Ok(Obj(inst)))))
    case Static(v) => Got(r, w, Ok(v))
    case PostGen(h) => Got(r, w, Ok(Unevaluated(h.fn)))
  }

  /** A lazy declaration that succeeds is its function applied to the
      values of its dependencies, in the declared order, each now cached. */
  lemma LazyValue(owner: Factory, r: Resolver, w: World, name: Name)
    requires DeclaredBy(r.decls, owner) && RawCached(r)
    requires name in r.decls && r.decls[name].Lazy?
    ensures var d, g := r.decls[name], EvaluatePre(owner, r, w, name, r.decls[name]);
      g.res.Ok? ==>
        && g.res.value.Computed? && g.res.value.fn == d.fn && |g.res.value.args| == |d.deps|
        && forall i :: 0 <= i < |d.deps| ==> d.deps[i] in g.r.values && g.res.value.args[i] == g.r.values[d.deps[i]]
  {
    var d := r.decls[name];
    var all := GetAll(owner, r, w, d.deps);
    assert EvaluatePre(owner, r, w, name, d).r == all.r;
  }

  /** A parent-attribute declaration reads the parent step's resolved
      attribute of that name, changes nothing, and fails when the parent
      has no such attribute. */
  lemma ParentValue(owner: Factory, r: Resolver, w: World, name: Name)
    requires DeclaredBy(r.decls, owner) && RawCached(r)
    requires name in r.decls && r.decls[name].ParentAttr? && r.step.parentStub.Some?
    ensures var attr, stub, g := r.decls[name].attr, r.step.parentStub.value, EvaluatePre(owner, r, w, name, r.decls[name]);
      && g.r == r && g.w == w
      && (attr in stub ==> g.res == Ok(stub[attr]))
      && (attr !in stub ==> g.res == Err(UnknownAttribute(attr)))
  {
  }

  /** A sub-factory declaration that succeeds yields the nested build's
      instance of the target factory's model: a row of the store under
      create, an in-memory instance under build, a stub under stub. */
  lemma SubValue(owner: Factory, r: Resolver, w: World, name: Name)
    requires DeclaredBy(r.decls, owner) && RawCached(r)
    requires name in r.decls && r.decls[name].Sub? && r.decls[name].target.FactoryClass?
    ensures var f, g := r.decls[name].target.factory, EvaluatePre(owner, r, w, name, r.decls[name]);
      && (g.res.Ok? && r.step.strategy == CreateStrategy ==>
            Durable(g.w.store, g.res.value.inst) && g.res.value.inst.model == f.model.name)
      && (g.res.Ok? && r.step.strategy == BuildStrategy ==>
            g.res.value.inst.Built? && g.res.value.inst.model == f.model.name)
      && (g.res.Ok? && r.step.strategy == StubStrategy ==> g.res.value.inst.StubObject?)
  {
  }

  /** Request each name of `deps` in turn, stopping at the first error. */
  function GetAll(ghost owner: Factory, r: Resolver, w: World, deps: seq<Name>): (g: GotAll)
    requires DeclaredBy(r.decls, owner) && RawCached(r)
    ensures Keeps(r, g.r) && RawCached(g.r) && Effects(w, g.w, r.step.strategy)
    ensures g.res.Ok? ==> |g.res.value| == |deps|
    ensures g.res.Ok? ==> forall i :: 0 <= i < |deps| ==> deps[i] in g.r.values && g.r.values[deps[i]] == g.res.value[i]
    decreases owner, 1, Unresolved(r.decls.Keys, r.pending), |deps| + 1
  {
    if deps == [] then GotAll(r, w, Ok([]))
    else
      var first := Get(owner, r, w, deps[0]);
      match first.res
      case Err(e) => GotAll(first.r, first.w, Err(e))
      case Ok(v) =>
        var rest := GetAll(owner, first.r, first.w, deps[1..]);
        KeepsTrans(r, first.r, rest.r);
        EffectsTrans(w, first.w, rest.w, r.step.strategy);
        match rest.res
        case Err(e) => GotAll(rest.r, rest.w, Err(e))
        case Ok(vs) =>
          assert forall i :: 1 <= i < |deps| ==> deps[i] == deps[1..][i - 1] && ([v] + vs)[i] == vs[i - 1];
          GotAll(rest.r, rest.w, Ok([v] + vs))
  }

  /** `aresolve`: request every name of `names` in order and record each
      value under its name, stopping at the first error. */
  function ResolveAll(ghost owner: Factory, names: seq<Name>, r: Resolver, w: World): (g: Resolved)
    requires DeclaredBy(r.decls, owner) && RawCached(r)
    ensures Keeps(r, g.r) && RawCached(g.r) && Effects(w, g.w, r.step.strategy)
    ensures g.res.Ok? ==> g.res.value.keys == names && g.res.value.m.Keys == (set k | k in names)
    ensures g.res.Ok? ==> forall k :: k in g.res.value.m ==> k in g.r.values && g.res.value.m[k] == g.r.values[k]
    decreases owner, 2, |names|, 0
  {
    if names == [] then Resolved(r, w, Ok(OMap([], map[])))
    else
      var first := Get(owner, r, w, names[0]);
      match first.res
      case Err(e) => Resolved(first.r, first.w, Err(e))
      case Ok(v) =>
        var rest := ResolveAll(owner, names[1..], first.r, first.w);
        KeepsTrans(r, first.r, rest.r);
        EffectsTrans(w, first.w, rest.w, r.step.strategy);
        match rest.res
        case Err(e) => Resolved(rest.r, rest.w, Err(e))
        case Ok(attrs) =>
          assert names == [names[0]] + names[1..];
          assert rest.r.values[names[0]] == v;
          Resolved(rest.r, rest.w, Ok(OMap(names, attrs.m[names[0] := v])))
  }

  /** `k` reaches the model as a keyword argument: a declared or overridden
      attribute that is not a post-generation hook and not excluded. */
  ghost predicate Attribute(b: StepBuilder, k: Name) {
    && !IsPost(b.factory.decls, k)
    && (Has(b.factory.decls, k) || Has(b.extras, k))
    && k !in b.factory.exclude
  }

  /** The keyword attributes an instance carries. */
  function KwargsOf(i: Instance): map<Name, Value> {
    match i
    case Built(_, _, kwargs) => kwargs
    case Persisted(_, _, fields) => fields
    case StubObject(attrs) => attrs
  }

  datatype Completed = Completed(w: World, res: Result<Instance>)

  /** The part of `abuild` after resolution: instantiate once from the
      prepared arguments, run every post-generation hook in order, and hand
      the results to the options once. */
  function Complete(b: StepBuilder, post: OMap<Hook>, attrs: OMap<Value>, w: World): (c: Completed)
    requires post.Valid()
    ensures Effects(w, c.w, b.strategy) && c.w.counters == w.counters
    ensures c.res.Ok? && b.strategy == BuildStrategy ==>
      c.res.value.Built? && c.res.value.model == b.factory.model.name && c.res.value.args == []
    ensures c.res.Ok? && b.strategy == StubStrategy ==> c.res.value.StubObject?
    ensures c.res.Ok? && b.strategy != CreateStrategy ==>
      KwargsOf(c.res.value).Keys == attrs.m.Keys - b.factory.exclude && Extends(KwargsOf(c.res.value), attrs.m)
    ensures c.res.Ok? && b.strategy == CreateStrategy ==>
      Durable(c.w.store, c.res.value) && c.res.value.model == b.factory.model.name
    ensures c.res.Ok? ==>
      c.w.store.saves == w.store.saves + (if b.strategy == CreateStrategy && post.m != map[] then [c.res.value] else [])
    ensures c.res.Err? ==> c.w.store.saves == w.store.saves
    ensures c.res.Ok? && b.strategy == CreateStrategy && post.m != map[] ==>
      |c.w.store.saves| > 0 && c.w.store.saves[|c.w.store.saves| - 1] == c.res.value
  {
    var made := Make(b, attrs, w.store);
    match made.res
    case Err(e) => Completed(w.(store := made.store), Err(e))
    case Ok(inst) =>
      var results := RunPostHooks(post, inst);
      HooksReport(post, inst);
      var saved := UsePostgenerationResults(b.strategy, inst, results, made.store);
      var again := b.strategy == CreateStrategy && post.m != map[];
      assert saved.rows == made.store.rows;
      assert saved.saves == w.store.saves + (if again then [inst] else []);
      Completed(w.(store := saved), Ok(inst))
  }

  /** Instantiation from the prepared arguments of the resolved attributes:
      only create writes, no save is recorded, and a written row holds the
      attributes that are not excluded, each awaited. */
  function Make(b: StepBuilder, attrs: OMap<Value>, s: Store): (m: Written)
    ensures Grows(s, m.store) && m.store.saves == s.saves
    ensures b.strategy != CreateStrategy ==> m.store == s
    ensures m.res.Ok? && b.strategy == BuildStrategy ==>
      m.res.value.Built? && m.res.value.model == b.factory.model.name && m.res.value.args == []
    ensures m.res.Ok? && b.strategy == StubStrategy ==> m.res.value.StubObject?
    ensures m.res.Ok? && b.strategy != CreateStrategy ==>
      KwargsOf(m.res.value).Keys == attrs.m.Keys - b.factory.exclude && Extends(KwargsOf(m.res.value), attrs.m)
    ensures m.res.Ok? && b.strategy == CreateStrategy ==>
      Durable(m.store, m.res.value) && m.res.value.model == b.factory.model.name
    ensures forall i :: |s.rows| <= i < |m.store.rows| ==>
      && m.store.rows[i].model == b.factory.model.name
      && m.store.rows[i].fields.Keys == attrs.m.Keys - b.factory.exclude
      && forall n :: n in m.store.rows[i].fields ==> m.store.rows[i].fields[n] == Await(attrs.m[n])
  {
    var prepared := PrepareArguments(b.factory, attrs);
    Instantiate(b.factory, b.strategy, prepared.args, prepared.kwargs, b.extras.m, s)
  }

  /** Some hook ran exactly when some result was reported. */
  lemma HooksReport(post: OMap<Hook>, inst: Instance)
    requires post.Valid()
    ensures post.m != map[] <==> RunPostHooks(post, inst).m != map[]
  {
    if post.m != map[] {
      var k :| k in post.m;
      assert k in RunPostHooks(post, inst).m;
    }
  }

  /** Under create, a row written while completing a build belongs to the
      factory's model and holds exactly the resolved attributes that are
      not excluded, each awaited. */
  lemma CompleteWrites(b: StepBuilder, post: OMap<Hook>, attrs: OMap<Value>, w: World)
    requires post.Valid()
    ensures var c := Complete(b, post, attrs, w);
      forall i :: |w.store.rows| <= i < |c.w.store.rows| ==>
        && c.w.store.rows[i].model == b.factory.model.name
        && c.w.store.rows[i].fields.Keys == attrs.m.Keys - b.factory.exclude
        && forall n :: n in c.w.store.rows[i].fields ==> c.w.store.rows[i].fields[n] == Await(attrs.m[n])
  {
    var made := Make(b, attrs, w.store);
    assert Complete(b, post, attrs, w).w.store.rows == made.store.rows;
  }

  /** The resolved attributes are the declared and overridden non-hook
      names, and an override's value is the one the caller passed. */
  lemma ResolvedAttributes(b: StepBuilder, parsed: Parsed, attrs: OMap<Value>, r: Resolver)
    requires parsed == ParseDeclarations(b.factory.decls, b.extras)
    requires r.decls == parsed.pre.m && RawCached(r)
    requires attrs.m.Keys == (set k | k in parsed.pre.keys)
    requires forall k :: k in attrs.m ==> k in r.values && attrs.m[k] == r.values[k]
    ensures forall k :: k in attrs.m && k !in b.factory.exclude <==> Attribute(b, k)
    ensures forall k :: Has(b.extras, k) && k in attrs.m ==> attrs.m[k] == b.extras.m[k]
    ensures (exists k :: IsPost(b.factory.decls, k)) ==> parsed.post.m != map[]
  {
    if exists k :: IsPost(b.factory.decls, k) {
      var k :| IsPost(b.factory.decls, k);
      assert k in parsed.post.m;
    }
  }

  /** `abuild`: choose the sequence number, resolve every attribute
      declaration in order, then instantiate, run the hooks and hand their
      results back. */
  function Build(b: StepBuilder, w: World, parent: Option<map<Name, Value>>, force: Option<int>): (o: Outcome)
    ensures Effects(w, o.w, b.strategy)
    ensures force.Some? ==> o.sequence == force.value
    ensures force.None? && b.forceInitSequence.Some? ==> o.sequence == b.forceInitSequence.value
    ensures force.None? && b.forceInitSequence.None? ==>
      o.sequence == Counter(w.counters, b.factory.name) && o.sequence < Counter(o.w.counters, b.factory.name)
    ensures o.res.Ok? && b.strategy == BuildStrategy ==>
      o.res.value.Built? && o.res.value.model == b.factory.model.name && o.res.value.args == []
    ensures o.res.Ok? && b.strategy == StubStrategy ==> o.res.value.StubObject?
    ensures o.res.Ok? && b.strategy == CreateStrategy ==>
      Durable(o.w.store, o.res.value) && o.res.value.model == b.factory.model.name
    ensures o.res.Ok? && b.strategy != CreateStrategy ==>
      forall k :: k in KwargsOf(o.res.value) <==> Attribute(b, k)
    ensures o.res.Ok? && b.strategy != CreateStrategy ==>
      forall k :: Attribute(b, k) && Has(b.extras, k) ==> KwargsOf(o.res.value)[k] == b.extras.m[k]
    ensures o.res.Ok? && b.strategy == CreateStrategy && (exists k :: IsPost(b.factory.decls, k)) ==>
      |o.w.store.saves| > 0 && o.w.store.saves[|o.w.store.saves| - 1] == o.res.value
    decreases b.factory, 3, 0, 0
  {
    var parsed := ParseDeclarations(b.factory.decls, b.extras);
    var sq := ChooseSequence(force, b.forceInitSequence, w.counters, b.factory.name);
    var w1 := w.(counters := sq.counters);
    ParsedDeclaredBy(b.factory, b.extras);
    var r0 := Resolver(parsed.pre.m, map[], [], StepCtx(b.strategy, sq.sequence, parent));
    var resolved := ResolveAll(b.factory, parsed.pre.keys, r0, w1);
    EffectsTrans(w, w1, resolved.w, b.strategy);
    match resolved.res
    case Err(e) => Outcome(resolved.w, Err(e), sq.sequence)
    case Ok(attrs) =>
      ResolvedAttributes(b, parsed, attrs, resolved.r);
      var done := Complete(b, parsed.post, attrs, resolved.w);
      EffectsTrans(w, resolved.w, done.w, b.strategy);
      Outcome(done.w, done.res, sq.sequence)
  }
}
