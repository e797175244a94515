/** The factory options' part of a generation: shaping the resolved
    attributes into model arguments, the strategy dispatch of instantiation,
    and handing the post-generation results back to the factory. */
module Options {
  import opened Values
  import opened OrderedMaps
  import opened Orm
  import opened Declarations
  import opened ModelFactory

  datatype Prepared = Prepared(args: seq<Value>, kwargs: map<Name, Value>)

  /** `prepare_arguments`: every resolved attribute except the excluded ones
      becomes a keyword argument; there are no positional arguments. */
  function PrepareArguments(f: Factory, attributes: OMap<Value>): (p: Prepared)
    ensures p.args == []
    ensures p.kwargs.Keys == attributes.m.Keys - f.exclude
    ensures Extends(p.kwargs, attributes.m)
  {
    Prepared([], map k | k in attributes.m && k !in f.exclude :: attributes.m[k])
  }

  /** `ainstantiate`: exactly one terminal action per strategy. Build makes
      an in-memory instance, create persists through `_acreate`, and stub
      keeps only the keyword arguments; only create touches the store. */
  function Instantiate(f: Factory, strategy: Strategy, args: seq<Value>, kwargs: map<Name, Value>,
                       original: map<Name, Value>, s: Store): (w: Written)
    ensures strategy != CreateStrategy ==> w.store == s
    ensures w.store.saves == s.saves
    ensures strategy == BuildStrategy ==> w.res == Ok(Built(f.model.name, args, kwargs))
    ensures strategy == StubStrategy ==> w.res == Ok(StubObject(kwargs))
    ensures strategy == CreateStrategy ==> w == ACreate(f, s, kwargs, original)
  {
    match strategy
    case BuildStrategy => Written(s, Ok(Built(f.model.name, args, kwargs)))
    case CreateStrategy => ACreate(f, s, kwargs, original)
    case StubStrategy => Written(s, Ok(StubObject(kwargs)))
  }

  /** `ause_postgeneration_results`: the factory's hook is told to create
      exactly when the strategy is create, so only a created instance with
      post-generation results is saved again. */
  function UsePostgenerationResults(strategy: Strategy, inst: Instance, results: OMap<Value>, s: Store): (r: Store)
    ensures r.rows == s.rows
    ensures strategy == CreateStrategy && results.m != map[] ==> r.saves == s.saves + [inst]
    ensures !(strategy == CreateStrategy && results.m != map[]) ==> r == s
  {
    AfterPostgeneration(s, inst, strategy == CreateStrategy, results.m)
  }
}
