/** Values flowing through the factory pipeline: attribute values, generated
    instances, the errors the pipeline raises, and the awaiting of coroutines.
    An `await` is modelled as sequencing: a coroutine is a value that carries
    the result it will produce when awaited. */
module Values {

  /** Attribute, field and declaration names. */
  type Name = string

  datatype Option<+T> = None | Some(value: T)

  /** An attribute value. `Computed` stands for the result of a computation
      whose internals are not modelled (a lazy function, a fake-value
      provider, a post-generation hook); `Unevaluated` is a post-generation
      declaration object cached by the resolver without being evaluated. */
  datatype Value =
    | Null
    | Int(i: int)
    | Str(s: string)
    | Computed(fn: string, args: seq<Value>)
    | Awaitable(result: Value)
    | Obj(inst: Instance)
    | Unevaluated(hook: string)

  /** What a generation returns, one shape per strategy: an in-memory model
      instance, a row held by the store, or a bare stub. */
  datatype Instance =
    | Built(model: string, args: seq<Value>, kwargs: map<Name, Value>)
    | Persisted(model: string, id: nat, fields: map<Name, Value>)
    | StubObject(attrs: map<Name, Value>)

  /** The errors the pipeline raises or lets through. */
  datatype Error =
    | AbstractFactory(factory: string)           // FactoryError: no concrete model
    | MissingLookupField(field: Name)            // FactoryError: get-or-create field absent
    | ReservedDefaults                           // assertion: 'defaults' is a get-or-create field
    | CyclicDefinition(name: Name, pending: seq<Name>)
    | UnknownAttribute(name: Name)               // AttributeError on lookup
    | AssociatedClass(target: string)
    | Integrity(model: string)                   // uniqueness-constraint violation
    | MultipleObjectsReturned(model: string)

  datatype Result<+T> = Ok(value: T) | Err(error: Error)

  /** A value that is not a coroutine still waiting to be awaited. */
  predicate Settled(v: Value) {
    !v.Awaitable?
  }

  /** `await v` when `v` is awaitable, `v` itself otherwise. */
  function Await(v: Value): (r: Value)
    ensures v.Awaitable? ==> r == v.result
    ensures !v.Awaitable? ==> r == v
  {
    if v.Awaitable? then v.result else v
  }

  /** Every value bound in `a` is bound to the same value in `b`. */
  ghost predicate Extends<K, V>(a: map<K, V>, b: map<K, V>) {
    forall k :: k in a ==> k in b && b[k] == a[k]
  }

  /** Elements of `s` are pairwise distinct. */
  ghost predicate Distinct<T>(s: seq<T>) {
    forall i, j :: 0 <= i < j < |s| ==> s[i] != s[j]
  }
}
