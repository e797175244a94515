/** Factory definitions: attribute declarations, the factory's options, the
    three generation strategies, and the split of declarations plus call-time
    overrides into the pre-instantiation and post-generation sets. */
module Declarations {
  import opened Values
  import opened OrderedMaps
  import opened Orm

  /** The closed set of generation strategies. */
  datatype Strategy = BuildStrategy | CreateStrategy | StubStrategy

  /** The phase a declaration is evaluated in; a raw value has none. */
  datatype Phase = AttributeResolution | PostGeneration

  /** A post-generation hook; an async hook returns a coroutine. */
  datatype Hook = Hook(fn: string, isAsync: bool)

  /** A named attribute rule.
      - `Static`: a raw value, used as is.
      - `Lazy`: a function of other attributes of the same step.
      - `Sequence`: a function of the step's sequence number.
      - `ParentAttr`: an attribute already resolved by the parent step.
      - `Sub`: the instance generated by a nested factory call.
      - `PostGen`: a hook run once the instance exists. */
  datatype Decl =
    | Static(v: Value)
    | Lazy(deps: seq<Name>, fn: string)
    | Sequence(fn: string)
    | ParentAttr(attr: Name)
    | Sub(target: Target, overrides: OMap<Value>, forceSequence: bool)
    | PostGen(hook: Hook)

  /** What a sub-factory declaration points at: a factory class, or a class
      that is not a factory. */
  datatype Target = FactoryClass(factory: Factory) | NotAFactory(name: string)

  /** A factory class and its options: the model it generates, whether it is
      abstract, its declarations in class order, the get-or-create lookup
      fields and the attribute names kept out of the model's arguments. */
  datatype Factory = Factory(
    name: string,
    model: Model,
    isAbstract: bool,
    decls: OMap<Decl>,
    getOrCreate: seq<Name>,
    exclude: set<Name>)

  function BuilderPhase(d: Decl): Option<Phase> {
    match d
    case Static(_) => None
    case PostGen(_) => Some(PostGeneration)
    case _ => Some(AttributeResolution)
  }

  /** The value the resolver caches for a declaration it does not evaluate. */
  function RawValue(d: Decl): Value
    requires BuilderPhase(d) != Some(AttributeResolution)
  {
    if d.Static? then d.v else Unevaluated(d.hook.fn)
  }

  /** `simple_generate`: `create` chooses between the create and build strategies. */
  function SimpleStrategy(create: bool): (s: Strategy)
    ensures s == CreateStrategy <==> create
    ensures s != StubStrategy
  {
    if create then CreateStrategy else BuildStrategy
  }

  /** `k` is declared by `o`, listed and bound. */
  predicate Has<T>(o: OMap<T>, k: Name) {
    k in o.keys && k in o.m
  }

  predicate IsPost(decls: OMap<Decl>, k: Name) {
    Has(decls, k) && decls.m[k].PostGen?
  }

  /** The declarations and overrides of one generation, split by phase. */
  datatype Parsed = Parsed(pre: OMap<Decl>, post: OMap<Hook>)

  /** The names of `keys`, in order, that are declared in `m` as hooks
      (`hooks`) or as anything else (`!hooks`). */
  function DeclaredNames(keys: seq<Name>, m: map<Name, Decl>, hooks: bool): seq<Name> {
    if keys == [] then []
    else (if keys[0] in m && m[keys[0]].PostGen? == hooks then [keys[0]] else []) + DeclaredNames(keys[1..], m, hooks)
  }

  /** The names of `keys`, in order, that carry an override and name no
      declaration of `decls`. */
  function UndeclaredNames(keys: seq<Name>, extras: map<Name, Value>, decls: OMap<Decl>): seq<Name> {
    if keys == [] then []
    else (if keys[0] in extras && !Has(decls, keys[0]) then [keys[0]] else []) + UndeclaredNames(keys[1..], extras, decls)
  }

  lemma {:induction false} DeclaredNamesSnoc(keys: seq<Name>, k: Name, m: map<Name, Decl>, hooks: bool)
    ensures DeclaredNames(keys + [k], m, hooks) ==
      DeclaredNames(keys, m, hooks) + (if k in m && m[k].PostGen? == hooks then [k] else [])
  {
    if keys != [] {
      assert (keys + [k])[1..] == keys[1..] + [k];
      DeclaredNamesSnoc(keys[1..], k, m, hooks);
    }
  }

  lemma {:induction false} UndeclaredNamesSnoc(keys: seq<Name>, k: Name, extras: map<Name, Value>, decls: OMap<Decl>)
    ensures UndeclaredNames(keys + [k], extras, decls) ==
      UndeclaredNames(keys, extras, decls) + (if k in extras && !Has(decls, k) then [k] else [])
  {
    if keys != [] {
      assert (keys + [k])[1..] == keys[1..] + [k];
      UndeclaredNamesSnoc(keys[1..], k, extras, decls);
    }
  }

  /** The non-post declarations among the first names of `keys`, in order. */
  function BasePre(keys: seq<Name>, m: map<Name, Decl>): (o: OMap<Decl>)
    ensures o.Valid()
    ensures forall k :: k in o.m <==> k in keys && k in m && !m[k].PostGen?
    ensures forall k :: k in o.m ==> o.m[k] == m[k]
    ensures Distinct(keys) ==> o.keys == DeclaredNames(keys, m, false)
  {
    if keys == [] then Empty()
    else
      var o := BasePre(keys[..|keys| - 1], m);
      var k := keys[|keys| - 1];
      assert keys == keys[..|keys| - 1] + [k];
      DeclaredNamesSnoc(keys[..|keys| - 1], k, m, false);
      if k in m && !m[k].PostGen? then Put(o, k, m[k]) else o
  }

  /** The post-generation hooks among the names of `keys`, in order. */
  function BasePost(keys: seq<Name>, m: map<Name, Decl>): (o: OMap<Hook>)
    ensures o.Valid()
    ensures forall k :: k in o.m <==> k in keys && k in m && m[k].PostGen?
    ensures forall k :: k in o.m ==> o.m[k] == m[k].hook
    ensures Distinct(keys) ==> o.keys == DeclaredNames(keys, m, true)
  {
    if keys == [] then Empty()
    else
      var o := BasePost(keys[..|keys| - 1], m);
      var k := keys[|keys| - 1];
      assert keys == keys[..|keys| - 1] + [k];
      DeclaredNamesSnoc(keys[..|keys| - 1], k, m, true);
      if k in m && m[k].PostGen? then Put(o, k, m[k].hook) else o
  }

  /** Apply the overrides named in `keys`, in order, as raw values; an
      override naming a post-generation declaration is not an attribute. */
  function Overlay(pre: OMap<Decl>, keys: seq<Name>, extras: map<Name, Value>, decls: OMap<Decl>): (o: OMap<Decl>)
    requires pre.Valid()
    ensures o.Valid()
    ensures forall k :: k in o.m <==> k in pre.m || (k in keys && k in extras && !IsPost(decls, k))
    ensures forall k :: k in o.m && k in keys && k in extras && !IsPost(decls, k) ==> o.m[k] == Static(extras[k])
    ensures forall k :: k in o.m && !(k in keys && k in extras && !IsPost(decls, k)) ==> o.m[k] == pre.m[k]
    ensures pre.keys <= o.keys
    ensures Distinct(keys) && (forall k :: k in keys && k in extras && !IsPost(decls, k) ==> (k in pre.m <==> Has(decls, k))) ==>
      o.keys == pre.keys + UndeclaredNames(keys, extras, decls)
  {
    if keys == [] then pre
    else
      var o := Overlay(pre, keys[..|keys| - 1], extras, decls);
      var k := keys[|keys| - 1];
      assert keys == keys[..|keys| - 1] + [k];
      UndeclaredNamesSnoc(keys[..|keys| - 1], k, extras, decls);
      if k in extras && !IsPost(decls, k) then Put(o, k, Static(extras[k])) else o
  }

  /** `parse_declarations`: the factory's attribute declarations in class
      order, each overridden in place by a same-named call-time value, then the
      overrides naming no declaration; and the post-generation hooks, in class
      order, which is the order they run in. */
  function ParseDeclarations(decls: OMap<Decl>, extras: OMap<Value>): (p: Parsed)
    ensures p.pre.Valid() && p.post.Valid()
    ensures forall k :: k in p.pre.m <==> !IsPost(decls, k) && (Has(decls, k) || Has(extras, k))
    ensures forall k :: k in p.pre.m && Has(extras, k) ==> p.pre.m[k] == Static(extras.m[k])
    ensures forall k :: k in p.pre.m && !Has(extras, k) ==> Has(decls, k) && p.pre.m[k] == decls.m[k]
    ensures forall k :: k in p.post.m <==> IsPost(decls, k)
    ensures forall k :: k in p.post.m ==> IsPost(decls, k) && p.post.m[k] == decls.m[k].hook
    ensures decls.Valid() ==> p.post.keys == DeclaredNames(decls.keys, decls.m, true)
    ensures decls.Valid() && extras.Valid() ==>
      p.pre.keys == DeclaredNames(decls.keys, decls.m, false) + UndeclaredNames(extras.keys, extras.m, decls)
  {
    var base := BasePre(decls.keys, decls.m);
    Parsed(Overlay(base, extras.keys, extras.m, decls), BasePost(decls.keys, decls.m))
  }

  /** Every declaration of `pre` that is not a raw value is the owner's own
      declaration of that name. */
  ghost predicate DeclaredBy(pre: map<Name, Decl>, owner: Factory) {
    forall k :: k in pre && !pre[k].Static? ==> k in owner.decls.m && owner.decls.m[k] == pre[k]
  }

  lemma ParsedDeclaredBy(f: Factory, extras: OMap<Value>)
    ensures DeclaredBy(ParseDeclarations(f.decls, extras).pre.m, f)
  {
  }
}
