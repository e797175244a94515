/** The persisting half of the async model factory: awaiting keyword
    arguments before they are written, plain creation versus get-or-create,
    the get-or-create retry on a uniqueness conflict, and the re-save after
    post-generation hooks. */
module ModelFactory {
  import opened Values
  import opened Orm
  import opened Declarations

  /** Keyword arguments split into the get-or-create lookup and the defaults. */
  datatype KeySplit = KeySplit(keys: map<Name, Value>, defaults: map<Name, Value>)

  /** Every configured field is supplied, and none is configured twice (a
      second occurrence finds the field already taken out of the kwargs). */
  ghost predicate Provides(fields: seq<Name>, kwargs: map<Name, Value>) {
    Distinct(fields) && forall i :: 0 <= i < |fields| ==> fields[i] in kwargs
  }

  /** Take each configured field, in order, out of the keyword arguments into
      the lookup; what is left are the defaults. */
  function SplitKeys(fields: seq<Name>, kwargs: map<Name, Value>): (r: Result<KeySplit>)
    ensures r.Ok? <==> Provides(fields, kwargs)
    ensures r.Ok? ==> r.value.keys.Keys == (set f | f in fields)
    ensures r.Ok? ==> r.value.keys.Keys !! r.value.defaults.Keys
    ensures r.Ok? ==> r.value.keys + r.value.defaults == kwargs
    ensures r.Err? ==> r.error.MissingLookupField? && r.error.field in fields
  {
    if fields == [] then Ok(KeySplit(map[], kwargs))
    else
      var f := fields[0];
      if f !in kwargs then Err(MissingLookupField(f))
      else
        match SplitKeys(fields[1..], kwargs - {f})
        case Err(e) =>
          assert !Provides(fields, kwargs) by { ProvidesTail(fields, kwargs); }
          Err(e)
        case Ok(s) =>
          ProvidesTail(fields, kwargs);
          assert s.keys[f := kwargs[f]] + s.defaults == kwargs;
          Ok(KeySplit(s.keys[f := kwargs[f]], s.defaults))
  }

  /** Unfolding `Provides` at the first configured field. */
  lemma ProvidesTail(fields: seq<Name>, kwargs: map<Name, Value>)
    requires |fields| > 0 && fields[0] in kwargs
    ensures Provides(fields, kwargs) <==> Provides(fields[1..], kwargs - {fields[0]})
  {
    var f, rest := fields[0], fields[1..];
    if Provides(rest, kwargs - {f}) {
      forall i | 0 <= i < |fields|
        ensures fields[i] in kwargs
      {
        if i > 0 { assert fields[i] == rest[i - 1]; }
      }
      forall i, j | 0 <= i < j < |fields|
        ensures fields[i] != fields[j]
      {
        assert fields[j] == rest[j - 1];
        if i > 0 { assert fields[i] == rest[i - 1]; }
      }
    }
    if Provides(fields, kwargs) {
      forall i | 0 <= i < |rest|
        ensures rest[i] in kwargs - {f}
      {
        assert rest[i] == fields[i + 1];
      }
    }
  }

  /** The caller's own parameters that are get-or-create fields. */
  function LookupParams(original: map<Name, Value>, fields: seq<Name>): (p: map<Name, Value>)
    ensures p.Keys == original.Keys * (set f | f in fields)
    ensures Extends(p, original)
  {
    map k | k in original && k in fields :: original[k]
  }

  /** The manager's get-or-create raised a uniqueness conflict for this call. */
  ghost predicate Conflicted(f: Factory, s: Store, kwargs: map<Name, Value>) {
    && "defaults" !in f.getOrCreate
    && SplitKeys(f.getOrCreate, kwargs).Ok?
    && var split := SplitKeys(f.getOrCreate, kwargs).value;
       GetOrCreateRow(s, f.model, split.keys, split.defaults).res == Err(Integrity(f.model.name))
  }

  /** `_get_or_create`: look the configured fields up, create with the rest
      as defaults; on a uniqueness conflict, look up again with only the
      caller's original parameters that are configured fields, and re-raise
      the conflict when there are none or nothing matches. */
  function GetOrCreate(f: Factory, s: Store, kwargs: map<Name, Value>, original: map<Name, Value>): (w: Written)
    ensures "defaults" in f.getOrCreate ==> w == Written(s, Err(ReservedDefaults))
    ensures "defaults" !in f.getOrCreate && !Provides(f.getOrCreate, kwargs) ==>
      w.store == s && w.res.Err? && w.res.error.MissingLookupField?
    ensures Grows(s, w.store) && |w.store.rows| <= |s.rows| + 1 && w.store.saves == s.saves
    ensures forall i :: |s.rows| <= i < |w.store.rows| ==> w.store.rows[i] == Row(f.model.name, kwargs)
    ensures w.res.Ok? ==> Durable(w.store, w.res.value) && w.res.value.model == f.model.name
  {
    if "defaults" in f.getOrCreate then Written(s, Err(ReservedDefaults))
    else
      match SplitKeys(f.getOrCreate, kwargs)
      case Err(e) => Written(s, Err(e))
      case Ok(split) =>
        var first := GetOrCreateRow(s, f.model, split.keys, split.defaults);
        if first.res.Err? && first.res.error.Integrity? then
          var params := LookupParams(original, f.getOrCreate);
          if params == map[] then first
          else
            match Get(first.store, f.model.name, params)
            case Found(i) => Written(first.store, Ok(Persisted(f.model.name, i, first.store.rows[i].fields)))
            case NotFound => first
            case Multiple => Written(first.store, Err(MultipleObjectsReturned(f.model.name)))
        else first
  }

  /** The retry after a uniqueness conflict: it writes nothing; with no
      original parameter among the lookup fields, or no row matching them,
      the conflict is raised again; when exactly one row matches them, that
      row is returned, and a successful retry is never anything else. */
  lemma GetOrCreateRetry(f: Factory, s: Store, kwargs: map<Name, Value>, original: map<Name, Value>)
    requires Conflicted(f, s, kwargs)
    ensures var w := GetOrCreate(f, s, kwargs, original);
      var params := LookupParams(original, f.getOrCreate);
      && w.store == s
      && (params == map[] ==> w.res == Err(Integrity(f.model.name)))
      && (Get(s, f.model.name, params).NotFound? ==> w.res == Err(Integrity(f.model.name)))
      && (params != map[] && Get(s, f.model.name, params).Multiple? ==> w.res == Err(MultipleObjectsReturned(f.model.name)))
      && (w.res.Ok? ==> Get(s, f.model.name, params) == Found(w.res.value.id))
      && (params != map[] && Get(s, f.model.name, params).Found? ==>
            var id := Get(s, f.model.name, params).id;
            w.res == Ok(Persisted(f.model.name, id, s.rows[id].fields)))
  {
    var split := SplitKeys(f.getOrCreate, kwargs).value;
    var first := GetOrCreateRow(s, f.model, split.keys, split.defaults);
    assert first.store == s by {
      match Get(s, f.model.name, split.keys)
      case Found(_) =>
      case Multiple =>
      case NotFound => assert first == Insert(s, f.model, split.keys + split.defaults);
    }
  }

  /** `_create`: get-or-create exactly when lookup fields are configured,
      otherwise a plain create. */
  function CreateInstance(f: Factory, s: Store, kwargs: map<Name, Value>, original: map<Name, Value>): (w: Written)
    ensures |f.getOrCreate| > 0 ==> w == GetOrCreate(f, s, kwargs, original)
    ensures |f.getOrCreate| == 0 ==> w == Insert(s, f.model, kwargs)
    ensures Grows(s, w.store) && |w.store.rows| <= |s.rows| + 1 && w.store.saves == s.saves
    ensures forall i :: |s.rows| <= i < |w.store.rows| ==> w.store.rows[i] == Row(f.model.name, kwargs)
    ensures w.res.Ok? ==> Durable(w.store, w.res.value) && w.res.value.model == f.model.name
  {
    if |f.getOrCreate| > 0 then GetOrCreate(f, s, kwargs, original)
    else Insert(s, f.model, kwargs)
  }

  /** Await every keyword argument that is a coroutine. */
  function AwaitKwargs(kwargs: map<Name, Value>): (r: map<Name, Value>)
    ensures r.Keys == kwargs.Keys
    ensures forall k :: k in kwargs && kwargs[k].Awaitable? ==> r[k] == kwargs[k].result
    ensures forall k :: k in kwargs && !kwargs[k].Awaitable? ==> r[k] == kwargs[k]
  {
    map k | k in kwargs :: Await(kwargs[k])
  }

  /** `_acreate`: await the keyword arguments, then persist them. A row
      written by this call holds only awaited values. */
  function ACreate(f: Factory, s: Store, kwargs: map<Name, Value>, original: map<Name, Value>): (w: Written)
    ensures Grows(s, w.store) && |w.store.rows| <= |s.rows| + 1 && w.store.saves == s.saves
    ensures forall i :: |s.rows| <= i < |w.store.rows| ==>
      w.store.rows[i].model == f.model.name && w.store.rows[i].fields.Keys == kwargs.Keys
    ensures forall i, n :: |s.rows| <= i < |w.store.rows| && n in w.store.rows[i].fields ==>
      w.store.rows[i].fields[n] == Await(kwargs[n])
    ensures w.res.Ok? ==> Durable(w.store, w.res.value) && w.res.value.model == f.model.name
  {
    CreateInstance(f, s, AwaitKwargs(kwargs), original)
  }

  /** `_after_postgeneration`: save the instance again when creating and at
      least one post-generation declaration produced a result entry. */
  function AfterPostgeneration(s: Store, inst: Instance, create: bool, results: map<Name, Value>): (r: Store)
    ensures r.rows == s.rows
    ensures create && results != map[] ==> r.saves == s.saves + [inst]
    ensures !(create && results != map[]) ==> r == s
  {
    if create && results != map[] then Save(s, inst) else s
  }

  /** Two identical get-or-create calls in a row: the second returns what the
      first returned and writes nothing, so no duplicate row appears. */
  lemma {:induction false} GetOrCreateTwice(f: Factory, s: Store, kwargs: map<Name, Value>, original: map<Name, Value>)
    requires GetOrCreate(f, s, kwargs, original).res.Ok?
    ensures var first := GetOrCreate(f, s, kwargs, original);
      GetOrCreate(f, first.store, kwargs, original) == first
  {
    var first := GetOrCreate(f, s, kwargs, original);
    var split := SplitKeys(f.getOrCreate, kwargs).value;
    var s1 := first.store;
    if s1 != s {
      assert first == GetOrCreateRow(s, f.model, split.keys, split.defaults);
      // The first call inserted `kwargs` as the only row matching the lookup.
      assert Get(s, f.model.name, split.keys).NotFound?;
      var id := |s.rows|;
      assert s1.rows == s.rows + [Row(f.model.name, kwargs)];
      assert Matches(s1.rows[id], f.model.name, split.keys);
      forall j | 0 <= j < |s1.rows| && j != id
        ensures !Matches(s1.rows[j], f.model.name, split.keys)
      {
        assert s1.rows[j] == s.rows[j];
      }
      assert Get(s1, f.model.name, split.keys) == Found(id);
      assert GetOrCreateRow(s1, f.model, split.keys, split.defaults) == first;
    }
  }
}
