/** The persistence collaborator: an append-only table of rows per model with
    unique-together constraints, and the manager operations the factories call
    (`acreate`, `aget`, `aget_or_create`, `asave`). Rows are never deleted or
    rewritten; a row's id is its position. Re-saves are recorded in `saves`. */
module Orm {
  import opened Values

  /** A model class: its name and its unique-together field groups. */
  datatype Model = Model(name: string, uniqueTogether: seq<seq<Name>>)

  datatype Row = Row(model: string, fields: map<Name, Value>)

  datatype Store = Store(rows: seq<Row>, saves: seq<Instance>)

  /** Result of a manager lookup. */
  datatype Lookup = NotFound | Found(id: nat) | Multiple

  /** Store operations that can fail return the store they leave behind. */
  datatype Written = Written(store: Store, res: Result<Instance>)

  /** Nothing already persisted is lost or changed: rows and saves only grow. */
  ghost predicate Grows(a: Store, b: Store) {
    a.rows <= b.rows && a.saves <= b.saves
  }

  /** `inst` is a row of `s`, with exactly the fields the row holds. */
  ghost predicate Durable(s: Store, inst: Instance) {
    && inst.Persisted?
    && inst.id < |s.rows|
    && s.rows[inst.id] == Row(inst.model, inst.fields)
  }

  /** The row belongs to `model` and agrees with every lookup parameter. */
  predicate Matches(row: Row, model: string, params: map<Name, Value>) {
    && row.model == model
    && forall k :: k in params ==> k in row.fields && row.fields[k] == params[k]
  }

  /** The first row at or after `from` matching the lookup. */
  function FirstMatch(rows: seq<Row>, model: string, params: map<Name, Value>, from: nat): (r: Option<nat>)
    requires from <= |rows|
    ensures r.Some? ==> from <= r.value < |rows| && Matches(rows[r.value], model, params)
    ensures r.Some? ==> forall j :: from <= j < r.value ==> !Matches(rows[j], model, params)
    ensures r.None? ==> forall j :: from <= j < |rows| ==> !Matches(rows[j], model, params)
    decreases |rows| - from
  {
    if from == |rows| then None
    else if Matches(rows[from], model, params) then Some(from)
    else FirstMatch(rows, model, params, from + 1)
  }

  /** The manager's `get`: one matching row, none, or several. */
  function Get(s: Store, model: string, params: map<Name, Value>): (r: Lookup)
    ensures r.NotFound? <==> forall j :: 0 <= j < |s.rows| ==> !Matches(s.rows[j], model, params)
    ensures r.Found? ==> r.id < |s.rows| && Matches(s.rows[r.id], model, params)
    ensures r.Found? ==> forall j :: 0 <= j < |s.rows| && j != r.id ==> !Matches(s.rows[j], model, params)
    ensures r.Multiple? <==>
      exists i, j :: 0 <= i < j < |s.rows| && Matches(s.rows[i], model, params) && Matches(s.rows[j], model, params)
  {
    match FirstMatch(s.rows, model, params, 0)
    case None => NotFound
    case Some(i) =>
      var next := FirstMatch(s.rows, model, params, i + 1);
      if next.Some? then Multiple else Found(i)
  }

  /** Two field maps agree on every field of a unique-together group. */
  predicate SameOn(a: map<Name, Value>, b: map<Name, Value>, group: seq<Name>) {
    forall n :: n in group ==> n in a && n in b && a[n] == b[n]
  }

  /** Inserting `fields` would violate one of the model's unique groups. */
  predicate Clashes(s: Store, model: Model, fields: map<Name, Value>) {
    exists i, g :: 0 <= i < |s.rows| && 0 <= g < |model.uniqueTogether|
      && s.rows[i].model == model.name && SameOn(s.rows[i].fields, fields, model.uniqueTogether[g])
  }

  /** The manager's `create`: append a row unless a unique group clashes. */
  function Insert(s: Store, model: Model, fields: map<Name, Value>): (w: Written)
    ensures w.res.Err? <==> Clashes(s, model, fields)
    ensures w.res.Err? ==> w == Written(s, Err(Integrity(model.name)))
    ensures w.res.Ok? ==> w.store == s.(rows := s.rows + [Row(model.name, fields)])
    ensures w.res.Ok? ==> w.res.value == Persisted(model.name, |s.rows|, fields) && Durable(w.store, w.res.value)
  {
    if Clashes(s, model, fields) then Written(s, Err(Integrity(model.name)))
    else Written(s.(rows := s.rows + [Row(model.name, fields)]), Ok(Persisted(model.name, |s.rows|, fields)))
  }

  /** The manager's `get_or_create(defaults=…, **keys)` run without a
      concurrent writer: an existing row matching `keys` is returned, otherwise
      `keys` and `defaults` are inserted together. Its own retry after a
      conflict looks `keys` up again in the same store, finds nothing, and so
      raises the conflict. */
  function GetOrCreateRow(s: Store, model: Model, keys: map<Name, Value>, defaults: map<Name, Value>): (w: Written)
    ensures Grows(s, w.store) && w.store.saves == s.saves
    ensures w.res.Ok? ==> Durable(w.store, w.res.value) && w.res.value.model == model.name
    ensures Get(s, model.name, keys).Found? ==>
      w == Written(s, Ok(Persisted(model.name, Get(s, model.name, keys).id, s.rows[Get(s, model.name, keys).id].fields)))
    ensures Get(s, model.name, keys).Multiple? ==> w == Written(s, Err(MultipleObjectsReturned(model.name)))
    ensures Get(s, model.name, keys).NotFound? ==> w == Insert(s, model, keys + defaults)
  {
    match Get(s, model.name, keys)
    case Found(i) => Written(s, Ok(Persisted(model.name, i, s.rows[i].fields)))
    case Multiple => Written(s, Err(MultipleObjectsReturned(model.name)))
    case NotFound => Insert(s, model, keys + defaults)
  }

  /** The instance's `save`: recorded; the hooks' field changes are not modelled,
      so no row changes. */
  function Save(s: Store, inst: Instance): (r: Store)
    ensures r.rows == s.rows && r.saves == s.saves + [inst]
  {
    s.(saves := s.saves + [inst])
  }
}
