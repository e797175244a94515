# Async factory build pipeline in Dafny

This project models the asynchronous build pipeline that this repository puts
on top of a declarative test-fixture factory library. It covers:

- the lazy attribute resolver of one build step (`aget`, with its pending stack
  for cycle detection and its cache of resolved values);
- the step's eager resolution of its attribute declarations (`aresolve`);
- the step builder's full generation (`abuild`):
  - it chooses the sequence number;
  - it resolves the pre-declarations in declaration order;
  - it instantiates under one of three strategies (build, create, stub);
  - it runs the post-generation hooks in order and awaits their results;
  - it hands those results back once;
- nested sub-factory builds (`arecurse`), which first check that the target is a
  factory;
- the ORM-backed model factory:
  - `_acreate` awaits keyword arguments before it writes;
  - `_create` chooses between plain create and get-or-create;
  - `_get_or_create` splits the keyword arguments into lookup fields and
    defaults, and retries after a uniqueness conflict;
  - `_after_postgeneration` saves the instance again;
- the factory entry points: `_agenerate` with its abstract-factory guard,
  `simple_generate`, `acreate`, and the batch helpers.

The repository ships three near-identical variants of the pipeline:
`app/quick/`, `app/factory/` and `main.py`. The model follows one behaviour
for all of them:

- the resolver and step builder of `app/quick/builder.py`;
- the dispatch and result hand-off of `app/quick/base.py` and
  `app/factory/base.py`;
- the persistence logic of `main.py`.

Where `app/quick`, `app/factory` and `main.py` differ, the model follows the
variant that awaits:

- post-generation results are awaited before they are stored;
- the result hand-off is awaited.

## How the model is built

- **Awaiting is sequencing.** A coroutine is a value `Awaitable(result)`.
  `Await` removes one layer. Every operation threads a `World` through the
  call in evaluation order; the world holds the store and the per-factory
  sequence counters.
- **The store is append-only.** Rows are never deleted or rewritten, and a
  row's id is its position. `Get` answers not-found, found or multiple. An
  insert that repeats a unique-together group raises an integrity error.
  Saves after post-generation are recorded in a log.
- **Termination.** The resolver, the declaration evaluator, `aresolve` and
  `abuild` are one mutually recursive group of functions. A nested build is
  for a factory that is structurally part of the current factory's
  declarations. Within one step, every recursive `aget` runs with one more
  declared name pending.
- **Invariants of the resolver.** `aget` and everything it calls restore the
  pending stack. They only add to the cache. They never cache a name that is
  still being computed. A cached raw value is the declared value. Writes to the
  store happen only under the create strategy. Counters never go back.
- **Batches.** `Repeat` runs any single generation `size` times. Each run uses
  the world the previous run left behind, and the first error ends the batch.
  The batch helpers are `Repeat` of `Generate`.

## Model

| member | source | states |
|---|---|---|
| Pipeline.Get | app/quick/builder.py:117-149 | A pending name fails with a cyclic-definition error naming the pending chain, and changes nothing. A cached name is returned as is. An undeclared name fails and caches nothing. A non-resolution-phase declaration is cached and returned unevaluated. After any call the pending stack is as it was, earlier cache entries are kept and the store changes only under create. On success the name is cached with the returned value; on failure an uncached name stays uncached. The value of an evaluated name is stated by `Pipeline.GetEvaluates`. |
| Pipeline.Compute | app/quick/builder.py:129-145 | Evaluating a declared name leaves the pending stack as it was, on success and on failure alike. Only a successful value is cached, under that name. |
| Pipeline.GetEvaluates | app/quick/builder.py:132-145 | `aget` of a declared resolution-phase name that is neither cached nor pending returns exactly what its declaration evaluates to while the name is pushed on the pending stack. It leaves the world that evaluation left and restores the stack. The cache becomes the evaluation's cache plus the value, or the evaluation's cache alone on failure. |
| Pipeline.GetSequence | app/quick/builder.py:132-145 | `aget` of a sequence declaration yields its function of the step's sequence number, changes no world, and caches that value. |
| Pipeline.GetMemoised | app/quick/builder.py:127-128 | A second `aget` of a name that resolved returns the same value and changes neither the resolver nor the world. |
| Pipeline.CycleDetected | app/quick/builder.py:123-126 | A chain of lazy declarations, each needing the next first, that leads back to a pending name or to itself fails with a cyclic-definition error. The error names that name and the whole pending chain. |
| Pipeline.EvaluatePre | app/quick/builder.py:135-139 | A sequence declaration reads the step's sequence number. A parent-attribute declaration with no parent step fails. A sub-factory declaration whose target is not a factory fails with an associated-class error and changes nothing. A successful sub-factory declaration yields a generated instance. |
| Pipeline.LazyValue | app/quick/builder.py:135-139 | A lazy declaration that succeeds is its function applied to the values of its dependencies, in the declared order. Each dependency is then cached. |
| Pipeline.ParentValue | app/quick/builder.py:110-112 | A parent-attribute declaration in a nested step reads the parent step's resolved attribute of that name and changes nothing. It fails when the parent has no such attribute. |
| Pipeline.SubValue | app/quick/builder.py:18-26 | A sub-factory declaration that succeeds yields the nested build's instance of the target factory's model. Under create it is a row of the store, under build an in-memory instance, and under stub a stub. |
| Pipeline.ResolveAll | app/quick/builder.py:8-16 | On success the attributes are exactly the requested names in their order, each bound to the resolver's value for it. The resolver invariants hold throughout. |
| Pipeline.ResolvedAttributes | app/quick/builder.py:34-38 | The resolved non-excluded attributes are exactly the declared or overridden names that are not post-generation hooks. An overridden attribute carries the caller's value. |
| Pipeline.Complete | app/quick/builder.py:54-78 | Instantiation receives the prepared arguments of the resolved attributes, with no counter change. Build yields an in-memory instance of the model with no positional arguments, stub yields a stub, and create yields a row of the store. Exactly one save is recorded, of the instance, under create when the factory has hooks. Otherwise no save is recorded, and a failed instantiation records none either. |
| Pipeline.Make | app/quick/builder.py:54-60 | Instantiation from the prepared arguments writes only under create and records no save. Build and stub return instances carrying exactly the non-excluded attributes with their values. Under create the result is a row of the store, and a written row holds those attributes, each awaited. |
| Pipeline.CompleteWrites | app/quick/builder.py:54-60 | A row written while completing a build belongs to the factory's model. It holds exactly the resolved attributes that are not excluded, each with its awaited value. |
| Pipeline.Build | app/quick/builder.py:31-79 | A forced sequence wins over the initial sequence, which wins over the counter. Only the counter case reads the counter, and it then advances past the value used. Outside create the instance's keyword arguments are exactly the attribute names that reach the model, with overrides carrying the caller's values. Under create the instance is durable, and with any post-generation declaration it is saved again. The store only grows, and does so only under create. |
| Steps.ChooseSequence | app/quick/builder.py:40-45 | A forced value wins, then the initial sequence, then the counter. The counter advances by one only in the last case, and no other counter moves. |
| Steps.ARecurse | app/quick/builder.py:18-26 | A target that is not a factory is refused with an associated-class error before any child builder exists. Otherwise the child builder inherits the strategy, sees this step as parent and receives the forced sequence unchanged. |
| Steps.RunPostHooks | app/quick/builder.py:62-72 | The results have exactly the post-generation names, in their order. Each result is its hook's value, awaited once. No result is left as a coroutine. |
| Steps.NewStepBuilder | app/quick/base.py:20-21 | The builder keeps the factory and strategy. An integer `__sequence` override becomes the initial sequence and is taken out of the overrides, and nothing else is removed. |
| Declarations.ParseDeclarations | app/quick/builder.py:34-38 | The pre-declarations are the declared and overridden names that are not hooks, and an override replaces a same-named declaration with its raw value. The post set is exactly the hook declarations. Order is kept: the hooks in class order, and the attributes in class order followed by the overrides that name no declaration, in the caller's order. |
| Declarations.SimpleStrategy | app/factory/base.py:222 | `create` selects the create strategy exactly when true, and never stub. |
| Options.PrepareArguments | app/quick/builder.py:54 | No positional arguments. The keyword arguments are the resolved attributes minus the excluded names, with the same values. |
| Options.Instantiate | app/quick/base.py:40-49 | Build makes an in-memory instance and stub makes a stub from the keyword arguments only, both leaving the store untouched. Create persists through `_acreate`. |
| Options.UsePostgenerationResults | app/quick/base.py:51-56 | The instance is saved again exactly when the strategy is create and the results are non-empty. No row changes. |
| ModelFactory.SplitKeys | main.py:61-69 | The split succeeds exactly when every configured field is supplied once. The lookup keys are exactly the configured fields, disjoint from the defaults, and together they make up the input. A failure names a missing configured field. |
| ModelFactory.GetOrCreate | main.py:52-89 | A reserved `defaults` field is refused with the store untouched. A missing field is an error that writes nothing. At most one row is added, holding the keyword arguments. A returned instance is a row of the store. |
| ModelFactory.GetOrCreateRetry | main.py:71-87 | After a conflict nothing is written. With no original parameter among the fields, or no row matching them, the conflict is raised again. Several matches raise multiple-objects. When exactly one row matches non-empty original parameters, that row is returned, and a success is never anything else. |
| ModelFactory.LookupParams | main.py:74-78 | The retry lookup holds exactly the caller's original parameters that are get-or-create fields, with their original values. |
| ModelFactory.GetOrCreateTwice | main.py:71-72 | Repeating a successful get-or-create returns the same instance and writes nothing, so no duplicate row appears. |
| ModelFactory.CreateInstance | main.py:92-98 | Get-or-create is used exactly when lookup fields are configured, and a plain create otherwise. |
| ModelFactory.AwaitKwargs | app/quick/base.py:25-27 | Same names. Each coroutine is replaced by its awaited value, and every other value is kept. |
| ModelFactory.ACreate | app/quick/base.py:23-28 | A row written by this call holds exactly the keyword names, each with its awaited value. A returned instance is durable. |
| ModelFactory.AfterPostgeneration | main.py:105-110 | The instance is saved once more exactly when creating with at least one result, and otherwise the store is unchanged. |
| Orm.Get | main.py:81-85 | Not-found exactly when no row matches. Found names the single matching row. Multiple exactly when two rows match. |
| Orm.GetOrCreateRow | main.py:72 | An existing match is returned without a write, several matches are an error, and no match inserts the keys together with the defaults. |
| Orm.Insert | main.py:97-98 | Fails with an integrity error exactly when a unique group clashes, leaving the store as it was. Otherwise it appends exactly one row and returns it. |
| Factories.Generate | app/quick/base.py:12-21 | An abstract factory is refused before any step exists: no counter moves and nothing is written. Otherwise the sequence is the `__sequence` override or the counter, which then advances. Each strategy yields its own instance shape. |
| Factories.ACreateOne | app/quick/base.py:30-32 | `acreate` always persists, and its instance is a row of the store. |
| Factories.SimpleGenerate | app/factory/base.py:210-223 | Create persists. Build leaves the store untouched and yields an in-memory instance. Neither yields a stub. |
| Factories.RunBatch | main.py:100-103 | The loop over any single generation computes exactly its repetition: items in order, each run against the world the previous one left, and the first error ends the batch with the effects so far. |
| Factories.GenerateBatch | app/factory/base.py:108-118 | The loop computes exactly the batch specification for `range(size)`. A successful batch has `size` items, or none when `size` is not positive, in which case nothing runs and the world is unchanged. |
| Factories.SimpleGenerateBatch | app/factory/base.py:225-239 | A create-or-build batch of `size` items, or an empty batch that changes nothing when `size` is not positive. |
| Factories.RepeatPrefix | app/quick/base.py:34-36 | Items are produced in order: the first `m` items of a successful batch of `n`, and their sequence numbers, are a batch of `m`. |
| Factories.RepeatErrorSticks | main.py:100-103 | Once an item fails, the batch is over and longer batches change nothing. |
| Factories.BatchEffects | app/factory/base.py:163-173 | A batch under build or stub leaves the store untouched. Under any strategy the store only grows and counters never go back. |
| Factories.BatchSequencesIncrease | app/factory/base.py:130-140 | Without a sequence override the batch's sequence numbers strictly increase. They run from the starting counter up to, but not including, the counter the batch leaves behind. |
| Factories.BatchForcedSequence | app/quick/builder.py:42-43 | With an integer sequence override every item uses that sequence number. |
| Factories.BatchDurable | app/factory/base.py:142-152 | Every instance of a successful create batch is a row of the final store. |
| Factories.BatchAbstract | app/factory/base.py:51-60 | A batch of an abstract factory fails at its first item and leaves the world unchanged; only an empty batch succeeds. |

## Left out

- The Django bootstrap, settings and demo script (`main.py` outside lines 36-178) are glue with no behaviour to state.
- The demo factories and models (`app/factories.py`, `app/models/user.py`) are plain data. Factories here are values of the `Factory` datatype.
- The tests need a live database and are not part of this model.
- Random values are opaque `Computed` terms with no dependencies. This covers Faker providers and the computations inside lazy functions and hooks.
- The real ORM is replaced by the append-only `Store`. This covers database I/O, transactions and field coercion.
- `Orm.GetOrCreateRow` runs without a concurrent writer. A race between the lookup and the insert, which is where the manager's own retry matters, is not modelled. A conflict therefore always comes from the unique-together check.
- `Orm.Save` records the save but changes no row, because the hooks' changes to the instance are not modelled.
- `Declarations.ParseDeclarations`: the library's `parse_declarations` is not part of the repository. It is modelled concretely:
  - overrides replace same-named declarations as raw values, in place, or are appended;
  - an override naming a post-generation hook is dropped rather than passed to the hook as context;
  - double-underscore context overrides for sub-factories are not modelled.
- `Options.PrepareArguments`: the library's `prepare_arguments` is not part of the repository. It is modelled as "drop the excluded names, no positional arguments". Renames and inline argument lists are not modelled.
- `Steps.NewStepBuilder`: the library's step-builder constructor is not part of the repository. It is modelled as taking a `__sequence` override out of the overrides, and only an integer one becomes the initial sequence.
- `Pipeline.ParentValue`: a child step sees a snapshot of the parent's values resolved so far, not the parent's live resolver. In the source, a parent attribute that is declared but not yet resolved is computed on demand by the parent resolver, and a pending one raises the cycle error. In the model both fail with an unknown-attribute error. For example, a parent that declares a sub-factory before `b = 1` gives the child's `..b` the value 1 in the source, while the model fails.
- `Declarations.ParseDeclarations`: the library's `post.sorted()` is not part of the repository. The hooks are taken to run in class order, the order in which they are declared.
- `Steps.EvaluatePost`: a hook's result is an opaque term of the instance. Hook arguments (`extracted` context) are not modelled.
- `Steps.EvaluatePost`: hooks are pure and thread no world. A hook that builds or saves another object would write the store or move counters, and the model cannot express that. `Factories.BatchEffects` and `Factories.BatchSequencesIncrease` rely on this.
- `Values.Await` can be applied to the same coroutine any number of times, but a Python coroutine can be awaited only once. A coroutine override passed to `acreate_batch` (`app/quick/base.py:34-36`) therefore fails from the second item on in the source, while the model awaits it again for every item.
- `Steps.ARecurse`: a target that is not a class at all makes `issubclass` raise a type error rather than the associated-class error. Only classes are modelled as targets.
- `aset` (`app/quick/builder.py:151-156`) is structural in the model. The resolver is an immutable value and nothing can assign to it. `Pipeline.Keeps` states that `aget` only adds cache entries.
- `Factories.SimpleGenerate`: the source's `simple_generate` goes through the synchronous `generate` path. The model routes it through the asynchronous `_agenerate` pipeline.
- `Pipeline.Build`: a factory that names itself as a sub-factory (by a lazy import path) is outside the model. Sub-factory targets are values nested inside the parent factory, which is what makes the recursion terminate.
- `Pipeline.Build`: the exactly-once re-save is stated on `Pipeline.Complete`, relative to the world after resolution. Nested sub-factory builds record their own saves during resolution, so `Build` states only that the last save is the instance.
- `Pipeline.Build`: under create, the contract does not state the keyword arguments. Get-or-create may return an existing row whose fields differ from the arguments.
- `main.py` reads `_original_params`, which nothing in the repository sets. The retry's original parameters are an explicit argument, and `Pipeline.Make` passes the overrides of the step builder being completed (`__sequence` removed). At the top level these are the call's own overrides. For a nested sub-factory they are that sub-factory declaration's overrides.

Where the code and its docstrings or the variants differ, the model follows the code:

- The re-save after post-generation happens when the results mapping is non-empty. That is the case exactly when the factory has at least one post-generation declaration, whatever the hooks returned.
- The build strategy of `app/quick/base.py` calls a `_abuild` hook that the library does not define. The model builds the in-memory instance directly.
- The result hand-off of `app/quick/base.py:51-56` and `app/factory/base.py` calls `_aafter_postgeneration`, which nothing in the repository defines. `app/factory/base.py` has only a synchronous, empty `_after_postgeneration`. `Options.UsePostgenerationResults` uses the saving rule of `main.py:105-110` (`ModelFactory.AfterPostgeneration`) instead.
- `_acreate` in `app/quick/base.py:23-28` and `app/factory/base.py` persists through the model's own `acreate`. `ModelFactory.ACreate` instead persists through the `_create` dispatch of `main.py:91-98`: get-or-create when lookup fields are configured, otherwise the manager's create. With no lookup fields this is the plain insert the async variants make.
- `app/factory/builder.py` stores post-generation results without awaiting them.
- `main.py` calls the synchronous result hand-off, although its `_after_postgeneration` is a coroutine.
- In both of these cases the model follows the awaiting variant.
