// Model registration on a connection, and the transactional bind of a set of models.

module ModelRegistry {
  import opened Common

  // A compiled schema is known by number, a registered model also by its own identity.
  datatype Model = Model(schema: int, collection: string, identity: nat)

  type Registry = map<string, Model>

  datatype OnExisting = Reuse | Throw

  // Mongoose's plural of a model name.
  datatype Naming = Naming(plural: string -> string)

  datatype RegistryError =
    | Collision(name: string)
    | SchemaFailed(name: string)
    | RegisterFailed(name: string)
    | DeleteFailed(name: string)
    | Forbidden(name: string)
    | AssembleFailed

  // The names on which the driver's own calls throw.
  datatype Faults = Faults(register: set<string>, delete_: set<string>, restore: set<string>)

  class Connection {
    const naming: Naming
    var models: Registry
    var clock: nat

    ghost predicate Valid()
      reads this
    {
      forall n | n in models :: models[n].identity < clock
    }

    constructor (naming: Naming)
      ensures Valid() && models == map[] && this.naming == naming
    {
      this.naming := naming;
      models, clock := map[], 0;
    }

    // connection.model(name, schema, collection) on a free name.
    method Register(name: string, schema: int, collection: string) returns (m: Model)
      requires Valid() && name !in models
      modifies this
      ensures Valid() && clock >= old(clock) && m.identity >= old(clock)
      ensures m.schema == schema && m.collection == collection
      ensures models == old(models)[name := m]
    {
      m := Model(schema, collection, clock);
      models := models[name := m];
      clock := clock + 1;
    }

    method DeleteModel(name: string)
      requires Valid()
      modifies `models
      ensures Valid() && models == old(models) - {name}
    {
      models := models - {name};
    }

    // defineModel: the schema factory runs only when the name is free; None is a factory that throws.
    method DefineModel(name: string, schema: Option<int>, collection: Option<string>, onExisting: OnExisting,
                       faults: Faults)
      returns (r: Result<Model, RegistryError>)
      requires Valid()
      modifies this
      ensures Valid() && clock >= old(clock)
      ensures r.Err? ==> models == old(models)
      ensures name in old(models) ==>
        && models == old(models)
        && r == if onExisting.Throw? then Err(Collision(name)) else Ok(old(models)[name])
      ensures name !in old(models) ==>
        && (r.Ok? <==> schema.Some? && name !in faults.register)
        && (r.Err? ==> r.error == if schema.None? then SchemaFailed(name) else RegisterFailed(name))
        && (r.Ok? ==>
              && models == old(models)[name := r.value]
              && r.value.schema == schema.value && r.value.identity >= old(clock)
              && r.value.collection == if collection.Some? then collection.value else naming.plural(name))
    {
      if name in models {
        return if onExisting.Throw? then Err(Collision(name)) else Ok(models[name]);
      }
      if schema.None? {
        return Err(SchemaFailed(name));
      }
      if name in faults.register {
        return Err(RegisterFailed(name));
      }
      var m := Register(name, schema.value, if collection.Some? then collection.value else naming.plural(name));
      return Ok(m);
    }
  }
}

module Blueprint {
  import opened Common
  import opened ModelRegistry

  datatype Policy = ThrowOnExisting | ReuseExisting | ReplaceExisting

  datatype ModelSpec = ModelSpec(name: string, collection: Option<string>, schema: Option<int>, existing: Policy)

  datatype ReplacedModel = ReplacedModel(name: string, schema: int, collection: string)

  datatype BindError = Failed(cause: RegistryError) | Inconsistent(cause: RegistryError, rollbackErrors: nat)

  predicate Distinct(models: seq<ModelSpec>) {
    forall i, j | 0 <= i < j < |models| :: models[i].name != models[j].name
  }

  // defineModels refuses a name described twice.
  method Describe(models: seq<ModelSpec>) returns (r: Result<seq<string>, string>)
    ensures r.Ok? <==> Distinct(models)
    ensures r.Ok? ==> |r.value| == |models| && forall i | 0 <= i < |models| :: r.value[i] == models[i].name
    ensures r.Err? ==> exists i, j :: 0 <= i < j < |models| && models[i].name == models[j].name == r.error
  {
    var names: seq<string>, seen: set<string> := [], {};
    for k := 0 to |models|
      invariant |names| == k && forall i | 0 <= i < k :: names[i] == models[i].name
      invariant forall n :: n in seen <==> exists i :: 0 <= i < k && models[i].name == n
      invariant forall i, j | 0 <= i < j < k :: models[i].name != models[j].name
    {
      if models[k].name in seen {
        return Err(models[k].name);
      }
      seen := seen + {models[k].name};
      names := names + [models[k].name];
    }
    return Ok(names);
  }

  // The same names with the same schemas and collections; a model put back is a new object.
  predicate SameShape(a: Registry, b: Registry) {
    a.Keys == b.Keys && forall n | n in a :: a[n].schema == b[n].schema && a[n].collection == b[n].collection
  }

  function Names(models: seq<ModelSpec>, k: nat): set<string>
    requires k <= |models|
  {
    set i | 0 <= i < k :: models[i].name
  }

  // What a spec comes to on a connection whose registry was `start` before the bind.
  predicate Bound(start: Registry, clock: nat, naming: Naming, now: Registry, s: ModelSpec) {
    && s.name in now
    && (if s.name in start && !s.existing.ReplaceExisting? then now[s.name] == start[s.name]
        else
          && s.schema == Some(now[s.name].schema) && now[s.name].identity >= clock
          && now[s.name].collection == if s.collection.Some? then s.collection.value else naming.plural(s.name))
  }

  // Whether a spec can be bound, decided by the registry before the bind.
  predicate Bindable(start: Registry, production: bool, faults: Faults, s: ModelSpec) {
    match s.existing
    case ReuseExisting => s.name in start || (s.schema.Some? && s.name !in faults.register)
    case ThrowOnExisting => s.name !in start && s.schema.Some? && s.name !in faults.register
    case ReplaceExisting =>
      !production && (s.name in start ==> s.name !in faults.delete_)
      && s.schema.Some? && s.name !in faults.register
  }

  function Touched(created: seq<string>, replaced: seq<ReplacedModel>): set<string> {
    (set n | n in created) + (set r | r in replaced :: r.name)
  }

  // Every model the bind did not create or replace is as it was, and the originals of the
  // replaced ones are captured.
  ghost predicate Undoable(start: Registry, now: Registry, created: seq<string>, replaced: seq<ReplacedModel>) {
    && (forall n | n in created :: n !in start)
    && (forall i | 0 <= i < |replaced| :: Captures(start, replaced[i]))
    && (forall i, j | 0 <= i < j < |replaced| :: replaced[i].name != replaced[j].name)
    && Untouched(start, now, Touched(created, replaced))
  }

  predicate Captures(start: Registry, r: ReplacedModel) {
    r.name in start && r.schema == start[r.name].schema && r.collection == start[r.name].collection
  }

  ghost predicate Untouched(start: Registry, now: Registry, touched: set<string>) {
    forall n :: n !in touched ==> (n in now <==> n in start) && (n in now ==> now[n] == start[n])
  }

  // Some step of the rollback can throw.
  predicate CanFail(faults: Faults) {
    faults.delete_ != {} || faults.restore != {}
  }

  method DropCreated(c: Connection, ghost start: Registry, created: seq<string>, ghost touched: set<string>,
                     faults: Faults)
    returns (errors: nat)
    requires c.Valid() && Untouched(start, c.models, touched) && forall n | n in created :: n in touched
    modifies c
    ensures c.Valid() && Untouched(start, c.models, touched)
    ensures errors == 0 ==> forall n | n in created :: n !in c.models
    ensures errors > 0 ==> CanFail(faults)
  {
    errors := 0;
    for i := 0 to |created|
      invariant c.Valid() && Untouched(start, c.models, touched)
      invariant errors == 0 ==> forall j | 0 <= j < i :: created[j] !in c.models
      invariant errors > 0 ==> CanFail(faults)
    {
      if created[i] in faults.delete_ {
        errors := errors + 1;
      } else {
        c.DeleteModel(created[i]);
      }
    }
  }

  // Our replacement is dropped and the original put back.
  method PutBack(c: Connection, ghost start: Registry, r: ReplacedModel, faults: Faults) returns (failed: bool)
    requires c.Valid() && Captures(start, r)
    modifies c
    ensures c.Valid()
    ensures !failed ==> Restored(start, c.models, r.name)
    ensures forall n :: n != r.name ==>
      (n in c.models <==> n in old(c.models)) && (n in c.models ==> c.models[n] == old(c.models)[n])
    ensures failed ==> CanFail(faults)
  {
    if r.name in c.models && r.name in faults.delete_ {
      return true;
    }
    c.DeleteModel(r.name);
    if r.name in faults.restore {
      return true;
    }
    var m := c.Register(r.name, r.schema, r.collection);
    return false;
  }

  method RestoreReplaced(c: Connection, ghost start: Registry, replaced: seq<ReplacedModel>, ghost touched: set<string>,
                         faults: Faults)
    returns (errors: nat)
    requires c.Valid() && Untouched(start, c.models, touched)
    requires forall i | 0 <= i < |replaced| :: Captures(start, replaced[i]) && replaced[i].name in touched
    requires forall i, j | 0 <= i < j < |replaced| :: replaced[i].name != replaced[j].name
    modifies c
    ensures c.Valid() && Untouched(start, c.models, touched)
    ensures errors == 0 ==> forall j | 0 <= j < |replaced| :: Restored(start, c.models, replaced[j].name)
    ensures forall n | n !in start && n in c.models :: n in old(c.models)
    ensures errors > 0 ==> CanFail(faults)
  {
    errors := 0;
    for i := 0 to |replaced|
      invariant c.Valid() && Untouched(start, c.models, touched)
      invariant errors == 0 ==> forall j | 0 <= j < i :: Restored(start, c.models, replaced[j].name)
      invariant forall n | n !in start && n in c.models :: n in old(c.models)
      invariant errors > 0 ==> CanFail(faults)
    {
      var failed := PutBack(c, start, replaced[i], faults);
      if failed {
        errors := errors + 1;
      }
    }
  }

  // Registry-only rollback; the failures of its own steps are counted.
  method RollBack(c: Connection, ghost start: Registry, created: seq<string>, replaced: seq<ReplacedModel>,
                  faults: Faults)
    returns (errors: nat)
    requires c.Valid() && Undoable(start, c.models, created, replaced)
    modifies c
    ensures c.Valid() && Untouched(start, c.models, Touched(created, replaced))
    ensures errors == 0 ==> SameShape(start, c.models)
    ensures errors > 0 ==> CanFail(faults)
  {
    ghost var touched := Touched(created, replaced);
    assert forall i | 0 <= i < |replaced| :: replaced[i] in replaced;
    var dropping := DropCreated(c, start, created, touched, faults);
    var restoring := RestoreReplaced(c, start, replaced, touched, faults);
    errors := dropping + restoring;
    if errors == 0 {
      RestoresShape(start, c.models, created, replaced);
    }
  }

  predicate Restored(start: Registry, now: Registry, n: string) {
    n in start && n in now && now[n].schema == start[n].schema && now[n].collection == start[n].collection
  }

  lemma RestoresShape(start: Registry, now: Registry, created: seq<string>, replaced: seq<ReplacedModel>)
    requires Undoable(start, now, created, replaced)
    requires forall n | n in created :: n !in now
    requires forall j | 0 <= j < |replaced| :: Restored(start, now, replaced[j].name)
    ensures SameShape(start, now)
  {
    forall n ensures n in start <==> Restored(start, now, n)
      ensures n in now ==> n in start
    {
      if j :| 0 <= j < |replaced| && replaced[j].name == n {
        assert Restored(start, now, replaced[j].name);
      } else if n in Touched(created, replaced) {
        assert n in created;
      }
    }
  }

  lemma ReplacedSnoc(start: Registry, now: Registry, created: seq<string>, replaced: seq<ReplacedModel>,
                     r: ReplacedModel)
    requires Undoable(start, now, created, replaced) && Captures(start, r)
    requires r.name !in Touched(created, replaced)
    ensures Undoable(start, now, created, replaced + [r])
    ensures Touched(created, replaced + [r]) == Touched(created, replaced) + {r.name}
  {
    var longer := replaced + [r];
    assert forall i | 0 <= i < |replaced| :: replaced[i] in replaced && longer[i] == replaced[i];
    assert Touched(created, longer) == Touched(created, replaced) + {r.name};
  }

  lemma CreatedSnoc(start: Registry, now: Registry, created: seq<string>, replaced: seq<ReplacedModel>, n: string)
    requires Undoable(start, now, created, replaced) && n !in start
    ensures Undoable(start, now, created + [n], replaced)
    ensures Touched(created + [n], replaced) == Touched(created, replaced) + {n}
  {
    assert Touched(created + [n], replaced) == Touched(created, replaced) + {n};
  }

  ghost predicate SameElsewhere(a: Registry, b: Registry, name: string) {
    forall n :: n != name ==> (n in a <==> n in b) && (n in a ==> a[n] == b[n])
  }

  lemma TouchedMayChange(start: Registry, before: Registry, now: Registry, created: seq<string>,
                         replaced: seq<ReplacedModel>, name: string)
    requires Undoable(start, before, created, replaced)
    requires SameElsewhere(before, now, name) && name in Touched(created, replaced)
    ensures Undoable(start, now, created, replaced)
  {
  }

  // One described model; a failure leaves the bind undoable.
  method BindOne(c: Connection, s: ModelSpec, production: bool, faults: Faults, ghost start: Registry, ghost clock: nat,
                 created: seq<string>, replaced: seq<ReplacedModel>)
    returns (r: Result<Model, RegistryError>, created': seq<string>, replaced': seq<ReplacedModel>)
    requires c.Valid() && c.clock >= clock
    requires Undoable(start, c.models, created, replaced) && s.name !in Touched(created, replaced)
    modifies c
    ensures c.Valid() && c.clock >= clock
    ensures Undoable(start, c.models, created', replaced')
    ensures Touched(created', replaced') <= Touched(created, replaced) + {s.name}
    ensures SameElsewhere(old(c.models), c.models, s.name)
    ensures r.Ok? <==> Bindable(start, production, faults, s)
    ensures r.Ok? ==>
      Bound(start, clock, c.naming, c.models, s) && s.name in c.models && r.value == c.models[s.name]
    ensures r.Err? ==> r.error != AssembleFailed
  {
    created', replaced' := created, replaced;
    var preExisting := s.name in c.models;
    assert preExisting <==> s.name in start;
    if s.existing.ReplaceExisting? {
      if production {
        return Err(Forbidden(s.name)), created', replaced';
      }
      if preExisting {
        var original := c.models[s.name];
        var captured := ReplacedModel(s.name, original.schema, original.collection);
        ReplacedSnoc(start, c.models, created, replaced, captured);
        replaced' := replaced + [captured];
        if s.name in faults.delete_ {
          return Err(DeleteFailed(s.name)), created', replaced';
        }
        ghost var before := c.models;
        c.DeleteModel(s.name);
        TouchedMayChange(start, before, c.models, created, replaced', s.name);
      }
    }
    var onExisting := if s.existing.ReuseExisting? then Reuse else Throw;
    ghost var before := c.models;
    r := c.DefineModel(s.name, s.schema, s.collection, onExisting, faults);
    if r.Err? {
      return;
    }
    if !preExisting {
      CreatedSnoc(start, before, created, replaced, s.name);
      created' := created + [s.name];
    }
    if before != c.models {
      TouchedMayChange(start, before, c.models, created', replaced', s.name);
    }
  }

  // A registered model that is not the object registered before.
  predicate NewObject(before: Registry, after: Registry, n: string) {
    n in before && n in after && after[n].identity != before[n].identity
  }

  // Main result: a bind either registers every described model or leaves the registry with
  // the names, schemas and collections it had.
  method Bind(c: Connection, models: seq<ModelSpec>, production: bool, assemble: map<string, Model> -> bool,
              faults: Faults)
    returns (r: Result<map<string, Model>, BindError>)
    requires c.Valid() && Distinct(models)
    modifies c
    ensures c.Valid()
    ensures r.Ok? ==>
      && r.value.Keys == Names(models, |models|)
      && (forall i | 0 <= i < |models| ::
            && Bindable(old(c.models), production, faults, models[i])
            && Bound(old(c.models), old(c.clock), c.naming, c.models, models[i])
            && r.value[models[i].name] == c.models[models[i].name])
      && Untouched(old(c.models), c.models, Names(models, |models|))
      && assemble(r.value)
    ensures r.Ok? ==>
      forall s | s in models && s.existing.ReplaceExisting? && s.name in old(c.models) ::
        NewObject(old(c.models), c.models, s.name)
    ensures r.Err? && r.error.Failed? ==> SameShape(old(c.models), c.models)
    ensures r.Err? && r.error.Inconsistent? ==> CanFail(faults)
    ensures r.Err? ==>
      || r.error.cause == AssembleFailed
      || exists i | 0 <= i < |models| :: !Bindable(old(c.models), production, faults, models[i])
    ensures r.Err? && r.error.cause == AssembleFailed ==>
      && (forall i | 0 <= i < |models| :: Bindable(old(c.models), production, faults, models[i]))
      && exists bag: map<string, Model> | bag.Keys == Names(models, |models|) :: !assemble(bag)
  {
    ghost var start, clock := c.models, c.clock;
    var bag: map<string, Model> := map[];
    var created: seq<string>, replaced: seq<ReplacedModel> := [], [];
    var failure: Option<RegistryError> := None;
    var k := 0;
    while k < |models| && failure.None?
      invariant 0 <= k <= |models| && c.Valid() && c.clock >= clock
      invariant Undoable(start, c.models, created, replaced)
      invariant failure.None? ==> BoundTo(start, clock, c.naming, c.models, bag, models, k, production, faults)
      invariant failure.None? ==> Touched(created, replaced) <= Names(models, k)
      invariant failure.Some? ==> failure != Some(AssembleFailed)
      invariant failure.Some? ==> k < |models| && !Bindable(start, production, faults, models[k])
      decreases |models| - k, failure.None?
    {
      var s := models[k];
      FreshName(models, k);
      var defined;
      ghost var before := c.models;
      defined, created, replaced := BindOne(c, s, production, faults, start, clock, created, replaced);
      if defined.Err? {
        failure := Some(defined.error);
      } else {
        OneMoreBound(start, clock, c.naming, before, c.models, bag, defined.value, models, k, production, faults);
        bag := bag[s.name := defined.value];
        k := k + 1;
      }
    }
    if failure.None? {
      if assemble(bag) {
        AllBound(start, clock, c.naming, c.models, bag, created, replaced, models, production, faults);
        return Ok(bag);
      }
      failure := Some(AssembleFailed);
    }
    var errors := RollBack(c, start, created, replaced, faults);
    return Err(if errors > 0 then Inconsistent(failure.value, errors) else Failed(failure.value));
  }

  predicate BoundInto(start: Registry, clock: nat, naming: Naming, now: Registry, bag: map<string, Model>,
                      s: ModelSpec)
  {
    Bound(start, clock, naming, now, s) && s.name in bag && bag[s.name] == now[s.name]
  }

  // The first k specs could be bound and are.
  ghost predicate BoundTo(start: Registry, clock: nat, naming: Naming, now: Registry, bag: map<string, Model>,
                          models: seq<ModelSpec>, k: nat, production: bool, faults: Faults)
    requires k <= |models|
  {
    && bag.Keys == Names(models, k)
    && forall i | 0 <= i < k ::
         BoundInto(start, clock, naming, now, bag, models[i]) && Bindable(start, production, faults, models[i])
  }

  lemma FreshName(models: seq<ModelSpec>, k: nat)
    requires Distinct(models) && k < |models|
    ensures models[k].name !in Names(models, k)
    ensures Names(models, k + 1) == Names(models, k) + {models[k].name}
  {
  }

  lemma OneMoreBound(start: Registry, clock: nat, naming: Naming, before: Registry, now: Registry,
                     bag: map<string, Model>, m: Model, models: seq<ModelSpec>, k: nat, production: bool,
                     faults: Faults)
    requires Distinct(models) && k < |models| && SameElsewhere(before, now, models[k].name)
    requires BoundTo(start, clock, naming, before, bag, models, k, production, faults)
    requires Bindable(start, production, faults, models[k])
    requires Bound(start, clock, naming, now, models[k]) && now[models[k].name] == m
    ensures BoundTo(start, clock, naming, now, bag[models[k].name := m], models, k + 1, production, faults)
  {
    var longer := bag[models[k].name := m];
    FreshName(models, k);
    forall i | 0 <= i < k ensures BoundInto(start, clock, naming, now, longer, models[i]) {
      assert BoundInto(start, clock, naming, before, bag, models[i]);
    }
  }

  lemma AllBound(start: Registry, clock: nat, naming: Naming, now: Registry, bag: map<string, Model>,
                 created: seq<string>, replaced: seq<ReplacedModel>, models: seq<ModelSpec>, production: bool,
                 faults: Faults)
    requires BoundTo(start, clock, naming, now, bag, models, |models|, production, faults)
    requires Undoable(start, now, created, replaced) && Touched(created, replaced) <= Names(models, |models|)
    requires forall n | n in start :: start[n].identity < clock
    ensures forall i | 0 <= i < |models| ::
      && Bindable(start, production, faults, models[i]) && Bound(start, clock, naming, now, models[i])
      && bag[models[i].name] == now[models[i].name]
    ensures Untouched(start, now, Names(models, |models|))
    ensures forall s | s in models && s.existing.ReplaceExisting? && s.name in start :: NewObject(start, now, s.name)
  {
    forall i | 0 <= i < |models|
      ensures models[i].existing.ReplaceExisting? && models[i].name in start ==> NewObject(start, now, models[i].name)
    {
      assert BoundInto(start, clock, naming, now, bag, models[i]);
    }
  }
}
