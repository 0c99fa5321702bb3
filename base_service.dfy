/** The generic CRUD service (`generic/service/BaseService.kt`) at the (id,
    name) resource of `BaseTestMapper`. The repository is a map from id to
    entity together with the order in which the table returns its rows; the
    entities in it are objects that `update` and `updateAll` change in place,
    as a managed JPA entity is. */
module CrudService {
  import opened Wrappers
  import opened Ids
  import opened Exceptions
  import opened BaseTestMapper

  /** The entity type every error of the service names. */
  const EntityTypeName: string := "Entity"

  predicate Distinct(ks: seq<int>) {
    forall i, j :: 0 <= i < j < |ks| ==> ks[i] != ks[j]
  }

  /** Every record is stored under its own id, and no record under the
      "unset" sentinel. */
  ghost predicate Keyed(c: map<int, BaseTestModel>) {
    forall k :: k in c ==> c[k].id == k && k != UnsetId
  }

  /** The store after writing `ws` one after another: each write replaces,
      or adds, the record under its own id. */
  ghost function ApplyAll(c: map<int, BaseTestModel>, ws: seq<BaseTestModel>): map<int, BaseTestModel> {
    if ws == [] then c else ApplyAll(c, ws[..|ws| - 1])[ws[|ws| - 1].id := ws[|ws| - 1]]
  }

  /** What a batch save wrote: each input's name, under the key the store
      saved it at. */
  function Written(models: seq<BaseTestModel>, saved: seq<BaseTestModel>): (ws: seq<BaseTestModel>)
    requires |models| == |saved|
    ensures |ws| == |models|
    ensures forall i :: 0 <= i < |ws| ==> ws[i] == BaseTestModel(saved[i].id, models[i].name)
  {
    if models == [] then []
    else [BaseTestModel(saved[0].id, models[0].name)] + Written(models[1..], saved[1..])
  }

  /** The key rule of `repository.save` applied in order: a record whose id
      is already stored at its turn overwrites that record; any other record
      gets a key the store did not hold at its turn, never the sentinel. */
  ghost predicate KeysAssignedBySave(c: map<int, BaseTestModel>, models: seq<BaseTestModel>, ws: seq<BaseTestModel>)
    requires |models| == |ws|
  {
    forall i :: 0 <= i < |ws| ==>
      if models[i].id in ApplyAll(c, ws[..i]) then ws[i].id == models[i].id
      else ws[i].id !in ApplyAll(c, ws[..i]) && ws[i].id != UnsetId
  }

  /** `undo[j]` is the name stored under the id of `models[j]` just before
      the j-th write of the batch. */
  ghost predicate UndoLog(c: map<int, BaseTestModel>, models: seq<BaseTestModel>, undo: seq<string>) {
    && |undo| <= |models|
    && forall j :: 0 <= j < |undo| ==>
      && models[j].id in ApplyAll(c, models[..j])
      && ApplyAll(c, models[..j])[models[j].id] == BaseTestModel(models[j].id, undo[j])
  }

  lemma UndoLogStep(c: map<int, BaseTestModel>, models: seq<BaseTestModel>, undo: seq<string>, name: string)
    requires UndoLog(c, models, undo) && |undo| < |models|
    requires var m := models[|undo|];
      m.id in ApplyAll(c, models[..|undo|]) && ApplyAll(c, models[..|undo|])[m.id] == BaseTestModel(m.id, name)
    ensures UndoLog(c, models, undo + [name])
  {
    assert forall j :: 0 <= j < |undo| ==> (undo + [name])[j] == undo[j];
  }

  /** Putting back the name the undo log holds for write j undoes that
      write. */
  lemma UndoOne(c: map<int, BaseTestModel>, models: seq<BaseTestModel>, undo: seq<string>, j: nat)
    requires UndoLog(c, models, undo) && j < |undo|
    ensures ApplyAll(c, models[..j + 1])[models[j].id := BaseTestModel(models[j].id, undo[j])]
            == ApplyAll(c, models[..j])
  {
    assert models[..j + 1][..j] == models[..j];
  }

  /** One more save that follows the key rule extends a batch that does. */
  lemma SaveStepKeepsKeyRule(c: map<int, BaseTestModel>, models: seq<BaseTestModel>, ws: seq<BaseTestModel>, w: BaseTestModel)
    requires |ws| < |models| && KeysAssignedBySave(c, models[..|ws|], ws)
    requires var m := models[|ws|];
      if m.id in ApplyAll(c, ws) then w.id == m.id else w.id !in ApplyAll(c, ws) && w.id != UnsetId
    ensures KeysAssignedBySave(c, models[..|ws| + 1], ws + [w])
  {
    var i := |ws|;
    var ws' := ws + [w];
    forall j | 0 <= j < i + 1
      ensures if models[..i + 1][j].id in ApplyAll(c, ws'[..j]) then ws'[j].id == models[..i + 1][j].id
              else ws'[j].id !in ApplyAll(c, ws'[..j]) && ws'[j].id != UnsetId
    {
      assert ws'[..j] == ws[..j];
      if j < i {
        assert models[..i + 1][j] == models[..i][j];
      } else {
        assert ws[..j] == ws;
      }
    }
  }

  /** The id of the first model, in input order, whose id is not a key. */
  function FirstAbsentId(keys: set<int>, models: seq<BaseTestModel>): (r: Option<int>)
    ensures r.None? <==> forall i :: 0 <= i < |models| ==> models[i].id in keys
    ensures r.Some? ==> r.value !in keys && exists i :: 0 <= i < |models| && models[i].id == r.value
  {
    if models == [] then None
    else if models[0].id !in keys then Some(models[0].id)
    else
      assert forall i :: 1 <= i < |models| ==> models[i] == models[1..][i - 1];
      FirstAbsentId(keys, models[1..])
  }

  /** A failure found at position `i` after every earlier id was present is
      the first one. */
  lemma {:induction false} FirstAbsentIdAt(keys: set<int>, models: seq<BaseTestModel>, i: nat)
    requires i < |models| && models[i].id !in keys
    requires forall j :: 0 <= j < i ==> models[j].id in keys
    ensures FirstAbsentId(keys, models) == Some(models[i].id)
  {
    if i > 0 {
      FirstAbsentIdAt(keys, models[1..], i - 1);
    }
  }

  /** Models with pairwise distinct ids carry as many ids as there are models. */
  lemma {:induction false} DistinctIdsCount(ms: seq<BaseTestModel>)
    requires forall i, j :: 0 <= i < j < |ms| ==> ms[i].id != ms[j].id
    ensures |set i | 0 <= i < |ms| :: ms[i].id| == |ms|
  {
    if ms != [] {
      var n := |ms| - 1;
      DistinctIdsCount(ms[..n]);
      assert (set i | 0 <= i < |ms| :: ms[i].id) == (set i | 0 <= i < n :: ms[..n][i].id) + {ms[n].id};
    }
  }

  /** A number above every key listed, and above the sentinel. */
  function KeyBound(ks: seq<int>): (b: int)
    ensures b > 0 && forall i :: 0 <= i < |ks| ==> ks[i] < b
  {
    if ks == [] then 1
    else
      var rest := KeyBound(ks[1..]);
      assert forall i :: 1 <= i < |ks| ==> ks[i] == ks[1..][i - 1];
      if rest > ks[0] then rest else ks[0] + 1
  }

  /** `ks` without `k`, the rest in the same order. */
  function RemoveKey(ks: seq<int>, k: int): (r: seq<int>)
    ensures forall x :: x in r <==> x in ks && x != k
    ensures Distinct(ks) ==> Distinct(r)
  {
    if ks == [] then []
    else
      var rest := RemoveKey(ks[1..], k);
      if ks[0] == k then rest
      else
        assert Distinct(ks) ==> ks[0] !in ks[1..];
        [ks[0]] + rest
  }

  /** The keys written are added to those already there. */
  lemma {:induction false} ApplyAllKeys(c: map<int, BaseTestModel>, ws: seq<BaseTestModel>)
    ensures ApplyAll(c, ws).Keys == c.Keys + set i | 0 <= i < |ws| :: ws[i].id
  {
    if ws != [] {
      var n := |ws| - 1;
      ApplyAllKeys(c, ws[..n]);
      assert (set i | 0 <= i < |ws| :: ws[i].id) == (set i | 0 <= i < n :: ws[..n][i].id) + {ws[n].id};
    }
  }

  /** A write that no later write to the same id overrides is what the store
      holds under that id at the end. */
  lemma {:induction false} LastWriteWins(c: map<int, BaseTestModel>, ws: seq<BaseTestModel>, i: nat)
    requires i < |ws|
    requires forall j :: i < j < |ws| ==> ws[j].id != ws[i].id
    ensures ws[i].id in ApplyAll(c, ws) && ApplyAll(c, ws)[ws[i].id] == ws[i]
  {
    var n := |ws| - 1;
    if i < n {
      LastWriteWins(c, ws[..n], i);
    }
  }

  /** A key no write touches keeps what `c` held under it. */
  lemma {:induction false} UntouchedKeyKept(c: map<int, BaseTestModel>, ws: seq<BaseTestModel>, k: int)
    requires forall j :: 0 <= j < |ws| ==> ws[j].id != k
    ensures k in ApplyAll(c, ws) <==> k in c
    ensures k in c ==> ApplyAll(c, ws)[k] == c[k]
  {
    if ws != [] {
      UntouchedKeyKept(c, ws[..|ws| - 1], k);
    }
  }

  /** Writes that each go to a key not yet held grow the store by one each. */
  lemma {:induction false} FreshWritesGrow(c: map<int, BaseTestModel>, ws: seq<BaseTestModel>)
    requires forall i :: 0 <= i < |ws| ==> ws[i].id !in ApplyAll(c, ws[..i])
    ensures |ApplyAll(c, ws)| == |c| + |ws|
  {
    if ws != [] {
      var n := |ws| - 1;
      forall i | 0 <= i < n ensures ws[..n][i].id !in ApplyAll(c, ws[..n][..i]) {
        assert ws[..n][..i] == ws[..i];
      }
      FreshWritesGrow(c, ws[..n]);
      assert ws[..n] == ws[..|ws| - 1];
    }
  }

  /** A batch of records that all carry the sentinel id, saved in order into a
      keyed store, goes to pairwise distinct new keys: the store grows by the
      length of the batch and every record is found under its key. */
  lemma NewRecordsAllAdded(c: map<int, BaseTestModel>, models: seq<BaseTestModel>, ws: seq<BaseTestModel>)
    requires Keyed(c)
    requires |models| == |ws| && KeysAssignedBySave(c, models, ws)
    requires forall i :: 0 <= i < |models| ==> models[i].id == UnsetId
    ensures |ApplyAll(c, ws)| == |c| + |ws|
    ensures forall i :: 0 <= i < |ws| ==> ws[i].id in ApplyAll(c, ws) && ApplyAll(c, ws)[ws[i].id] == ws[i]
  {
    forall i | 0 <= i < |ws| ensures ws[i].id !in ApplyAll(c, ws[..i]) && ws[i].id != UnsetId {
      SentinelNeverKey(c, models, ws, i);
    }
    FreshWritesGrow(c, ws);
    forall i | 0 <= i < |ws| ensures ws[i].id in ApplyAll(c, ws) && ApplyAll(c, ws)[ws[i].id] == ws[i] {
      forall j | i < j < |ws| ensures ws[j].id != ws[i].id {
        ApplyAllKeys(c, ws[..j]);
        assert ws[..j][i] == ws[i];
        assert ws[i].id in ApplyAll(c, ws[..j]);
      }
      LastWriteWins(c, ws, i);
    }
  }

  lemma {:induction false} SentinelNeverKey(c: map<int, BaseTestModel>, models: seq<BaseTestModel>, ws: seq<BaseTestModel>, i: nat)
    requires Keyed(c)
    requires |models| == |ws| && KeysAssignedBySave(c, models, ws)
    requires forall j :: 0 <= j < |models| ==> models[j].id == UnsetId
    requires i < |ws|
    ensures UnsetId !in ApplyAll(c, ws[..i])
    ensures ws[i].id !in ApplyAll(c, ws[..i]) && ws[i].id != UnsetId
  {
    if i > 0 {
      SentinelNeverKey(c, models, ws, i - 1);
      assert ws[..i][..i - 1] == ws[..i - 1];
    }
  }

  class BaseService {
    var store: map<int, BaseTestEntity>
    /** The order in which the table returns its rows. */
    var keys: seq<int>

    ghost predicate Valid()
      reads this
    {
      && (forall k :: k in store ==> store[k].id == k && k != UnsetId && k in keys)
      && (forall i :: 0 <= i < |keys| ==> keys[i] in store)
      && Distinct(keys)
    }

    /** `updated` holds, in order, the stored entities of the first
        `|updated|` models. */
    ghost predicate Tracks(updated: seq<BaseTestEntity>, models: seq<BaseTestModel>)
      reads this
    {
      && |updated| <= |models|
      && forall j :: 0 <= j < |updated| ==> models[j].id in store && updated[j] == store[models[j].id]
    }

    lemma TracksStep(updated: seq<BaseTestEntity>, models: seq<BaseTestModel>, e: BaseTestEntity)
      requires Tracks(updated, models) && |updated| < |models|
      requires models[|updated|].id in store && e == store[models[|updated|].id]
      ensures Tracks(updated + [e], models)
    {
      assert forall j :: 0 <= j < |updated| ==> (updated + [e])[j] == updated[j];
    }

    /** The stored records, read through the mapper. */
    ghost function Contents(): map<int, BaseTestModel>
      reads this, store.Values
    {
      map k | k in store :: ConvertEntityToModel(store[k])
    }

    /** Only `e` changed since the pre-state: the other stored records are as
        they were. */
    twostate lemma OthersKept(e: BaseTestEntity)
      requires old(Valid()) && store == old(store) && keys == old(keys)
      requires e.id in store && store[e.id] == e
      requires forall o: BaseTestEntity :: o in old(store.Values) && o != e ==> o.name == old(o.name)
      ensures Contents() == old(Contents())[e.id := ConvertEntityToModel(e)]
    {
      forall k | k in store && k != e.id ensures store[k].name == old(store[k].name) {
        assert store[k] in old(store.Values);
      }
    }

    lemma ContentsKeyed()
      requires Valid()
      ensures Keyed(Contents())
    {
    }

    /** An empty repository. */
    constructor ()
      ensures Valid() && Contents() == map[]
      ensures fresh(store.Values)
    {
      store := map[];
      keys := [];
    }

    /** One model per stored entity, each read through the mapper, in the
        table's row order. */
    method FindAll() returns (models: seq<BaseTestModel>)
      requires Valid()
      ensures forall i :: 0 <= i < |models| ==> models[i].id in Contents() && Contents()[models[i].id] == models[i]
      ensures forall k :: k in Contents() ==> exists i :: 0 <= i < |models| && models[i].id == k
      ensures forall i, j :: 0 <= i < j < |models| ==> models[i].id != models[j].id
      ensures |models| == |Contents()|
    {
      models := [];
      for i := 0 to |keys|
        invariant |models| == i
        invariant forall j :: 0 <= j < i ==> models[j] == ConvertEntityToModel(store[keys[j]])
      {
        models := models + [ConvertEntityToModel(store[keys[i]])];
      }
      forall i | 0 <= i < |models| ensures models[i].id == keys[i] && models[i] == Contents()[keys[i]] {
        assert keys[i] in store;
      }
      assert (set i | 0 <= i < |models| :: models[i].id) == Contents().Keys by {
        forall k | k in Contents() ensures k in set i | 0 <= i < |models| :: models[i].id {
          assert k in keys;
          var i :| 0 <= i < |keys| && keys[i] == k;
          assert models[i].id == k;
        }
      }
      DistinctIdsCount(models);
    }

    /** The stored record under `id`, or not-found. */
    method FindById(id: int) returns (r: Result<BaseTestModel, Error>)
      requires Valid()
      ensures id in Contents() ==> r == Success(Contents()[id]) && r.value.id == id
      ensures id !in Contents() ==> r == Failure(EntityNotFound(id, EntityTypeName))
    {
      if id in store {
        r := Success(ConvertEntityToModel(store[id]));
      } else {
        r := Failure(EntityNotFound(id, EntityTypeName));
      }
    }

    /** A conflict exactly when an id is given and already stored. */
    method ValidateNewEntityId(id: Option<int>) returns (conflict: Option<Error>)
      requires Valid()
      ensures conflict.Some? <==> id.Some? && id.value in Contents()
      ensures conflict.Some? ==> conflict.value == EntityIdAlreadyExist(id.value, EntityTypeName)
    {
      conflict := None;
      if id.Some? && id.value in store {
        conflict := Some(EntityIdAlreadyExist(id.value, EntityTypeName));
      }
    }

    /** `repository.save` as a merge: an entity whose id is stored is copied
        onto the stored entity, which is returned; any other entity is stored
        as a new entity under a key the store picks. */
    method Save(entity: BaseTestEntity) returns (saved: BaseTestEntity)
      requires Valid()
      modifies this, store.Values
      ensures Valid()
      ensures fresh(store.Values - old(store.Values))
      ensures entity.name == old(entity.name)
      ensures entity.id in old(store) ==> saved == old(store)[entity.id] && store == old(store) && keys == old(keys)
      ensures entity.id !in old(store) ==>
        && fresh(saved) && saved.id !in old(store) && saved.id != UnsetId
        && store == old(store)[saved.id := saved] && keys == old(keys) + [saved.id]
      ensures saved.id in store && store[saved.id] == saved
      ensures Contents() == old(Contents())[saved.id := BaseTestModel(saved.id, old(entity.name))]
    {
      if entity.id in store {
        saved := store[entity.id];
        saved.name := entity.name;
        OthersKept(saved);
      } else {
        var bound := KeyBound(keys);
        assert bound !in store && bound != UnsetId;
        var key :| key !in store && key != UnsetId;
        saved := new BaseTestEntity(key, entity.name);
        store := store[key := saved];
        keys := keys + [key];
      }
    }

    /** Refuses an id that is already stored, before any write; otherwise
        stores the model as a new entity under a key the store picks. */
    method Create(model: BaseTestModel) returns (r: Result<BaseTestModel, Error>)
      requires Valid()
      modifies this, store.Values
      ensures Valid()
      ensures fresh(store.Values - old(store.Values))
      ensures model.id in old(Contents()) ==>
        && r == Failure(EntityIdAlreadyExist(model.id, EntityTypeName))
        && store == old(store) && Contents() == old(Contents())
      ensures model.id !in old(Contents()) ==>
        && r.Success? && r.value.name == model.name
        && r.value.id !in old(Contents()) && r.value.id != UnsetId
        && Contents() == old(Contents())[r.value.id := r.value]
        && |Contents()| == |old(Contents())| + 1
    {
      var conflict := ValidateNewEntityId(ExtractIdFromModel(model));
      if conflict.Some? {
        return Failure(conflict.value);
      }
      var entity := ConvertModelToEntity(model);
      var saved := Save(entity);
      assert Contents()[saved.id] == ConvertEntityToModel(saved);
      r := Success(ConvertEntityToModel(saved));
    }

    /** Needs an id and a stored target, checked in that order before any
        write; then copies the model onto the stored entity in place. */
    method Update(model: BaseTestModel) returns (r: Result<BaseTestModel, Error>)
      requires Valid()
      modifies this, store.Values
      ensures Valid() && store == old(store) && keys == old(keys)
      ensures fresh(store.Values - old(store.Values))
      ensures model.id !in old(Contents()) ==>
        r == Failure(EntityNotFound(model.id, EntityTypeName)) && Contents() == old(Contents())
      ensures model.id in old(Contents()) ==>
        r == Success(model) && Contents() == old(Contents())[model.id := model]
    {
      match ExtractIdFromModel(model)
      case None =>
        r := Failure(EntityIdNotFound("update"));
      case Some(entityId) =>
        if entityId !in store {
          r := Failure(EntityNotFound(entityId, EntityTypeName));
        } else {
          var entity := store[entityId];
          var updated := UpdateEntityFromModel(entity, model);
          OthersKept(entity);
          var saved := Save(updated);
          r := Success(ConvertEntityToModel(saved));
        }
    }

    /** Removes the record under `id`; a missing id is left alone. */
    method DeleteById(id: int)
      requires Valid()
      modifies this
      ensures Valid()
      ensures Contents() == old(Contents()) - {id}
    {
      if id in store {
        store := store - {id};
        keys := RemoveKey(keys, id);
        forall i | 0 <= i < |keys| ensures keys[i] in store {
          assert keys[i] in keys;
        }
      }
    }

    /** Saves every model as one batch, with no existence check: each is
        saved by the key rule of `Save`, in input order, and the result
        reads every saved entity back after the whole batch. */
    method AddAll(models: seq<BaseTestModel>) returns (saved: seq<BaseTestModel>)
      requires Valid()
      modifies this, store.Values
      ensures Valid()
      ensures fresh(store.Values - old(store.Values))
      ensures |saved| == |models|
      ensures KeysAssignedBySave(old(Contents()), models, Written(models, saved))
      ensures Contents() == ApplyAll(old(Contents()), Written(models, saved))
      ensures forall i :: 0 <= i < |saved| ==> saved[i].id in Contents() && Contents()[saved[i].id] == saved[i]
    {
      var entities, ws := SaveInOrder(models);
      saved := ReadBack(entities);
      forall j | 0 <= j < |saved| ensures saved[j].id == ws[j].id && Contents()[saved[j].id] == saved[j] {
        assert ws[j].id in store;
      }
      assert Written(models, saved) == ws;
    }

    /** The saves of `addAll`, in input order: the saved entities, and what
        each save wrote. */
    method SaveInOrder(models: seq<BaseTestModel>) returns (entities: seq<BaseTestEntity>, ghost ws: seq<BaseTestModel>)
      requires Valid()
      modifies this, store.Values
      ensures Valid()
      ensures fresh(store.Values - old(store.Values))
      ensures |entities| == |models| && |ws| == |models|
      ensures Contents() == ApplyAll(old(Contents()), ws)
      ensures forall j :: 0 <= j < |ws| ==> ws[j].name == models[j].name
      ensures forall j :: 0 <= j < |ws| ==> ws[j].id in store && store[ws[j].id] == entities[j]
      ensures KeysAssignedBySave(old(Contents()), models, ws)
    {
      ghost var c := Contents();
      entities := [];
      ws := [];
      for i := 0 to |models|
        invariant Valid()
        invariant |entities| == i && |ws| == i
        invariant Contents() == ApplyAll(c, ws)
        invariant forall j :: 0 <= j < i ==> ws[j].name == models[j].name
        invariant forall j :: 0 <= j < i ==> ws[j].id in store && store[ws[j].id] == entities[j]
        invariant KeysAssignedBySave(c, models[..i], ws)
        invariant fresh(store.Values - old(store.Values))
      {
        ghost var before := Contents();
        ghost var oldStore := store;
        var e, w := SaveOne(models[i]);
        forall j | 0 <= j < i ensures ws[j].id in store && store[ws[j].id] == entities[j] {
          assert ws[j].id in oldStore;
        }
        SaveStepKeepsKeyRule(c, models, ws, w);
        assert ApplyAll(c, ws + [w]) == before[w.id := w] by {
          assert (ws + [w])[..|ws|] == ws;
        }
        ws := ws + [w];
        entities := entities + [e];
      }
      assert models[..|models|] == models;
    }

    /** One save of `addAll`: the model converted to a new entity and saved;
        `w` is what the save wrote. */
    method SaveOne(model: BaseTestModel) returns (e: BaseTestEntity, ghost w: BaseTestModel)
      requires Valid()
      modifies this, store.Values
      ensures Valid()
      ensures fresh(store.Values - old(store.Values))
      ensures w == BaseTestModel(e.id, model.name) && e.id in store && store[e.id] == e
      ensures if model.id in old(Contents()) then w.id == model.id else w.id !in old(Contents()) && w.id != UnsetId
      ensures Contents() == old(Contents())[w.id := w]
      ensures forall k :: k in old(store) ==> k in store && store[k] == old(store)[k]
    {
      var entity := ConvertModelToEntity(model);
      e := Save(entity);
      w := BaseTestModel(e.id, model.name);
    }

    /** `repository.saveAll` on entities that are all stored already: each
        save is a merge of an entity onto itself, which changes nothing. */
    method SaveStored(entities: seq<BaseTestEntity>) returns (saved: seq<BaseTestEntity>)
      requires Valid()
      requires forall j :: 0 <= j < |entities| ==> entities[j].id in store && store[entities[j].id] == entities[j]
      modifies this, store.Values
      ensures Valid() && store == old(store) && keys == old(keys)
      ensures fresh(store.Values - old(store.Values))
      ensures Contents() == old(Contents())
      ensures saved == entities
    {
      saved := [];
      for k := 0 to |entities|
        invariant Valid() && store == old(store) && keys == old(keys)
        invariant Contents() == old(Contents())
        invariant saved == entities[..k]
      {
        var s := Save(entities[k]);
        saved := saved + [s];
      }
    }

    /** Reads every entity back through the mapper, in order. */
    method ReadBack(entities: seq<BaseTestEntity>) returns (models: seq<BaseTestModel>)
      ensures |models| == |entities|
      ensures forall j :: 0 <= j < |models| ==> models[j] == ConvertEntityToModel(entities[j])
    {
      models := [];
      for k := 0 to |entities|
        invariant |models| == k
        invariant forall j :: 0 <= j < k ==> models[j] == ConvertEntityToModel(entities[j])
      {
        models := models + [ConvertEntityToModel(entities[k])];
      }
    }

    /** Copies every model onto its stored entity, in input order, as one
        transaction: the first model whose id is not stored aborts the batch
        and the store is rolled back to what it was. */
    method UpdateAll(models: seq<BaseTestModel>) returns (r: Result<seq<BaseTestModel>, Error>)
      requires Valid()
      modifies this, store.Values
      ensures Valid() && store == old(store) && keys == old(keys)
      ensures fresh(store.Values - old(store.Values))
      ensures FirstAbsentId(old(Contents()).Keys, models).Some? ==>
        && r == Failure(EntityNotFound(FirstAbsentId(old(Contents()).Keys, models).value, EntityTypeName))
        && Contents() == old(Contents())
      ensures FirstAbsentId(old(Contents()).Keys, models).None? ==>
        && r.Success? && |r.value| == |models|
        && Contents() == ApplyAll(old(Contents()), models)
        && forall i :: 0 <= i < |models| ==> r.value[i] == Contents()[models[i].id]
    {
      var updated, undo, failure := CopyInOrder(models);
      if failure.Some? {
        FirstAbsentIdAt(old(Contents()).Keys, models, |updated|);
        Rollback(updated, undo, models, old(Contents()));
        return Failure(failure.value);
      }
      assert models[..|updated|] == models;
      var saved := SaveStored(updated);
      var out := ReadBack(saved);
      r := Success(out);
    }

    /** The writes of `updateAll` inside its transaction: copies the models
        onto their stored entities in order and stops at the first id that is
        not stored. Returns the entities written, the name each held before,
        and the failure if there was one. */
    method CopyInOrder(models: seq<BaseTestModel>) returns (updated: seq<BaseTestEntity>, undo: seq<string>, failure: Option<Error>)
      requires Valid()
      modifies store.Values
      ensures Valid()
      ensures |updated| == |undo| && Tracks(updated, models)
      ensures UndoLog(old(Contents()), models, undo)
      ensures Contents() == ApplyAll(old(Contents()), models[..|updated|])
      ensures failure.None? ==> |updated| == |models|
      ensures failure.Some? ==>
        |updated| < |models| && models[|updated|].id !in store
        && failure.value == EntityNotFound(models[|updated|].id, EntityTypeName)
    {
      updated := [];
      undo := [];
      failure := None;
      ghost var c := Contents();
      for i := 0 to |models|
        invariant Valid() && c == old(Contents())
        invariant |updated| == i && |undo| == i && Tracks(updated, models)
        invariant UndoLog(c, models, undo)
        invariant Contents() == ApplyAll(c, models[..i])
      {
        match ExtractIdFromModel(models[i])
        case None =>
          failure := Some(EntityIdNotFound("updateAll"));
          return;
        case Some(id) =>
          if id !in store {
            failure := Some(EntityNotFound(id, EntityTypeName));
            return;
          }
          var e, name := CopyNext(c, models, i, undo, updated);
          undo := undo + [name];
          updated := updated + [e];
      }
    }

    /** The i-th write of `updateAll`: the model copied onto its stored
        entity, whose earlier name is returned for the undo log. */
    method CopyNext(ghost c: map<int, BaseTestModel>, models: seq<BaseTestModel>, i: nat,
                    ghost undo: seq<string>, ghost updated: seq<BaseTestEntity>)
      returns (e: BaseTestEntity, name: string)
      requires Valid() && i < |models| && models[i].id in store
      requires |undo| == i && UndoLog(c, models, undo)
      requires |updated| == i && Tracks(updated, models)
      requires Contents() == ApplyAll(c, models[..i])
      modifies store.Values
      ensures Valid() && Tracks(updated + [e], models)
      ensures UndoLog(c, models, undo + [name])
      ensures Contents() == ApplyAll(c, models[..i + 1])
    {
      var entity := store[models[i].id];
      name := entity.name;
      assert Contents()[models[i].id] == BaseTestModel(models[i].id, name);
      UndoLogStep(c, models, undo, name);
      e := CopyOnto(entity, models[i]);
      assert models[..i + 1][..i] == models[..i];
      TracksStep(updated, models, e);
    }

    /** One write of `updateAll`: the model copied onto its stored entity. */
    method CopyOnto(entity: BaseTestEntity, model: BaseTestModel) returns (e: BaseTestEntity)
      requires Valid() && model.id in store && store[model.id] == entity
      modifies store.Values
      ensures Valid() && e == entity
      ensures Contents() == old(Contents())[model.id := model]
    {
      e := UpdateEntityFromModel(entity, model);
      forall k | k in store ensures k in Contents() && Contents()[k] == old(Contents())[model.id := model][k] {
        if k != model.id { assert store[k] != entity; }
      }
    }

    /** Undoes the writes of `CopyInOrder`, last first, restoring each
        entity's earlier name. */
    method Rollback(updated: seq<BaseTestEntity>, undo: seq<string>, ghost models: seq<BaseTestModel>, ghost c: map<int, BaseTestModel>)
      requires Valid()
      requires |updated| == |undo| && Tracks(updated, models)
      requires UndoLog(c, models, undo)
      requires Contents() == ApplyAll(c, models[..|updated|])
      modifies store.Values
      ensures Valid() && Contents() == c
    {
      var j := |updated|;
      while j > 0
        invariant 0 <= j <= |updated|
        invariant Valid()
        invariant Contents() == ApplyAll(c, models[..j])
      {
        j := j - 1;
        UndoOne(c, models, undo, j);
        RestoreName(updated[j], models[j].id, undo[j]);
      }
    }

    /** One step of the rollback: the stored entity under `id` gets its
        earlier name back. */
    method RestoreName(entity: BaseTestEntity, ghost id: int, name: string)
      requires Valid() && id in store && store[id] == entity
      modifies store.Values
      ensures Valid()
      ensures Contents() == old(Contents())[id := BaseTestModel(id, name)]
    {
      entity.name := name;
      forall k | k in store ensures k in Contents() && Contents()[k] == old(Contents())[id := BaseTestModel(id, name)][k] {
        if k != id { assert store[k] != entity; }
      }
    }

    /** Empties the repository. */
    method DeleteAll()
      requires Valid()
      modifies this
      ensures Valid() && Contents() == map[]
    {
      store := map[];
      keys := [];
    }
  }
}
