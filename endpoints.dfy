/** The controller's handlers wired to the service for the (id, name)
    resource: each endpoint calls the service as the handler does and answers
    through the handler's catch clauses. The update endpoint uses the
    corrected id check `CrudController.UpdateChecked`. */
module CrudEndpoints {
  import opened Wrappers
  import opened Ids
  import opened Exceptions
  import opened BaseTestMapper
  import opened CrudService
  import C = CrudController

  /** 200 with one DTO per stored record: each stored record exactly once. */
  method GetAll(svc: BaseService) returns (resp: C.Response<seq<BaseTestDtoOutput>>)
    requires svc.Valid()
    ensures resp.status == C.Ok && resp.body.Some?
    ensures |resp.body.value| == |svc.Contents()|
    ensures forall i :: 0 <= i < |resp.body.value| ==>
      var d := resp.body.value[i];
      d.id in svc.Contents() && d == ConvertModelToDtoOut(svc.Contents()[d.id])
    ensures forall i, j :: 0 <= i < j < |resp.body.value| ==> resp.body.value[i].id != resp.body.value[j].id
    ensures forall k :: k in svc.Contents() ==> exists i :: 0 <= i < |resp.body.value| && resp.body.value[i].id == k
  {
    var models := svc.FindAll();
    resp := C.GetAll(Success(models), ConvertModelToDtoOut);
  }

  /** 200 with the stored record, or 404. */
  method Get(svc: BaseService, id: int) returns (resp: C.Response<BaseTestDtoOutput>)
    requires svc.Valid()
    ensures id in svc.Contents() ==> resp == C.Response(C.Ok, Some(BaseTestDtoOutput(id, svc.Contents()[id].name)))
    ensures id !in svc.Contents() ==> resp == C.Response(C.NotFound, None)
  {
    var outcome := svc.FindById(id);
    resp := C.Get(outcome, ConvertModelToDtoOut);
  }

  /** 201 with the new record under a fresh id; a clashing id is a server
      error and nothing is written. */
  method Create(svc: BaseService, dto: BaseTestDtoInput) returns (resp: C.Response<BaseTestDtoOutput>)
    requires svc.Valid()
    modifies svc, svc.store.Values
    ensures svc.Valid()
    ensures dto.id in old(svc.Contents()) ==>
      resp == C.Response(C.InternalServerError, None) && svc.Contents() == old(svc.Contents())
    ensures dto.id !in old(svc.Contents()) ==>
      && resp.status == C.Created && resp.body.Some?
      && resp.body.value.name == dto.name && resp.body.value.id !in old(svc.Contents())
      && svc.Contents() == old(svc.Contents())[resp.body.value.id := BaseTestModel(resp.body.value.id, dto.name)]
  {
    var outcome := svc.Create(ConvertDtoToModel(dto));
    resp := C.Create(outcome, ConvertModelToDtoOut);
  }

  /** With the corrected check: 400 for a body naming another resource, 404
      for a missing one, otherwise 200 with the record as written. */
  method Update(svc: BaseService, pathId: int, dto: BaseTestDtoInput) returns (resp: C.Response<BaseTestDtoOutput>)
    requires svc.Valid()
    modifies svc, svc.store.Values
    ensures svc.Valid()
    ensures pathId != dto.id ==> resp == C.Response(C.BadRequest, None) && svc.Contents() == old(svc.Contents())
    ensures pathId == dto.id && dto.id !in old(svc.Contents()) ==>
      resp == C.Response(C.NotFound, None) && svc.Contents() == old(svc.Contents())
    ensures pathId == dto.id && dto.id in old(svc.Contents()) ==>
      && resp == C.Response(C.Ok, Some(BaseTestDtoOutput(dto.id, dto.name)))
      && svc.Contents() == old(svc.Contents())[dto.id := BaseTestModel(dto.id, dto.name)]
  {
    var outcome: Result<BaseTestModel, Error> := Failure(IllegalArgument(C.IdMismatchText));
    if pathId == dto.id {
      outcome := svc.Update(ConvertDtoToModel(dto));
    }
    resp := C.UpdateChecked(pathId, dto.id, outcome, ConvertModelToDtoOut);
  }

  /** The handler as written: equal path and body ids get 400, while a body
      naming another stored resource rewrites that record and gets 200. */
  method UpdateAsWritten(svc: BaseService, pathId: int, dto: BaseTestDtoInput) returns (resp: C.Response<BaseTestDtoOutput>)
    requires svc.Valid()
    modifies svc, svc.store.Values
    ensures svc.Valid()
    ensures pathId == dto.id ==> resp == C.Response(C.BadRequest, None) && svc.Contents() == old(svc.Contents())
    ensures pathId != dto.id && dto.id !in old(svc.Contents()) ==>
      resp == C.Response(C.NotFound, None) && svc.Contents() == old(svc.Contents())
    ensures pathId != dto.id && dto.id in old(svc.Contents()) ==>
      && resp == C.Response(C.Ok, Some(BaseTestDtoOutput(dto.id, dto.name)))
      && svc.Contents() == old(svc.Contents())[dto.id := BaseTestModel(dto.id, dto.name)]
  {
    var outcome: Result<BaseTestModel, Error> := Failure(IllegalArgument(C.IdMismatchText));
    if pathId != dto.id {
      outcome := svc.Update(ConvertDtoToModel(dto));
    }
    resp := C.Update(pathId, dto.id, outcome, ConvertModelToDtoOut);
  }

  /** 204, and the id is gone; the service never reports a missing id, so
      the handler's 404 clause is never reached. */
  method Delete(svc: BaseService, id: int) returns (resp: C.Response<()>)
    requires svc.Valid()
    modifies svc
    ensures svc.Valid()
    ensures resp == C.Response(C.NoContent, None)
    ensures svc.Contents() == old(svc.Contents()) - {id}
  {
    svc.DeleteById(id);
    resp := C.Delete(Success(()));
  }

  /** 204, and the store is empty. */
  method DeleteAll(svc: BaseService) returns (resp: C.Response<()>)
    requires svc.Valid()
    modifies svc
    ensures svc.Valid()
    ensures resp == C.Response(C.NoContent, None) && svc.Contents() == map[]
  {
    svc.DeleteAll();
    resp := C.DeleteAll(Success(()));
  }

  /** 204 with no body. Every DTO is saved, in order, by the key rule of
      `save` and with its own name (`ws` is what was written); every key
      stored before is still stored, and DTOs without ids grow the store by
      their number. */
  method AddAll(svc: BaseService, dtos: seq<BaseTestDtoInput>)
    returns (resp: C.Response<seq<BaseTestDtoOutput>>, ghost ws: seq<BaseTestModel>)
    requires svc.Valid()
    modifies svc, svc.store.Values
    ensures svc.Valid()
    ensures resp == C.Response(C.NoContent, None)
    ensures |ws| == |dtos| && forall i :: 0 <= i < |ws| ==> ws[i].name == dtos[i].name
    ensures KeysAssignedBySave(old(svc.Contents()), C.MapAll(dtos, ConvertDtoToModel), ws)
    ensures svc.Contents() == ApplyAll(old(svc.Contents()), ws)
    ensures old(svc.Contents()).Keys <= svc.Contents().Keys
    ensures (forall i :: 0 <= i < |dtos| ==> dtos[i].id == UnsetId) ==>
      |svc.Contents()| == |old(svc.Contents())| + |dtos|
  {
    var models := C.MapAll(dtos, ConvertDtoToModel);
    ghost var before := svc.Contents();
    svc.ContentsKeyed();
    var saved := svc.AddAll(models);
    ws := Written(models, saved);
    ApplyAllKeys(before, ws);
    if forall i :: 0 <= i < |dtos| ==> dtos[i].id == UnsetId {
      NewRecordsAllAdded(before, models, ws);
    }
    resp := C.AddAll(Success(saved));
  }

  /** 204 with no body when every id is stored; otherwise the batch is
      undone and the missing id is answered with a server error, not 404. */
  method UpdateAll(svc: BaseService, dtos: seq<BaseTestDtoInput>) returns (resp: C.Response<seq<BaseTestDtoOutput>>)
    requires svc.Valid()
    modifies svc, svc.store.Values
    ensures svc.Valid()
    ensures FirstAbsentId(old(svc.Contents()).Keys, C.MapAll(dtos, ConvertDtoToModel)).Some? ==>
      resp == C.Response(C.InternalServerError, None) && svc.Contents() == old(svc.Contents())
    ensures FirstAbsentId(old(svc.Contents()).Keys, C.MapAll(dtos, ConvertDtoToModel)).None? ==>
      resp == C.Response(C.NoContent, None)
      && svc.Contents() == ApplyAll(old(svc.Contents()), C.MapAll(dtos, ConvertDtoToModel))
  {
    var outcome := svc.UpdateAll(C.MapAll(dtos, ConvertDtoToModel));
    resp := C.UpdateAll(outcome);
  }
}
