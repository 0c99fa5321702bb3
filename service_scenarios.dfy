/** The service's integration scenarios for the (id, name) resource, each
    on a fresh, empty repository, with what each one asserts stated as its
    postcondition. */
module ServiceScenarios {
  import opened Wrappers
  import opened Ids
  import opened Exceptions
  import opened BaseTestMapper
  import opened CrudService

  /** An empty repository lists nothing. */
  method FindAllOnEmptyStore() returns (all: seq<BaseTestModel>)
    ensures all == []
  {
    var svc := new BaseService();
    all := svc.FindAll();
  }

  /** A record created without an id is stored under a new id with its name,
      and is then the only record listed. */
  method CreatePersists() returns (created: Result<BaseTestModel, Error>, all: seq<BaseTestModel>)
    ensures created.Success? && created.value.name == "Test" && created.value.id != UnsetId
    ensures all == [created.value]
  {
    var svc := new BaseService();
    created := svc.Create(ConvertDtoToModel(NewDtoInput("Test")));
    all := svc.FindAll();
  }

  /** A created record is found again under its id, unchanged. */
  method FindCreated() returns (created: Result<BaseTestModel, Error>, found: Result<BaseTestModel, Error>)
    ensures created.Success? && found == Success(created.value)
  {
    var svc := new BaseService();
    created := svc.Create(ConvertDtoToModel(NewDtoInput("Test")));
    found := svc.FindById(created.value.id);
  }

  /** An update under the created id is what a later lookup finds. */
  method UpdatePersists() returns (created: Result<BaseTestModel, Error>, found: Result<BaseTestModel, Error>)
    ensures created.Success? && found == Success(BaseTestModel(created.value.id, "Updated Test"))
  {
    var svc := new BaseService();
    created := svc.Create(ConvertDtoToModel(NewDtoInput("Test")));
    var _ := svc.Update(ConvertDtoToModel(BaseTestDtoInput(created.value.id, "Updated Test")));
    found := svc.FindById(created.value.id);
  }

  /** Deleting the only record empties the listing. */
  method DeleteCreated() returns (all: seq<BaseTestModel>)
    ensures all == []
  {
    var svc := new BaseService();
    var created := svc.Create(ConvertDtoToModel(NewDtoInput("Test")));
    svc.DeleteById(created.value.id);
    all := svc.FindAll();
  }

  /** Two records without ids are both stored, under distinct new ids. */
  method AddAllPersistsBoth() returns (saved: seq<BaseTestModel>, all: seq<BaseTestModel>)
    ensures |saved| == 2 && saved[0].id != saved[1].id
    ensures saved[0].name == "Test 1" && saved[1].name == "Test 2"
    ensures |all| == 2
  {
    var svc := new BaseService();
    var models := [ConvertDtoToModel(NewDtoInput("Test 1")), ConvertDtoToModel(NewDtoInput("Test 2"))];
    saved := svc.AddAll(models);
    NewRecordsAllAdded(map[], models, Written(models, saved));
    assert saved[0].id == Written(models, saved)[0].id;
    all := svc.FindAll();
  }

  /** After `deleteAll` nothing is listed, whatever was stored. */
  method DeleteAllEmpties() returns (all: seq<BaseTestModel>)
    ensures all == []
  {
    var svc := new BaseService();
    var _ := svc.Create(ConvertDtoToModel(NewDtoInput("Test")));
    svc.DeleteAll();
    all := svc.FindAll();
  }

  /** Looking up an id nobody stored is not-found. */
  method FindMissing() returns (found: Result<BaseTestModel, Error>)
    ensures found == Failure(EntityNotFound(999, "Entity"))
  {
    var svc := new BaseService();
    found := svc.FindById(999);
  }

  /** Creating again under a stored id is refused with the clashing id. */
  method CreateDuplicate() returns (created: Result<BaseTestModel, Error>, duplicate: Result<BaseTestModel, Error>)
    ensures created.Success?
    ensures duplicate == Failure(EntityIdAlreadyExist(created.value.id, "Entity"))
  {
    var svc := new BaseService();
    created := svc.Create(ConvertDtoToModel(NewDtoInput("Existing Test")));
    duplicate := svc.Create(ConvertDtoToModel(BaseTestDtoInput(created.value.id, "Duplicate Test")));
  }

  /** Updating an id nobody stored is not-found. */
  method UpdateMissing() returns (updated: Result<BaseTestModel, Error>)
    ensures updated == Failure(EntityNotFound(999, "Entity"))
  {
    var svc := new BaseService();
    updated := svc.Update(ConvertDtoToModel(BaseTestDtoInput(999, "Non-existent Test")));
  }
}
