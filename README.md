# generic-crud-helper in Dafny

A model of the generic CRUD pipeline of `generic-crud-helper`, with proofs about it. The pipeline runs controller → service → mapper → repository. The model is instantiated for the repository's own test resources.

- **Service** (`base_service.dfy`, module `CrudService`). `BaseService` is a class over a map-backed repository: `store: map<int, BaseTestEntity>` plus the row order `keys`.
  - Its operations are methods that change the store as the Kotlin service does.
  - `repository.save` is a merge: a stored id copies the name onto the managed entity; any other entity gets a fresh key that is never the `Long.MIN_VALUE` sentinel.
  - `updateAll` mutates each managed entity in place, in input order. On the first missing id, an undo log is replayed last-first, which stands for the transaction's rollback.
  - `Contents()` is the repository read through the mapper.
  - `ApplyAll` is the reference definition of a batch of writes. `FirstAbsentId` is the reference definition of where `updateAll` aborts.
- **Controller** (`base_controller.dfy`, module `CrudController`). The eight handlers are pure functions from the service's outcome (a `Result` whose `Failure` is the thrown exception) to a `Response` with a status and an optional body.
  - `FailureStatus` is the failure table, read by error kind, and every handler is proved against it.
- **Endpoints** (`endpoints.dfy`, module `CrudEndpoints`). Each handler is wired to the service, and the resulting store and status are stated end to end.
- **Error taxonomy** (`exceptions.dfy`, `ids.dfy`). The exceptions and their exact message strings, including the decimal rendering of a `Long` id, with decoders that read each argument back out of a message.
- **Mappers** (`base_test_mapper.dfy`, `insert_test_mapper.dfy`, `embedded_partial_test_mapper.dfy`, `embedded_test_mapper.dfy`). Entities are classes whose fields the mappers update in place; DTOs and models are datatypes.
- **Scenarios** (`service_scenarios.dfy`). The service's H2 integration scenarios, each on a fresh repository, with what each asserts proved as a postcondition.

## Model

| member | source | states |
|---|---|---|
| CrudService.BaseService.FindAll | src/main/kotlin/generic/service/BaseService.kt:50-62 | One model per stored entity, each equal to the stored record under its id; every stored key appears, ids are pairwise distinct, and the length is the store's size |
| CrudService.BaseService.FindById | src/main/kotlin/generic/service/BaseService.kt:105-121 | A present key gives Success with the stored record under that id; an absent one gives Failure(EntityNotFound(id, "Entity")) |
| CrudService.BaseService.ValidateNewEntityId | src/main/kotlin/generic/service/BaseService.kt:288-296 | A conflict exactly when an id is given and already stored, and it is EntityIdAlreadyExist(id, "Entity") |
| CrudService.BaseService.Save | src/main/kotlin/generic/service/BaseService.kt:79 | A stored id is merged onto the managed entity, which is returned; any other entity is stored as a new entity under a fresh key that is not the sentinel; in both cases the store afterwards is the old one with that key set to (key, name) |
| CrudService.BaseService.Create | src/main/kotlin/generic/service/BaseService.kt:73-95 | An id already stored fails with EntityIdAlreadyExist and leaves the store unchanged; otherwise it succeeds with the input's name under a fresh non-sentinel id, and the store gains exactly that one record |
| CrudService.BaseService.Update | src/main/kotlin/generic/service/BaseService.kt:133-159 | A missing target fails with EntityNotFound and nothing changes; otherwise it returns the model, and only that key's record becomes the model |
| CrudService.BaseService.DeleteById | src/main/kotlin/generic/service/BaseService.kt:167-179 | The store afterwards is the old one without that key; a missing key changes nothing |
| CrudService.BaseService.AddAll | src/main/kotlin/generic/service/BaseService.kt:189-207 | Each model is saved in input order by the key rule of `save`; the store afterwards is ApplyAll of those writes; every returned model is what the store holds under its id |
| CrudService.BaseService.SaveInOrder | src/main/kotlin/generic/service/BaseService.kt:193-194 | The loop of batch saves: every write keeps the input's name, follows the key rule at its turn, and the store is ApplyAll of the writes so far |
| CrudService.BaseService.SaveOne | src/main/kotlin/generic/service/BaseService.kt:193-194 | One converted-and-saved model: the key is the model's own if stored, otherwise fresh and not the sentinel; earlier keys keep their entities |
| CrudService.BaseService.SaveStored | src/main/kotlin/generic/service/BaseService.kt:228 | Saving entities that are already stored returns them unchanged and leaves the store as it was |
| CrudService.BaseService.ReadBack | src/main/kotlin/generic/service/BaseService.kt:229 | One model per entity, in order, each read through the mapper |
| CrudService.BaseService.UpdateAll | src/main/kotlin/generic/service/BaseService.kt:219-247 | If some id is not stored, it fails with EntityNotFound for the first such id in input order, and the store is as before; otherwise it succeeds with one model per input, the store is ApplyAll of the models, and each result is the record finally stored under its input's id |
| CrudService.BaseService.CopyInOrder | src/main/kotlin/generic/service/BaseService.kt:223-227 | Copies models onto their stored entities in order and stops at the first id not stored; returns the entities written, an undo log of their earlier names, and the store as ApplyAll of the prefix written |
| CrudService.BaseService.CopyNext | src/main/kotlin/generic/service/BaseService.kt:224-226 | One step of the copy: the undo log gains the entity's earlier name, and the store gains one write |
| CrudService.BaseService.CopyOnto | src/main/kotlin/generic/service/BaseService.kt:226 | The model is copied onto its stored entity; only that key's record changes |
| CrudService.BaseService.Rollback | src/main/kotlin/generic/service/BaseService.kt:219 | Replaying the undo log last-first brings the store back to what it was before the batch |
| CrudService.BaseService.RestoreName | src/main/kotlin/generic/service/BaseService.kt:219 | One undo step: the entity under that key gets its earlier name back, and nothing else changes |
| CrudService.BaseService.DeleteAll | src/main/kotlin/generic/service/BaseService.kt:254-266 | The store afterwards is empty |
| CrudService.BaseService.constructor | src/main/kotlin/generic/service/BaseService.kt:38-40 | A service over an empty repository |
| CrudService.FirstAbsentId | src/main/kotlin/generic/service/BaseService.kt:223-225 | None exactly when every id is stored; otherwise an id of the batch that is not stored |
| CrudService.FirstAbsentIdAt | src/main/kotlin/generic/service/BaseService.kt:223-225 | A missing id found at position i, after every earlier id was present, is the one FirstAbsentId names |
| CrudService.ApplyAllKeys | src/main/kotlin/generic/service/BaseService.kt:193-194 | After a batch, the keys are the old keys plus the ids written: a batch never removes a record |
| CrudService.LastWriteWins | src/main/kotlin/generic/service/BaseService.kt:223-228 | A write that no later write to the same id overrides is what the store holds under that id at the end |
| CrudService.UntouchedKeyKept | src/main/kotlin/generic/service/BaseService.kt:223-228 | A key that no write of the batch touches keeps its record, or stays absent |
| CrudService.FreshWritesGrow | src/main/kotlin/generic/service/BaseService.kt:193-194 | Writes that each go to a key not yet held grow the store by one each |
| CrudService.SentinelNeverKey | src/main/kotlin/generic/service/BaseService.kt:193-194 | In a batch of records without ids, each gets a key that is new at its turn and never the sentinel |
| CrudService.NewRecordsAllAdded | src/main/kotlin/generic/service/BaseService.kt:190-197 | A batch of records without ids grows the store by exactly the batch's length, and every record is found under its key |
| CrudService.UndoOne | src/main/kotlin/generic/service/BaseService.kt:219 | Putting back the logged name for write j undoes that write on the store |
| CrudController.Code | src/main/kotlin/generic/controller/BaseController.kt:52-231 | Every status is an HTTP code in 200..599, and it is below 300 exactly for OK, CREATED and NO_CONTENT |
| CrudController.IdErrorsAreServerErrors | src/main/kotlin/generic/controller/BaseController.kt:52-231 | No handler has a clause for a missing or a clashing id, so both are 500 everywhere |
| CrudController.FailureIsNeverSuccess | src/main/kotlin/generic/controller/BaseController.kt:52-231 | Every failure is answered with a code of 400 or more |
| CrudController.MapAll | src/main/kotlin/generic/controller/BaseController.kt:55 | The list is converted element by element, keeping length and order |
| CrudController.GetAll | src/main/kotlin/generic/controller/BaseController.kt:52-64 | 200 with a list of the same length and order, each element converted; any failure is 500 with no body |
| CrudController.Get | src/main/kotlin/generic/controller/BaseController.kt:72-87 | 200 with the converted model; a failure gets its status from the table (404 for not-found, otherwise 500), with no body |
| CrudController.Create | src/main/kotlin/generic/controller/BaseController.kt:95-110 | 201 with the converted model; a failure gets its status from the table (400 for validation, otherwise 500, a clashing id included) |
| CrudController.UpdateOutcome | src/main/kotlin/generic/controller/BaseController.kt:125-139 | The catch clauses of `update`: 200 with the converted model, or the table's status with no body (400 for an illegal argument or validation, 404 for not-found, otherwise 500) |
| CrudController.Update | src/main/kotlin/generic/controller/BaseController.kt:119-143 | As written: equal path and body ids give 400, and differing ids go on to the service's outcome |
| CrudController.UpdateChecked | src/main/kotlin/generic/controller/BaseController.kt:119-143 | With the check the message describes: differing ids give 400, and equal ids go on to the service's outcome |
| CrudController.UpdateRefusesMatchingIds | src/main/kotlin/generic/controller/BaseController.kt:122-124 | As written, a body that names the resource of the path is refused with 400 even when the service would succeed, and a body that names another resource gets 200; the corrected check gives the first request 200 |
| CrudController.UpdateCheckedSucceedsOnlyForPath | src/main/kotlin/generic/controller/BaseController.kt:122-124 | With the corrected check, 200 implies equal ids and a successful service call; as written, 200 implies differing ids |
| CrudController.Delete | src/main/kotlin/generic/controller/BaseController.kt:151-166 | 204 with no body; a failure gets its status from the table (404 for not-found, otherwise 500) |
| CrudController.DeleteAll | src/main/kotlin/generic/controller/BaseController.kt:173-185 | 204; any failure is 500 |
| CrudController.AddAll | src/main/kotlin/generic/controller/BaseController.kt:193-208 | 204 with no body, the saved list dropped; a failure gets its status from the table (400 for validation, otherwise 500) |
| CrudController.UpdateAll | src/main/kotlin/generic/controller/BaseController.kt:216-231 | 204 with no body; a failure gets its status from the table (400 for validation, otherwise 500, not-found included) |
| CrudEndpoints.GetAll | src/main/kotlin/generic/controller/BaseController.kt:52-64 | 200 with one output DTO per stored record: each is the converted record under its id, ids are pairwise distinct, every stored key appears, and the length is the store's size |
| CrudEndpoints.Get | src/main/kotlin/generic/controller/BaseController.kt:72-87 | 200 with the stored record as a DTO when the id is stored, otherwise 404 |
| CrudEndpoints.Create | src/main/kotlin/generic/controller/BaseController.kt:95-110 | A stored id gives 500 and the store is unchanged; otherwise 201 with the input's name under a fresh id, and the store gains that record |
| CrudEndpoints.Update | src/main/kotlin/generic/controller/BaseController.kt:119-143 | With the corrected check: differing ids give 400, a missing id 404, both with the store unchanged; otherwise 200 with the DTO as written, and only that record changes |
| CrudEndpoints.UpdateAsWritten | src/main/kotlin/generic/controller/BaseController.kt:119-143 | As written: equal path and body ids give 400 with the store unchanged; a body naming another id that is not stored gives 404; a body naming another stored id rewrites that record with the body's name and gives 200 |
| CrudEndpoints.Delete | src/main/kotlin/generic/controller/BaseController.kt:151-166 | 204, and the id is no longer stored |
| CrudEndpoints.DeleteAll | src/main/kotlin/generic/controller/BaseController.kt:173-185 | 204, and the store is empty |
| CrudEndpoints.AddAll | src/main/kotlin/generic/controller/BaseController.kt:193-208 | 204 with no body; every DTO is saved in order by the key rule of `save` with its own name, the store afterwards is ApplyAll of those writes, every key stored before is still stored, and DTOs without ids grow the store by their number |
| CrudEndpoints.UpdateAll | src/main/kotlin/generic/controller/BaseController.kt:216-231 | A batch with an id that is not stored gives 500 and the store is unchanged; otherwise 204 and the store is ApplyAll of the batch |
| Exceptions.NotFoundMessageCarriesId | src/main/kotlin/generic/exception/GeneralExceptions.kt:11-12 | The not-found message is "Entity of type '<type>' not found with id '<id>'", and the id reads back from it |
| Exceptions.IdNotFoundMessageCarriesOperation | src/main/kotlin/generic/exception/GeneralExceptions.kt:19-20 | The id-required message is "Entity ID is required for the operation '<operation>'", and the operation reads back from it |
| Exceptions.AlreadyExistMessageCarriesId | src/main/kotlin/generic/exception/GeneralExceptions.kt:28-29 | The already-exists message is "Entity of type '<type>' already exists with id '<id>'", and the id reads back from it |
| Exceptions.ValidationMessageCarriesDetail | src/main/kotlin/generic/exception/GeneralExceptions.kt:36-37 | The validation message is "Entity validation failed: " followed by exactly the given text |
| Exceptions.MessagesTellKindsApart | src/main/kotlin/generic/exception/GeneralExceptions.kt:11-37 | Two exceptions of different kinds never carry the same message, given the same entity type |
| Ids.NatToString | src/main/kotlin/generic/exception/GeneralExceptions.kt:12 | The decimal rendering of an id in a message is non-empty, all digits, and has no leading zero |
| Ids.ParseLongToString | src/main/kotlin/generic/exception/GeneralExceptions.kt:12 | The rendering of an id, sign included, parses back to that id |
| Ids.LongToStringInjective | src/main/kotlin/generic/exception/GeneralExceptions.kt:12 | Distinct ids render as distinct strings |
| BaseTestMapper.ConvertModelToEntity | src/test/kotlin/cz/binaryburst/basetest/service/base/mapper/BaseTestMapper.kt:26-38 | A new entity which, read back through convertEntityToModel, is the model again |
| BaseTestMapper.UpdateEntityFromModel | src/test/kotlin/cz/binaryburst/basetest/service/base/mapper/BaseTestMapper.kt:40-43 | The same entity is returned; it keeps its id and takes the model's name |
| BaseTestMapper.ExtractIdFromModel | src/test/kotlin/cz/binaryburst/basetest/service/base/mapper/BaseTestMapper.kt:45-47 | Never absent: always the model's id |
| BaseTestMapper.DtoRoundTrip | src/test/kotlin/cz/binaryburst/basetest/service/base/mapper/BaseTestMapper.kt:12-24 | Input DTO to model to output DTO keeps the id and the name |
| BaseTestMapper.EntityToDtoIsComposition | src/test/kotlin/cz/binaryburst/basetest/service/base/mapper/BaseTestMapper.kt:33-54 | convertEntityToDto equals convertModelToDtoOut after convertEntityToModel |
| InsertTestMapper.ConvertModelToEntity | src/test/kotlin/cz/binaryburst/basetest/service/mapper/BaseTestMapper.kt:26-38 | A new entity which, read back, is the model again |
| InsertTestMapper.UpdateEntityFromModel | src/test/kotlin/cz/binaryburst/basetest/service/mapper/BaseTestMapper.kt:40-43 | The same entity is returned; it keeps its id and takes the model's name |
| InsertTestMapper.ExtractIdFromModel | src/test/kotlin/cz/binaryburst/basetest/service/mapper/BaseTestMapper.kt:45-47 | Always the model's id |
| InsertTestMapper.DtoRoundTrip | src/test/kotlin/cz/binaryburst/basetest/service/mapper/BaseTestMapper.kt:12-24 | Insert DTO to model to output DTO keeps the id and the name |
| InsertTestMapper.EntityToDtoIsComposition | src/test/kotlin/cz/binaryburst/basetest/service/mapper/BaseTestMapper.kt:33-54 | convertEntityToDto equals convertModelToDtoOut after convertEntityToModel |
| EmbeddedPartialTestMapper.ConvertModelToEntity | src/test/kotlin/cz/binaryburst/basetest/service/embeddable/mapper/EmbeddedPartialTestMapper.kt:27-37 | A new entity whose `value` holds the name; read back, it is the model again |
| EmbeddedPartialTestMapper.UpdateEntityFromModel | src/test/kotlin/cz/binaryburst/basetest/service/embeddable/mapper/EmbeddedPartialTestMapper.kt:39-45 | The same entity is returned, and reading it back gives the model |
| EmbeddedPartialTestMapper.DtoRoundTrip | src/test/kotlin/cz/binaryburst/basetest/service/embeddable/mapper/EmbeddedPartialTestMapper.kt:15-25 | Insert DTO to model to output DTO keeps the name |
| EmbeddedPartialTestMapper.EntityToDtoIsComposition | src/test/kotlin/cz/binaryburst/basetest/service/embeddable/mapper/EmbeddedPartialTestMapper.kt:21-51 | convertEntityToDto equals the composition, and it reports the stored `value` as the name |
| EmbeddedTestMapper.ConvertModelToEntity | src/test/kotlin/cz/binaryburst/basetest/service/embeddable/mapper/EmbeddedTestMapper.kt:32-46 | A new parent around a new child which, read back, is the model again, child included |
| EmbeddedTestMapper.UpdateEntityFromModel | src/test/kotlin/cz/binaryburst/basetest/service/embeddable/mapper/EmbeddedTestMapper.kt:48-55 | The same entity is returned; it keeps its id and its child object, and takes the model's name and the child's name |
| EmbeddedTestMapper.ExtractIdFromModel | src/test/kotlin/cz/binaryburst/basetest/service/embeddable/mapper/EmbeddedTestMapper.kt:57-59 | Always the model's id |
| EmbeddedTestMapper.DtoRoundTrip | src/test/kotlin/cz/binaryburst/basetest/service/embeddable/mapper/EmbeddedTestMapper.kt:16-30 | Input DTO to model to output DTO keeps the id, the name and the child's name, through the partial mapper's round trip |
| EmbeddedTestMapper.EntityToDtoIsComposition | src/test/kotlin/cz/binaryburst/basetest/service/embeddable/mapper/EmbeddedTestMapper.kt:40-67 | convertEntityToDto equals the composition, child included |
| ServiceScenarios.FindAllOnEmptyStore | src/test/kotlin/cz/binaryburst/basetest/service/base/test/BaseTestServiceH2Test.kt:30-34 | An empty repository lists nothing |
| ServiceScenarios.CreatePersists | src/test/kotlin/cz/binaryburst/basetest/service/base/test/BaseTestServiceH2Test.kt:36-43 | A created record keeps its name, gets an id, and is then the only record listed |
| ServiceScenarios.FindCreated | src/test/kotlin/cz/binaryburst/basetest/service/base/test/BaseTestServiceH2Test.kt:45-52 | A created record is found under its id, unchanged |
| ServiceScenarios.UpdatePersists | src/test/kotlin/cz/binaryburst/basetest/service/base/test/BaseTestServiceH2Test.kt:54-62 | After an update, a lookup finds the new name |
| ServiceScenarios.DeleteCreated | src/test/kotlin/cz/binaryburst/basetest/service/base/test/BaseTestServiceH2Test.kt:64-70 | Deleting the only record empties the listing |
| ServiceScenarios.AddAllPersistsBoth | src/test/kotlin/cz/binaryburst/basetest/service/base/test/BaseTestServiceH2Test.kt:72-80 | Two records without ids are stored under distinct ids with their names, and two records are listed |
| ServiceScenarios.DeleteAllEmpties | src/test/kotlin/cz/binaryburst/basetest/service/base/test/BaseTestServiceH2Test.kt:82-86 | After deleteAll nothing is listed |
| ServiceScenarios.FindMissing | src/test/kotlin/cz/binaryburst/basetest/service/base/test/BaseTestServiceH2Test.kt:88-94 | Looking up 999 in an empty repository fails with not-found |
| ServiceScenarios.CreateDuplicate | src/test/kotlin/cz/binaryburst/basetest/service/base/test/BaseTestServiceH2Test.kt:96-106 | Creating again under a stored id fails with EntityIdAlreadyExist for that id |
| ServiceScenarios.UpdateMissing | src/test/kotlin/cz/binaryburst/basetest/service/base/test/BaseTestServiceH2Test.kt:108-115 | Updating 999 in an empty repository fails with not-found |

## Left out

- Logging: the `logger` calls and the try/finally scaffolding around them have no observable effect.
- Rethrowing: the service's catch clauses that log and rethrow are the identity on the outcome, so each service method returns its `Failure` directly.
- Spring Data JPA is a map. `findByIdOrNull` is a map lookup. `save` is a merge, as described above. `saveAllAndFlush` is saves in order.
- Identity generation is a nondeterministic fresh key, distinct from the sentinel. Ids are unbounded integers, so 64-bit overflow of the generator is not modelled.
- The transaction of `addAll` has nothing to roll back, because no error path exists once the store is a map. The transaction of `updateAll` is the undo log.
- Store failures (I/O, constraint violations, flush errors) and validation failures raised by the store are not modelled. The service never produces `EntityValidation` or `Unexpected`. The controller still handles both, as the source does.
- Concurrency: the race between `create`'s existence check and its insert is delegated to the store. Every call here runs alone.
- HTTP and JSON plumbing (`ResponseEntity`, Jackson annotations, Spring wiring) is left out. A status is an enum with its numeric code.
- Generic type parameters are left out. The service and the endpoints are instantiated for the (id, name) resource only. The controller's handlers stay generic over the model and DTO types, with the mapper's `convertModelToDtoOut` passed as a function.
- The services for the insert-DTO resource and the embedded resource are only subclasses that wire a mapper and a repository, so only their mappers are modelled.
- The interface files (`IBaseMapper`, `IDataMapper`, `IBasePartialMapper`, `IBaseService`, `IBaseController`) only declare signatures. The datatypes and classes here take their shape.
- CrudService.BaseService.Update: the `EntityIdNotFound("update")` branch is modelled but cannot be reached. Every model carries an id, the `Long.MIN_VALUE` default included, so the contract has no clause for it.
- CrudService.BaseService.UpdateAll: likewise, the `EntityIdNotFound("updateAll")` branch cannot be reached. A sentinel id in the batch is simply not stored, so it fails as not-found.
- CrudService.BaseService.DeleteById: a missing key is a no-op. Whether the store instead throws for one depends on the Spring Data version, and that is not modelled.
- CrudEndpoints.Delete: the handler's 404 clause is never reached, because the service's delete never reports a missing id.
- CrudEndpoints.Update: this uses the corrected id check (see Findings). The handler as written, wired to the service, is `CrudEndpoints.UpdateAsWritten`.
- CrudService.BaseService.AddAll: a model whose explicit id is not stored gets a fresh key from the store rather than its own id, as identity generation does.
- Where the general status table and the code differ, the code is followed. An already-existing id and a missing id are 500, not 400 or 409. Not-found is 500 in `getAll`, `addAll` and `updateAll`, because those handlers have no clause for it.

## Findings

| source | as written | input that shows it | evidently intended | confidence | as-written member | corrected member |
|---|---|---|---|---|---|---|
| src/main/kotlin/generic/controller/BaseController.kt:122-124 | `check(id != dto.id)` throws `IllegalArgumentException("Path variable ID and DTO ID do not match.")` when the two ids are equal, so a well-formed update is answered 400 and a body naming another resource is sent to the service | `PUT /5` with body `{id: 5, name: "x"}` while 5 is stored gives 400; with body `{id: 6, name: "x"}` while 6 is stored, it updates record 6 and gives 200 | reject only when the path id and the body id differ, as the message says | high (not executed) | CrudController.Update, CrudController.UpdateRefusesMatchingIds, CrudEndpoints.UpdateAsWritten | CrudController.UpdateChecked, CrudController.UpdateCheckedSucceedsOnlyForPath, CrudEndpoints.Update |
