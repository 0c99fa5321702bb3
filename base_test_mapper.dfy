/** The mapper of the (id, name) test resource that the generic service is
    instantiated with (`service/base/mapper/BaseTestMapper.kt`), together with
    the record types it converts between. */
module BaseTestMapper {
  import opened Wrappers
  import opened Ids

  datatype BaseTestDtoInput = BaseTestDtoInput(id: int, name: string)

  datatype BaseTestDtoOutput = BaseTestDtoOutput(id: int, name: string)

  datatype BaseTestModel = BaseTestModel(id: int, name: string)

  /** The stored record: its id never changes once built, its name is
      updated in place. */
  class BaseTestEntity {
    const id: int
    var name: string

    constructor (id: int, name: string)
      ensures this.id == id && this.name == name
    {
      this.id := id;
      this.name := name;
    }
  }

  /** An input DTO built without an id, as a client sends it for a new record:
      the id keeps its `Long.MIN_VALUE` default. */
  function NewDtoInput(name: string): BaseTestDtoInput {
    BaseTestDtoInput(UnsetId, name)
  }

  function ConvertDtoToModel(dto: BaseTestDtoInput): BaseTestModel {
    BaseTestModel(dto.id, dto.name)
  }

  function ConvertModelToDtoOut(model: BaseTestModel): BaseTestDtoOutput {
    BaseTestDtoOutput(model.id, model.name)
  }

  function ConvertEntityToModel(entity: BaseTestEntity): BaseTestModel
    reads entity
  {
    BaseTestModel(entity.id, entity.name)
  }

  /** Builds a new, unsaved entity; reading it back gives the model again. */
  method ConvertModelToEntity(model: BaseTestModel) returns (entity: BaseTestEntity)
    ensures fresh(entity)
    ensures ConvertEntityToModel(entity) == model
  {
    entity := new BaseTestEntity(model.id, model.name);
  }

  /** Copies the model's name onto the entity itself and hands the same
      entity back; the entity keeps its own id. */
  method UpdateEntityFromModel(entity: BaseTestEntity, model: BaseTestModel) returns (updated: BaseTestEntity)
    modifies entity
    ensures updated == entity
    ensures ConvertEntityToModel(entity) == BaseTestModel(entity.id, model.name)
  {
    entity.name := model.name;
    updated := entity;
  }

  /** Never absent: every model carries an id, the sentinel included. */
  function ExtractIdFromModel(model: BaseTestModel): (id: Option<int>)
    ensures id.Some? && id.value == model.id
  {
    Some(model.id)
  }

  function ConvertEntityToDto(entity: BaseTestEntity): BaseTestDtoOutput
    reads entity
  {
    BaseTestDtoOutput(entity.id, entity.name)
  }

  /** Input DTO to model to output DTO keeps the id and the name. */
  lemma DtoRoundTrip(dto: BaseTestDtoInput)
    ensures ConvertModelToDtoOut(ConvertDtoToModel(dto)) == BaseTestDtoOutput(dto.id, dto.name)
  {
  }

  /** The direct entity-to-DTO shortcut agrees with going through the model. */
  lemma EntityToDtoIsComposition(entity: BaseTestEntity)
    ensures ConvertEntityToDto(entity) == ConvertModelToDtoOut(ConvertEntityToModel(entity))
  {
  }
}
