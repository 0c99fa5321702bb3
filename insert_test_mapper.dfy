/** The mapper of the (id, name) test resource written against the data
    mapper interface (`service/mapper/BaseTestMapper.kt`), with its insert and
    output DTOs. */
module InsertTestMapper {
  import opened Wrappers
  import opened Ids

  datatype BaseTestInsertDto = BaseTestInsertDto(id: int, name: string)

  datatype BaseTestOutputDto = BaseTestOutputDto(id: int, name: string)

  datatype BaseTestModel = BaseTestModel(id: int, name: string)

  /** The stored record: fixed id, name updated in place. */
  class BaseTestEntity {
    const id: int
    var name: string

    constructor (id: int, name: string)
      ensures this.id == id && this.name == name
    {
      this.id := id;
      this.name := name;
    }
  }

  function ConvertDtoToModel(dto: BaseTestInsertDto): BaseTestModel {
    BaseTestModel(dto.id, dto.name)
  }

  function ConvertModelToDtoOut(model: BaseTestModel): BaseTestOutputDto {
    BaseTestOutputDto(model.id, model.name)
  }

  function ConvertEntityToModel(entity: BaseTestEntity): BaseTestModel
    reads entity
  {
    BaseTestModel(entity.id, entity.name)
  }

  /** Builds a new, unsaved entity; reading it back gives the model again. */
  method ConvertModelToEntity(model: BaseTestModel) returns (entity: BaseTestEntity)
    ensures fresh(entity)
    ensures ConvertEntityToModel(entity) == model
  {
    entity := new BaseTestEntity(model.id, model.name);
  }

  /** Overwrites only the name, in place, and returns the same entity. */
  method UpdateEntityFromModel(entity: BaseTestEntity, model: BaseTestModel) returns (updated: BaseTestEntity)
    modifies entity
    ensures updated == entity
    ensures ConvertEntityToModel(entity) == BaseTestModel(entity.id, model.name)
  {
    entity.name := model.name;
    updated := entity;
  }

  /** Returns the model's id unconditionally. */
  function ExtractIdFromModel(model: BaseTestModel): (id: Option<int>)
    ensures id.Some? && id.value == model.id
  {
    Some(model.id)
  }

  function ConvertEntityToDto(entity: BaseTestEntity): BaseTestOutputDto
    reads entity
  {
    BaseTestOutputDto(entity.id, entity.name)
  }

  /** Insert DTO to model to output DTO keeps the id and the name. */
  lemma DtoRoundTrip(dto: BaseTestInsertDto)
    ensures ConvertModelToDtoOut(ConvertDtoToModel(dto)) == BaseTestOutputDto(dto.id, dto.name)
  {
  }

  lemma EntityToDtoIsComposition(entity: BaseTestEntity)
    ensures ConvertEntityToDto(entity) == ConvertModelToDtoOut(ConvertEntityToModel(entity))
  {
  }
}
