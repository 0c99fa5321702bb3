/** The partial mapper of the embedded child record
    (`service/embeddable/mapper/EmbeddedPartialTestMapper.kt`). A partial
    record has no id: the model's `name` is stored in the entity's `value`. */
module EmbeddedPartialTestMapper {

  datatype EmbeddedChildTestInsertDto = EmbeddedChildTestInsertDto(name: string)

  datatype EmbeddedChildTestOutputDto = EmbeddedChildTestOutputDto(name: string)

  datatype EmbeddedChildTestModel = EmbeddedChildTestModel(name: string)

  /** The embedded column of the parent's row, updated in place. */
  class EmbeddedChildTestEntity {
    var value: string

    constructor (value: string)
      ensures this.value == value
    {
      this.value := value;
    }
  }

  function ConvertDtoToModel(dto: EmbeddedChildTestInsertDto): EmbeddedChildTestModel {
    EmbeddedChildTestModel(dto.name)
  }

  function ConvertModelToDtoOut(model: EmbeddedChildTestModel): EmbeddedChildTestOutputDto {
    EmbeddedChildTestOutputDto(model.name)
  }

  function ConvertEntityToModel(entity: EmbeddedChildTestEntity): EmbeddedChildTestModel
    reads entity
  {
    EmbeddedChildTestModel(entity.value)
  }

  /** Stores the name in a new entity's `value`; reading it back gives the
      model again. */
  method ConvertModelToEntity(model: EmbeddedChildTestModel) returns (entity: EmbeddedChildTestEntity)
    ensures fresh(entity)
    ensures ConvertEntityToModel(entity) == model
  {
    entity := new EmbeddedChildTestEntity(model.name);
  }

  /** Overwrites `value` with the model's name in place and returns the same
      entity. */
  method UpdateEntityFromModel(entity: EmbeddedChildTestEntity, model: EmbeddedChildTestModel)
    returns (updated: EmbeddedChildTestEntity)
    modifies entity
    ensures updated == entity
    ensures ConvertEntityToModel(entity) == model
  {
    entity.value := model.name;
    updated := entity;
  }

  function ConvertEntityToDto(entity: EmbeddedChildTestEntity): EmbeddedChildTestOutputDto
    reads entity
  {
    EmbeddedChildTestOutputDto(entity.value)
  }

  /** Insert DTO to model to output DTO keeps the name. */
  lemma DtoRoundTrip(dto: EmbeddedChildTestInsertDto)
    ensures ConvertModelToDtoOut(ConvertDtoToModel(dto)).name == dto.name
  {
  }

  /** The shortcut reports the stored `value` as the name, as the composition does. */
  lemma EntityToDtoIsComposition(entity: EmbeddedChildTestEntity)
    ensures ConvertEntityToDto(entity) == ConvertModelToDtoOut(ConvertEntityToModel(entity))
    ensures ConvertEntityToDto(entity).name == entity.value
  {
  }
}
