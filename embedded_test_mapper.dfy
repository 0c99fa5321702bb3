/** The parent mapper of the resource with an embedded child
    (`service/embeddable/mapper/EmbeddedTestMapper.kt`). Every conversion
    handles `id` and `name` itself and hands the embedded field to the
    matching operation of the partial mapper. */
module EmbeddedTestMapper {
  import opened Wrappers
  import opened Ids
  import Partial = EmbeddedPartialTestMapper

  datatype EmbeddedTestDtoInput = EmbeddedTestDtoInput(
    id: int, name: string, embeddedChildTestInsertDto: Partial.EmbeddedChildTestInsertDto)

  datatype EmbeddedTestDtoOutput = EmbeddedTestDtoOutput(
    id: int, name: string, embeddedChildTestOutputDto: Partial.EmbeddedChildTestOutputDto)

  datatype EmbeddedTestModel = EmbeddedTestModel(
    id: int, name: string, embeddedChildTestModel: Partial.EmbeddedChildTestModel)

  /** The stored parent record: fixed id, and a name and an embedded child
      that are updated in place. */
  class EmbeddedTestEntity {
    const id: int
    var name: string
    var embeddedChildTestEntity: Partial.EmbeddedChildTestEntity

    constructor (id: int, name: string, child: Partial.EmbeddedChildTestEntity)
      ensures this.id == id && this.name == name && embeddedChildTestEntity == child
    {
      this.id := id;
      this.name := name;
      embeddedChildTestEntity := child;
    }
  }

  function ConvertDtoToModel(dto: EmbeddedTestDtoInput): EmbeddedTestModel {
    EmbeddedTestModel(dto.id, dto.name, Partial.ConvertDtoToModel(dto.embeddedChildTestInsertDto))
  }

  function ConvertModelToDtoOut(model: EmbeddedTestModel): EmbeddedTestDtoOutput {
    EmbeddedTestDtoOutput(model.id, model.name, Partial.ConvertModelToDtoOut(model.embeddedChildTestModel))
  }

  function ConvertEntityToModel(entity: EmbeddedTestEntity): EmbeddedTestModel
    reads entity, entity.embeddedChildTestEntity
  {
    EmbeddedTestModel(entity.id, entity.name, Partial.ConvertEntityToModel(entity.embeddedChildTestEntity))
  }

  /** Builds a new parent entity around a new child entity; reading it back
      gives the model again, child included. */
  method ConvertModelToEntity(model: EmbeddedTestModel) returns (entity: EmbeddedTestEntity)
    ensures fresh(entity) && fresh(entity.embeddedChildTestEntity)
    ensures ConvertEntityToModel(entity) == model
  {
    var child := Partial.ConvertModelToEntity(model.embeddedChildTestModel);
    entity := new EmbeddedTestEntity(model.id, model.name, child);
  }

  /** Replaces the name and, through the partial mapper, the child's value,
      in place; keeps the id and the child object, and returns the same
      entity. */
  method UpdateEntityFromModel(entity: EmbeddedTestEntity, model: EmbeddedTestModel) returns (updated: EmbeddedTestEntity)
    modifies entity, entity.embeddedChildTestEntity
    ensures updated == entity
    ensures entity.embeddedChildTestEntity == old(entity.embeddedChildTestEntity)
    ensures ConvertEntityToModel(entity) == EmbeddedTestModel(entity.id, model.name, model.embeddedChildTestModel)
  {
    entity.name := model.name;
    entity.embeddedChildTestEntity :=
      Partial.UpdateEntityFromModel(entity.embeddedChildTestEntity, model.embeddedChildTestModel);
    updated := entity;
  }

  /** Returns the model's id, never absent. */
  function ExtractIdFromModel(model: EmbeddedTestModel): (id: Option<int>)
    ensures id.Some? && id.value == model.id
  {
    Some(model.id)
  }

  function ConvertEntityToDto(entity: EmbeddedTestEntity): EmbeddedTestDtoOutput
    reads entity, entity.embeddedChildTestEntity
  {
    EmbeddedTestDtoOutput(entity.id, entity.name, Partial.ConvertEntityToDto(entity.embeddedChildTestEntity))
  }

  /** Input DTO to model to output DTO keeps the id, the name and the child's
      name, the last by the partial mapper's own round trip. */
  lemma DtoRoundTrip(dto: EmbeddedTestDtoInput)
    ensures var out := ConvertModelToDtoOut(ConvertDtoToModel(dto));
      out.id == dto.id && out.name == dto.name
      && out.embeddedChildTestOutputDto.name == dto.embeddedChildTestInsertDto.name
  {
    Partial.DtoRoundTrip(dto.embeddedChildTestInsertDto);
  }

  /** The shortcut agrees with going through the model, child included. */
  lemma EntityToDtoIsComposition(entity: EmbeddedTestEntity)
    ensures ConvertEntityToDto(entity) == ConvertModelToDtoOut(ConvertEntityToModel(entity))
  {
    Partial.EntityToDtoIsComposition(entity.embeddedChildTestEntity);
  }
}
