/** The generic REST controller (`generic/controller/BaseController.kt`):
    each handler turns the service's outcome, or the exception it threw,
    into a status and an optional body. An exception is a `Failure` carrying
    the error; `toDto` is the mapper's `convertModelToDtoOut`. */
module CrudController {
  import opened Wrappers
  import opened Exceptions

  datatype Status = Ok | Created | NoContent | BadRequest | NotFound | InternalServerError

  /** The HTTP status code sent for each status. */
  function Code(s: Status): (c: int)
    ensures 200 <= c < 600
    ensures c < 300 <==> s == Ok || s == Created || s == NoContent
  {
    match s
    case Ok => 200
    case Created => 201
    case NoContent => 204
    case BadRequest => 400
    case NotFound => 404
    case InternalServerError => 500
  }

  datatype Response<T> = Response(status: Status, body: Option<T>)

  /** The eight handlers. */
  datatype Handler = GetAllHandler | GetHandler | CreateHandler | UpdateHandler
                   | DeleteHandler | DeleteAllHandler | AddAllHandler | UpdateAllHandler

  /** The failure table read by error kind: which handlers answer each kind
      with a client error, every other pairing being a server error. */
  function FailureStatus(h: Handler, e: Error): Status {
    match e
    case EntityNotFound(_, _) =>
      if h == GetHandler || h == UpdateHandler || h == DeleteHandler then NotFound else InternalServerError
    case EntityValidation(_) =>
      if h == CreateHandler || h == UpdateHandler || h == AddAllHandler || h == UpdateAllHandler then BadRequest
      else InternalServerError
    case IllegalArgument(_) =>
      if h == UpdateHandler then BadRequest else InternalServerError
    case EntityIdNotFound(_) => InternalServerError
    case EntityIdAlreadyExist(_, _) => InternalServerError
    case Unexpected(_) => InternalServerError
  }

  /** No handler has a clause of its own for a missing or a clashing id. */
  lemma IdErrorsAreServerErrors(h: Handler, e: Error)
    requires e.EntityIdNotFound? || e.EntityIdAlreadyExist?
    ensures FailureStatus(h, e) == InternalServerError && Code(FailureStatus(h, e)) == 500
  {
  }

  /** A failure is never answered with a success status. */
  lemma FailureIsNeverSuccess(h: Handler, e: Error)
    ensures Code(FailureStatus(h, e)) >= 400
  {
  }

  /** Every element converted, in order, as `List.map` does. */
  function MapAll<A, B>(xs: seq<A>, f: A -> B): (ys: seq<B>)
    ensures |ys| == |xs|
    ensures forall i :: 0 <= i < |xs| ==> ys[i] == f(xs[i])
  {
    if xs == [] then [] else [f(xs[0])] + MapAll(xs[1..], f)
  }

  /** `getAll`: the list converted element by element, or a server error. */
  function GetAll<M, D>(outcome: Result<seq<M>, Error>, toDto: M -> D): (r: Response<seq<D>>)
    ensures outcome.Success? ==>
      && r.status == Ok && r.body.Some?
      && |r.body.value| == |outcome.value|
      && forall i :: 0 <= i < |outcome.value| ==> r.body.value[i] == toDto(outcome.value[i])
    ensures outcome.Failure? ==> r == Response(FailureStatus(GetAllHandler, outcome.error), None)
  {
    match outcome
    case Success(ms) => Response(Ok, Some(MapAll(ms, toDto)))
    case Failure(_) => Response(InternalServerError, None)
  }

  /** `get`: the converted model; not-found is 404, anything else 500. */
  function Get<M, D>(outcome: Result<M, Error>, toDto: M -> D): (r: Response<D>)
    ensures outcome.Success? ==> r == Response(Ok, Some(toDto(outcome.value)))
    ensures outcome.Failure? ==> r == Response(FailureStatus(GetHandler, outcome.error), None)
  {
    match outcome
    case Success(m) => Response(Ok, Some(toDto(m)))
    case Failure(EntityNotFound(_, _)) => Response(NotFound, None)
    case Failure(_) => Response(InternalServerError, None)
  }

  /** `create`: the converted model with 201; a validation failure is 400,
      anything else, a clashing id included, 500. */
  function Create<M, D>(outcome: Result<M, Error>, toDto: M -> D): (r: Response<D>)
    ensures outcome.Success? ==> r == Response(Created, Some(toDto(outcome.value)))
    ensures outcome.Failure? ==> r == Response(FailureStatus(CreateHandler, outcome.error), None)
  {
    match outcome
    case Success(m) => Response(Created, Some(toDto(m)))
    case Failure(EntityValidation(_)) => Response(BadRequest, None)
    case Failure(_) => Response(InternalServerError, None)
  }

  /** The catch clauses of `update`, in their order. */
  function UpdateOutcome<M, D>(attempt: Result<M, Error>, toDto: M -> D): (r: Response<D>)
    ensures attempt.Success? ==> r == Response(Ok, Some(toDto(attempt.value)))
    ensures attempt.Failure? ==> r == Response(FailureStatus(UpdateHandler, attempt.error), None)
  {
    match attempt
    case Success(m) => Response(Ok, Some(toDto(m)))
    case Failure(IllegalArgument(_)) => Response(BadRequest, None)
    case Failure(EntityNotFound(_, _)) => Response(NotFound, None)
    case Failure(EntityValidation(_)) => Response(BadRequest, None)
    case Failure(_) => Response(InternalServerError, None)
  }

  /** The message of the path/body id check. */
  const IdMismatchText: string := "Path variable ID and DTO ID do not match."

  /** `update` as written: the check throws when the path id and the body id
      are EQUAL, and only differing ids reach the service, whose answer is
      `outcome`. */
  function Update<M, D>(pathId: int, dtoId: int, outcome: Result<M, Error>, toDto: M -> D): (r: Response<D>)
    ensures pathId == dtoId ==> r == Response(BadRequest, None)
    ensures pathId != dtoId ==> r == UpdateOutcome(outcome, toDto)
  {
    var attempt := if pathId != dtoId then outcome else Failure(IllegalArgument(IdMismatchText));
    UpdateOutcome(attempt, toDto)
  }

  /** `update` with the check the message describes: only a body whose id
      matches the path reaches the service. */
  function UpdateChecked<M, D>(pathId: int, dtoId: int, outcome: Result<M, Error>, toDto: M -> D): (r: Response<D>)
    ensures pathId != dtoId ==> r == Response(BadRequest, None)
    ensures pathId == dtoId ==> r == UpdateOutcome(outcome, toDto)
  {
    var attempt := if pathId == dtoId then outcome else Failure(IllegalArgument(IdMismatchText));
    UpdateOutcome(attempt, toDto)
  }

  /** As written, a well-formed request (the body names the resource of the
      path) is refused even though the service would update it, while a body
      naming another resource goes through. */
  lemma UpdateRefusesMatchingIds<M, D>(id: int, other: int, m: M, toDto: M -> D)
    requires id != other
    ensures Update(id, id, Success(m), toDto) == Response(BadRequest, None)
    ensures Update(id, other, Success(m), toDto) == Response(Ok, Some(toDto(m)))
    ensures UpdateChecked(id, id, Success(m), toDto) == Response(Ok, Some(toDto(m)))
  {
  }

  /** With the corrected check, a success always answers for the resource of
      the path, and the two checks never agree on whether to call the
      service. */
  lemma UpdateCheckedSucceedsOnlyForPath<M, D>(pathId: int, dtoId: int, outcome: Result<M, Error>, toDto: M -> D)
    ensures UpdateChecked(pathId, dtoId, outcome, toDto).status == Ok ==> pathId == dtoId && outcome.Success?
    ensures Update(pathId, dtoId, outcome, toDto).status == Ok ==> pathId != dtoId && outcome.Success?
  {
  }

  /** `delete`: 204 with no body; not-found is 404, anything else 500. */
  function Delete(outcome: Result<(), Error>): (r: Response<()>)
    ensures outcome.Success? ==> r == Response(NoContent, None)
    ensures outcome.Failure? ==> r == Response(FailureStatus(DeleteHandler, outcome.error), None)
  {
    match outcome
    case Success(_) => Response(NoContent, None)
    case Failure(EntityNotFound(_, _)) => Response(NotFound, None)
    case Failure(_) => Response(InternalServerError, None)
  }

  /** `deleteAll`: 204, or 500 for any failure. */
  function DeleteAll(outcome: Result<(), Error>): (r: Response<()>)
    ensures outcome.Success? ==> r == Response(NoContent, None)
    ensures outcome.Failure? ==> r == Response(FailureStatus(DeleteAllHandler, outcome.error), None)
  {
    match outcome
    case Success(_) => Response(NoContent, None)
    case Failure(_) => Response(InternalServerError, None)
  }

  /** `addAll`: 204 and the saved list is dropped; a validation failure is
      400, anything else 500. */
  function AddAll<M, D>(outcome: Result<seq<M>, Error>): (r: Response<seq<D>>)
    ensures outcome.Success? ==> r == Response(NoContent, None)
    ensures outcome.Failure? ==> r == Response(FailureStatus(AddAllHandler, outcome.error), None)
  {
    match outcome
    case Success(_) => Response(NoContent, None)
    case Failure(EntityValidation(_)) => Response(BadRequest, None)
    case Failure(_) => Response(InternalServerError, None)
  }

  /** `updateAll`: 204 and the updated list is dropped; a validation
      failure is 400, anything else, not-found included, 500. */
  function UpdateAll<M, D>(outcome: Result<seq<M>, Error>): (r: Response<seq<D>>)
    ensures outcome.Success? ==> r == Response(NoContent, None)
    ensures outcome.Failure? ==> r == Response(FailureStatus(UpdateAllHandler, outcome.error), None)
  {
    match outcome
    case Success(_) => Response(NoContent, None)
    case Failure(EntityValidation(_)) => Response(BadRequest, None)
    case Failure(_) => Response(InternalServerError, None)
  }
}
