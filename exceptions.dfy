/** The error taxonomy of the pipeline and the fixed message each error
    carries (`generic/exception/GeneralExceptions.kt`). */
module Exceptions {
  import opened Wrappers
  import opened Ids

  /** The first four constructors are the four exception classes of the
      taxonomy. The last two stand for exceptions from outside it that the
      controller still tells apart: `IllegalArgumentException`, and any other
      runtime exception (a store failure, for one). */
  datatype Error =
    | EntityNotFound(id: int, entityType: string)
    | EntityIdNotFound(operation: string)
    | EntityIdAlreadyExist(id: int, entityType: string)
    | EntityValidation(detail: string)
    | IllegalArgument(text: string)
    | Unexpected(text: string)

  /** True of the four kinds the taxonomy defines. */
  predicate InTaxonomy(e: Error) {
    e.EntityNotFound? || e.EntityIdNotFound? || e.EntityIdAlreadyExist? || e.EntityValidation?
  }

  /** Which constructor `e` was built with. */
  function Kind(e: Error): nat {
    match e
    case EntityNotFound(_, _) => 0
    case EntityIdNotFound(_) => 1
    case EntityIdAlreadyExist(_, _) => 2
    case EntityValidation(_) => 3
    case IllegalArgument(_) => 4
    case Unexpected(_) => 5
  }

  function NotFoundPrefix(entityType: string): string {
    "Entity of type '" + entityType + "' not found with id '"
  }

  function AlreadyExistsPrefix(entityType: string): string {
    "Entity of type '" + entityType + "' already exists with id '"
  }

  const IdRequiredPrefix: string := "Entity ID is required for the operation '"

  const ValidationPrefix: string := "Entity validation failed: "

  /** The message each exception passes to `RuntimeException`. */
  function Message(e: Error): string {
    match e
    case EntityNotFound(id, t) => NotFoundPrefix(t) + LongToString(id) + "'"
    case EntityIdNotFound(op) => IdRequiredPrefix + op + "'"
    case EntityIdAlreadyExist(id, t) => AlreadyExistsPrefix(t) + LongToString(id) + "'"
    case EntityValidation(detail) => ValidationPrefix + detail
    case IllegalArgument(text) => text
    case Unexpected(text) => text
  }

  /** The text of `msg` between a known prefix and suffix, when it has both. */
  function Between(msg: string, prefix: string, suffix: string): (r: Option<string>)
    ensures r.Some? ==> prefix + r.value + suffix == msg
  {
    if |msg| >= |prefix| + |suffix| && msg[..|prefix|] == prefix && msg[|msg| - |suffix|..] == suffix then
      var mid := msg[|prefix|..|msg| - |suffix|];
      assert msg == msg[..|prefix|] + mid + msg[|msg| - |suffix|..];
      Some(mid)
    else
      None
  }

  lemma BetweenOfWrapped(prefix: string, x: string, suffix: string)
    ensures Between(prefix + x + suffix, prefix, suffix) == Some(x)
  {
    var msg := prefix + x + suffix;
    assert msg[..|prefix|] == prefix;
    assert msg[|msg| - |suffix|..] == suffix;
    assert msg[|prefix|..|msg| - |suffix|] == x;
  }

  /** Reads the id back out of a not-found message about `entityType`. */
  function NotFoundIdIn(msg: string, entityType: string): Option<int> {
    match Between(msg, NotFoundPrefix(entityType), "'")
    case None => None
    case Some(s) => ParseLong(s)
  }

  /** Reads the id back out of an already-exists message about `entityType`. */
  function AlreadyExistsIdIn(msg: string, entityType: string): Option<int> {
    match Between(msg, AlreadyExistsPrefix(entityType), "'")
    case None => None
    case Some(s) => ParseLong(s)
  }

  function OperationIn(msg: string): Option<string> {
    Between(msg, IdRequiredPrefix, "'")
  }

  function ValidationDetailIn(msg: string): Option<string> {
    Between(msg, ValidationPrefix, "")
  }

  /** The not-found message names the entity type and the decimal id, so the
      id can be read back from it. */
  lemma NotFoundMessageCarriesId(id: int, entityType: string)
    ensures NotFoundIdIn(Message(EntityNotFound(id, entityType)), entityType) == Some(id)
  {
    BetweenOfWrapped(NotFoundPrefix(entityType), LongToString(id), "'");
    ParseLongToString(id);
  }

  lemma AlreadyExistMessageCarriesId(id: int, entityType: string)
    ensures AlreadyExistsIdIn(Message(EntityIdAlreadyExist(id, entityType)), entityType) == Some(id)
  {
    BetweenOfWrapped(AlreadyExistsPrefix(entityType), LongToString(id), "'");
    ParseLongToString(id);
  }

  lemma IdNotFoundMessageCarriesOperation(operation: string)
    ensures OperationIn(Message(EntityIdNotFound(operation))) == Some(operation)
  {
    BetweenOfWrapped(IdRequiredPrefix, operation, "'");
  }

  /** The validation message is the fixed prefix followed by the given text. */
  lemma ValidationMessageCarriesDetail(detail: string)
    ensures ValidationDetailIn(Message(EntityValidation(detail))) == Some(detail)
  {
    BetweenOfWrapped(ValidationPrefix, detail, "");
    assert ValidationPrefix + detail + "" == Message(EntityValidation(detail));
  }

  /** A character of a prefix is that character of anything it prefixes. */
  lemma PrefixAt(p: string, q: string, k: nat)
    requires k < |p|
    ensures |p + q| > k && (p + q)[k] == p[k]
  {
  }

  /** A message that names an entity type reads "Entity of type '", the
      type, then `tail`; this gives its eighth character and the third one
      after the type. */
  lemma NamedMarkers(t: string, tail: string, rest: string)
    requires |tail| > 2
    ensures var m := "Entity of type '" + t + tail + rest;
      |m| > 18 + |t| && m[7] == 'o' && m[18 + |t|] == tail[2]
  {
    var head := "Entity of type '";
    PrefixAt(head, t, 7);
    PrefixAt(head + t, tail, 7);
    PrefixAt(head + t + tail, rest, 7);
    PrefixAt(head + t + tail, rest, 18 + |t|);
  }

  lemma NotFoundMarkers(id: int, t: string)
    ensures var m := Message(EntityNotFound(id, t));
      |m| > 18 + |t| && m[7] == 'o' && m[18 + |t|] == 'n'
  {
    NamedMarkers(t, "' not found with id '", LongToString(id) + "'");
    assert Message(EntityNotFound(id, t)) == "Entity of type '" + t + "' not found with id '" + (LongToString(id) + "'");
  }

  lemma AlreadyExistsMarkers(id: int, t: string)
    ensures var m := Message(EntityIdAlreadyExist(id, t));
      |m| > 18 + |t| && m[7] == 'o' && m[18 + |t|] == 'a'
  {
    NamedMarkers(t, "' already exists with id '", LongToString(id) + "'");
    assert Message(EntityIdAlreadyExist(id, t)) == "Entity of type '" + t + "' already exists with id '" + (LongToString(id) + "'");
  }

  /** The eighth character of a taxonomy message tells the two messages
      that name an entity type from the other two kinds. */
  lemma KindMarker(e: Error)
    requires InTaxonomy(e)
    ensures |Message(e)| > 7
    ensures Message(e)[7] == (if e.EntityNotFound? || e.EntityIdAlreadyExist? then 'o'
                              else if e.EntityIdNotFound? then 'I' else 'v')
  {
    match e
    case EntityNotFound(id, t) => NotFoundMarkers(id, t);
    case EntityIdAlreadyExist(id, t) => AlreadyExistsMarkers(id, t);
    case EntityIdNotFound(op) => PrefixAt(IdRequiredPrefix, op + "'", 7);
    case EntityValidation(detail) => PrefixAt(ValidationPrefix, detail, 7);
  }

  /** Two taxonomy errors of different kinds never share a message, as long
      as the two that name an entity type name the same one. */
  lemma MessagesTellKindsApart(a: Error, b: Error)
    requires InTaxonomy(a) && InTaxonomy(b) && Kind(a) != Kind(b)
    requires (a.EntityNotFound? || a.EntityIdAlreadyExist?) && (b.EntityNotFound? || b.EntityIdAlreadyExist?)
             ==> a.entityType == b.entityType
    ensures Message(a) != Message(b)
  {
    if (a.EntityNotFound? || a.EntityIdAlreadyExist?) && (b.EntityNotFound? || b.EntityIdAlreadyExist?) {
      if a.EntityNotFound? {
        NotFoundMarkers(a.id, a.entityType);
        AlreadyExistsMarkers(b.id, b.entityType);
      } else {
        AlreadyExistsMarkers(a.id, a.entityType);
        NotFoundMarkers(b.id, b.entityType);
      }
    } else {
      KindMarker(a);
      KindMarker(b);
    }
  }
}
