/**
 * The exceptions the handlers raise. Each constructor names the Ruby class
 * it stands for; `IsArgumentError` and `IsRuntimeError` follow the classes'
 * superclasses.
 */
module Errors {
  import opened Wrappers
  import opened Values

  /**
   * A class given as an edge's `raise` option; `belowRuntimeError` says
   * whether `klass < RuntimeError` holds (a proper subclass).
   */
  datatype ErrorClass = ErrorClass(name: string, belowRuntimeError: bool)

  datatype Error =
      /** `Errors::Case::InvalidClass`: the argument is not a case record. */
    | CaseInvalidClass
      /** `Errors::Case::BadType`: the case belongs to another module. */
    | CaseBadType(caseType: string)
      /** `Errors::Params::InvalidClass`: `params` is not a Hash. */
    | ParamsInvalidClass
      /** `Errors::Edge::Absent` of the state-driven handler. */
    | EdgeAbsent(from: Value, to: string)
      /** The edge's own `raise` class, raised when its guard returns false. */
    | GuardRejected(errorClass: ErrorClass)
      /** `Errors::Message::BadType`: the argument is not a STOMP message. */
    | MessageBadType
      /** `Oj::ParseError`: the message body is not JSON. */
    | ParseError
      /** `JSON::Schema::ValidationError`: a structure fails its schema. */
    | ValidationError
      /** `Errors::Request::NotFound`: no request carries the reply's id. */
    | RequestNotFound(messageId: string)
      /** `Errors::Control::Absent`: no edge list for (state, signal). */
    | ControlAbsent(from: Value, signal: string)
      /** `Errors::Edge::Absent` of the message-driven handler. */
    | NoEdgeSelected(from: Value, signal: string)
      /** `NoMethodError`: a method called on nil. */
    | NoMethod(receiver: string)
      /** An error of the file storage's HTTP request. */
    | FileFetchFailed(fsId: string)

  predicate IsArgumentError(e: Error)
  {
    e.CaseInvalidClass? || e.ParamsInvalidClass? || e.MessageBadType?
  }

  predicate IsRuntimeError(e: Error)
  {
    e.CaseBadType? || e.EdgeAbsent? || e.RequestNotFound? || e.ControlAbsent?
    || e.NoEdgeSelected? || (e.GuardRejected? && e.errorClass.belowRuntimeError)
  }
}
