/** What a route hands back to the web framework: a JSON body with a status
    code, or an exception caught at the route boundary, which the code turns
    into status 500 with the exception's text. */
module Responses {
  import opened Json

  /** The exceptions the routes catch and report as status 500. Their text
      comes from Python or from the store and is not modelled. */
  datatype Fault =
    | StoreUnavailable              // the store could not be reached
    | NotIterable(typeName: string) // TypeError from `field in body`
    | NoGetMethod(typeName: string) // AttributeError from `body.get(...)`
    | IntegerTooLarge               // OverflowError from the BSON encoder
    | DuplicateKey                  // an insert under an identifier already taken
    | IdRejected                    // an `_id` value the store does not take
    | SetNeedsDocument              // `$set` given something other than an object
    | ImmutableId                   // `$set` that would change a document's `_id`

  datatype Response = Reply(status: nat, body: Value) | Crash(fault: Fault) {
    /** The HTTP status code sent to the client. */
    function Status(): nat {
      if Reply? then status else 500
    }
  }

  /** jsonify({"error": message}), status */
  function ErrorReply(status: nat, message: string): Response {
    Reply(status, Obj(map["error" := Str(message)]))
  }

  /** jsonify({"message": message}), status */
  function MessageReply(status: nat, message: string): Response {
    Reply(status, Obj(map["message" := Str(message)]))
  }
}
