/** `POST /api/results`: the four required fields are checked for
    truthiness before anything is stored. Whether `save()` throws (a
    database or schema-cast failure) is the parameter `saveThrows`. */
module ResultsRoute {
  import opened Js

  /** The fields of the request body the handler destructures. */
  datatype Body = Body(name: Value, responses: Value, test: Value, completionDate: Value)

  /** A `Result` document. */
  datatype Stored = Stored(name: Value, responses: Value, test: Value, completionDate: Value)

  /** The reply status and message, and the document persisted, if any. */
  datatype Outcome = Outcome(status: int, message: string, saved: Option<Stored>)

  const Required := "Name, responses, test, and completionDate are required"
  const SavedOk := "Results saved successfully"
  const ServerError := "Server error"

  predicate Complete(body: Body) {
    Truthy(body.name) && Truthy(body.responses) && Truthy(body.test) && Truthy(body.completionDate)
  }

  /** 400 exactly when a field is missing or falsy, and then nothing is
      stored; otherwise the document with exactly the four fields is saved
      and the reply is 201, or 500 when saving throws. */
  function PostResults(body: Body, saveThrows: bool): (o: Outcome)
    ensures o.status == 400 <==> !Complete(body)
    ensures o.status == 400 ==> o.message == Required && o.saved.None?
    ensures o.status == 201 <==> Complete(body) && !saveThrows
    ensures o.status == 500 <==> Complete(body) && saveThrows
    ensures o.status == 500 ==> o.message == ServerError && o.saved.None?
    ensures o.status == 201 ==> o.message == SavedOk
    ensures o.status == 201 ==> o.saved == Some(Stored(body.name, body.responses, body.test, body.completionDate))
  {
    if !Complete(body) then Outcome(400, Required, None)
    else if saveThrows then Outcome(500, ServerError, None)
    else Outcome(201, SavedOk, Some(Stored(body.name, body.responses, body.test, body.completionDate)))
  }

  /** An empty response list passes the check (an array is always truthy),
      while an empty name does not. */
  lemma EmptyResponsesAccepted(name: string, test: string, date: string)
    requires name != "" && test != "" && date != ""
    ensures PostResults(Body(Str(name), Arr([]), Str(test), Str(date)), false).status == 201
    ensures PostResults(Body(Str(""), Arr([]), Str(test), Str(date)), false).status == 400
    ensures PostResults(Body(Str(name), Undefined, Str(test), Str(date)), false).status == 400
  {
  }
}
