/** The global error-handling middleware: the translation of a thrown error into a reply. */
module ErrorHandler {
  import opened Js
  import opened Http

  /** What the middleware sends: the HTTP status and the JSON body. */
  datatype ErrorResponse = ErrorResponse(status: int, body: ErrorBody)

  /** `field.charAt(0).toUpperCase() + field.slice(1)`. */
  function Capitalize(field: string): (r: string)
    ensures |r| == |field|
    ensures field != [] ==> r[0] == UpperChar(field[0]) && r[1..] == field[1..]
  {
    if field == [] then [] else [UpperChar(field[0])] + field[1..]
  }

  /** `a || b` on an optional string. */
  function OrText(a: Option<string>, b: string): string {
    if a.Some? && a.value != "" then a.value else b
  }

  /** The response for a thrown error; `None` when the middleware itself throws, which happens
      for a duplicate-key error without any key (`Object.keys(...)[0]` is `undefined`). The four
      cases are tried in the order validation error, duplicate key, cast error, anything else. */
  function Handle(e: Err): (r: Option<ErrorResponse>)
    ensures r.Some? ==> r.value.status == r.value.body.statusCode
    ensures e.name == Some("ValidationError") ==>
      r == Some(ErrorResponse(400, ErrorBody(400, Lines(e.errors), "Validation Error")))
    ensures e.name != Some("ValidationError") && e.code == Some(11000) ==>
      if e.keyPattern == [] then r.None?
      else (r.Some? && r.value.status == 409 && r.value.body.error == "Duplicate Entry"
            && r.value.body.message == Text(Capitalize(e.keyPattern[0]) + " already exists"))
    ensures e.name != Some("ValidationError") && e.code != Some(11000) && e.name == Some("CastError") ==>
      r == Some(ErrorResponse(400, ErrorBody(400, Text("Invalid ID format"), "Bad Request")))
    ensures e.name != Some("ValidationError") && e.code != Some(11000) && e.name != Some("CastError") ==>
      r.Some?
      && r.value.status == (if e.statusCode.Some? && e.statusCode.value != 0 then e.statusCode.value else 500)
      && r.value.body.message == Text(OrText(e.message, "Internal Server Error"))
      && r.value.body.error == OrText(e.name, "Error")
  {
    if e.name == Some("ValidationError") then
      Some(ErrorResponse(400, ErrorBody(400, Lines(e.errors), "Validation Error")))
    else if e.code == Some(11000) then
      if e.keyPattern == [] then None
      else
        var field := e.keyPattern[0];
        Some(ErrorResponse(409, ErrorBody(409, Text(Capitalize(field) + " already exists"), "Duplicate Entry")))
    else if e.name == Some("CastError") then
      Some(ErrorResponse(400, ErrorBody(400, Text("Invalid ID format"), "Bad Request")))
    else
      var status := if e.statusCode.Some? && e.statusCode.value != 0 then e.statusCode.value else 500;
      Some(ErrorResponse(status, ErrorBody(status, Text(OrText(e.message, "Internal Server Error")), OrText(e.name, "Error"))))
  }

  /** The duplicate-key reply names the index key with its first letter in upper case:
      a violation of the unique `email` index reads "Email already exists". */
  lemma DuplicateEmailMessage()
    ensures Handle(DuplicateKey("email")) ==
      Some(ErrorResponse(409, ErrorBody(409, Text("Email already exists"), "Duplicate Entry")))
  {
    assert UpperChar('e') == 'E';
    assert Capitalize("email") == "Email";
    assert "Email" + " already exists" == "Email already exists";
  }
}
