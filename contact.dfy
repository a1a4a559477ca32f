/** The contact form (routes/contact.js): `POST /` checks that the four
    fields are present and answers; nothing is stored or sent. */
module Contact {
  import opened Wrappers
  import opened Js

  /** The fields the route destructures from `req.body`. */
  datatype ContactBody = ContactBody(name: Value, email: Value, subject: Value, message: Value)

  /** The JSON written back with its status. */
  datatype ContactReply = ContactReply(status: int, ok: bool, error: Option<string>)

  const MissingFieldsError := "Missing fields"

  /** `POST /`: 400 `{ok: false, error: "Missing fields"}` when any field is
      falsy, otherwise 200 `{ok: true}`. */
  function Submit(body: ContactBody): ContactReply {
    if !Truthy(body.name) || !Truthy(body.email) || !Truthy(body.subject) || !Truthy(body.message) then
      ContactReply(400, false, Some(MissingFieldsError))
    else
      ContactReply(200, true, None)
  }

  /** The names of the fields the form lacks, in the order the route
      destructures them. */
  function MissingNames(body: ContactBody): (r: seq<string>)
    ensures |r| <= 4
  {
    (if Truthy(body.name) then [] else ["name"])
    + (if Truthy(body.email) then [] else ["email"])
    + (if Truthy(body.subject) then [] else ["subject"])
    + (if Truthy(body.message) then [] else ["message"])
  }

  /** The route accepts exactly the forms that lack no field, and its two
      answers are the only ones it gives. */
  lemma SubmitSpec(body: ContactBody)
    ensures Submit(body).status == 200 <==> MissingNames(body) == []
    ensures Submit(body).status == 200 ==> Submit(body) == ContactReply(200, true, None)
    ensures Submit(body).status != 200 ==> Submit(body) == ContactReply(400, false, Some("Missing fields"))
  {
  }

  /** Because the test is a falsy test, a field sent as the empty string
      (or `0`, `false`, `null`) is refused like one left out. */
  lemma EmptyFieldRefused(body: ContactBody)
    requires body.name == Str("") || body.email == Str("") || body.subject == Str("") || body.message == Str("")
    ensures Submit(body).status == 400 && !Submit(body).ok
    ensures |MissingNames(body)| >= 1
  {
  }
}
