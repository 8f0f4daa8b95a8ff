/** The results route: one module-level variable holding the last body posted to it.
    `POST` overwrites it with the parsed request body, whatever that is; `GET` answers 404
    while it is falsy and returns it otherwise. */
module ResultsRoute {
  import opened Wrappers

  /** A JSON value, as `req.json()` produces it. */
  datatype Json =
    | JNull
    | JBool(b: bool)
    | JNumber(n: real)
    | JString(s: string)
    | JArray(items: seq<Json>)
    | JObject(members: seq<(string, Json)>)

  /** JavaScript truthiness of a JSON value: `null`, `false`, `0` and `""` are falsy; arrays
      and objects, even empty ones, are truthy. The same notion over optional strings is
      JsString.Truthy. */
  predicate Truthy(v: Json) {
    match v
    case JNull => false
    case JBool(b) => b
    case JNumber(n) => n != 0.0
    case JString(s) => s != ""
    case JArray(_) => true
    case JObject(_) => true
  }

  datatype Reply = Reply(status: int, body: Json)

  const Stored := Reply(200, JObject([("success", JBool(true))]))
  const StoreFailed := Reply(500, JObject([("error", JString("Failed to store feedback"))]))
  const NotFound := Reply(404, JObject([("error", JString("No feedback available"))]))

  /** The 200 reply of `GET` carrying a stored value. */
  function Found(v: Json): Reply {
    Reply(200, JObject([("success", JBool(true)), ("feedback", v)]))
  }

  class FeedbackSlot {
    /** The route's own `lastFeedback`, initially `null`. */
    var lastFeedback: Json

    constructor ()
      ensures lastFeedback == JNull
    {
      lastFeedback := JNull;
    }

    /** `POST`: `body` is what `req.json()` resolved to, or None when it rejected (the body
        is not JSON); the slot is assigned only after a successful parse. */
    method Post(body: Option<Json>) returns (reply: Reply)
      modifies this
      ensures body.Some? ==> lastFeedback == body.value && reply == Stored
      ensures body.None? ==> lastFeedback == old(lastFeedback) && reply == StoreFailed
    {
      if body.None? {
        return StoreFailed;
      }
      lastFeedback := body.value;
      reply := Stored;
    }

    /** `GET`: 404 while the slot is falsy, otherwise the stored value. */
    method Get() returns (reply: Reply)
      ensures reply.status == 200 <==> Truthy(lastFeedback)
      ensures Truthy(lastFeedback) ==> reply == Found(lastFeedback)
      ensures !Truthy(lastFeedback) ==> reply == NotFound
    {
      if !Truthy(lastFeedback) {
        return NotFound;
      }
      reply := Found(lastFeedback);
    }
  }

  /** A `GET` before any `POST` finds nothing. */
  method GetBeforePost() returns (reply: Reply)
    ensures reply == NotFound
  {
    var slot := new FeedbackSlot();
    reply := slot.Get();
  }

  /** After a `POST` of a truthy body, `GET` returns that body. */
  method PostThenGet(body: Json) returns (posted: Reply, got: Reply)
    requires Truthy(body)
    ensures posted == Stored && got == Found(body)
  {
    var slot := new FeedbackSlot();
    posted := slot.Post(Some(body));
    got := slot.Get();
  }

  /** After a `POST` of a falsy body (`null`, `false`, `0`, `""`), `GET` answers 404 again,
      whatever was stored before. */
  method FalsyPostHidesEarlier(earlier: Json, body: Json) returns (got: Reply)
    requires !Truthy(body)
    ensures got == NotFound
  {
    var slot := new FeedbackSlot();
    var _ := slot.Post(Some(earlier));
    var _ := slot.Post(Some(body));
    got := slot.Get();
  }

  /** The last successful `POST` wins. */
  method LastWriteWins(first: Json, second: Json) returns (got: Reply)
    requires Truthy(second)
    ensures got == Found(second)
  {
    var slot := new FeedbackSlot();
    var _ := slot.Post(Some(first));
    var _ := slot.Post(Some(second));
    got := slot.Get();
  }

  /** A `POST` whose body does not parse answers 500 and keeps what was stored. */
  method FailedPostKeepsSlot(body: Json) returns (failed: Reply, got: Reply)
    requires Truthy(body)
    ensures failed == StoreFailed && got == Found(body)
  {
    var slot := new FeedbackSlot();
    var _ := slot.Post(Some(body));
    failed := slot.Post(None);
    got := slot.Get();
  }

  /** `GET` changes nothing: asking twice gives the same reply. */
  method GetTwice(body: Option<Json>) returns (first: Reply, second: Reply)
    ensures first == second
    ensures body.Some? && Truthy(body.value) ==> first == Found(body.value)
  {
    var slot := new FeedbackSlot();
    var _ := slot.Post(body);
    first := slot.Get();
    second := slot.Get();
  }
}
