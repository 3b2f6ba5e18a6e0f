/** A fetched HTTP response, as the fetch code sees it after `await fetch`
    and `await res.json()`, given to the model as a value. Every endpoint
    answers with the envelope `{ ok, data }`. */
module Http {
  import opened Wrappers

  /** The parsed body. `NotJson` makes `res.json()` throw. A JSON `null`,
      or an object without a truthy `ok`, reads as `Json(false, _)`;
      `data` is `None` when it is absent or falsy. */
  datatype Body<T> = NotJson | Json(ok: bool, data: Option<T>)

  /** `NetworkError`: `fetch` itself rejects. Otherwise the response's
      `res.ok` (a 2xx status) and its body. */
  datatype Reply<T> = NetworkError | Response(statusOk: bool, body: Body<T>)

  /** `data` of the resolve endpoint: `{ url }`, where `url` may be absent. */
  datatype UrlData = UrlData(url: Option<string>)

  /** Reading this reply throws: the request fails, or a 2xx body is not
      JSON (a non-2xx body is never parsed). */
  predicate Throws<T>(reply: Reply<T>) {
    reply.NetworkError? || (reply.statusOk && reply.body.NotJson?)
  }

  /** A 2xx reply whose envelope has a truthy `ok` and present `data`. */
  predicate ValidEnvelope<T>(reply: Reply<T>) {
    reply.Response? && reply.statusOk && reply.body.Json? && reply.body.ok && reply.body.data.Some?
  }

  /** A valid envelope whose `data.url` is the non-empty (truthy) `u`. */
  predicate CarriesUrl(reply: Reply<UrlData>, u: string) {
    ValidEnvelope(reply) && reply.body.data.value.url == Some(u) && u != ""
  }
}
