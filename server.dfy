/** The request-level rules of server.js: the CORS origin check, the global
    error handler and the handlers for requests no route matched. */
module Server {
  import opened Common
  import ProductRoutes

  const AllowedOrigins: seq<string> := ["http://localhost:3000", "https://green-planet-mern.netlify.app"]

  /** The message of the error the origin check raises. */
  const CorsMessage: string := "Not allowed by CORS"

  datatype CorsDecision = Allow | Reject(message: string)

  /** `corsOptions.origin`: requests without an origin (or with an empty
      one) and requests from a listed origin pass; any other origin gets an
      error. */
  function CheckOrigin(origin: Option<string>): (d: CorsDecision)
    ensures d.Allow? <==> !Truthy(origin) || origin.value in AllowedOrigins
    ensures d.Reject? ==> d.message == CorsMessage
  {
    if !Truthy(origin) then Allow
    else if origin.value in AllowedOrigins then Allow
    else Reject(CorsMessage)
  }

  /** `${req.headers.origin}` in a template string. */
  function OriginText(origin: Option<string>): string
  {
    if origin.Some? then origin.value else "undefined"
  }

  /** A JSON error answer; `allowedOrigins` only in the CORS case. */
  datatype ErrorReply = ErrorReply(status: int, error: string, message: string, allowedOrigins: Option<seq<string>>)

  /** The error-handling middleware, given the error's message. */
  function HandleError(message: string, origin: Option<string>, isProduction: bool): (r: ErrorReply)
    ensures r.status == 403 <==> message == CorsMessage
    ensures r.status == 403 ==>
              && r.error == "CORS Error"
              && r.message == "Origin " + OriginText(origin) + " is not allowed"
              && r.allowedOrigins == Some(AllowedOrigins)
    ensures r.status != 403 ==>
              && r.status == 500 && r.error == "Internal Server Error" && r.allowedOrigins.None?
              && r.message == (if isProduction then "Something went wrong" else message)
  {
    if message == CorsMessage then
      ErrorReply(403, "CORS Error", "Origin " + OriginText(origin) + " is not allowed", Some(AllowedOrigins))
    else
      ErrorReply(500, "Internal Server Error", if isProduction then "Something went wrong" else message, None)
  }

  /** A rejected origin ends in a 403 that names the origin and lists the
      allowed ones; an allowed origin never produces that answer. */
  lemma RejectedOriginIs403(origin: Option<string>, isProduction: bool)
    ensures CheckOrigin(origin).Reject? ==>
              var r := HandleError(CheckOrigin(origin).message, origin, isProduction);
              r.status == 403 && r.message == "Origin " + origin.value + " is not allowed"
              && r.allowedOrigins == Some(AllowedOrigins)
    ensures CheckOrigin(origin).Allow? <==> !Truthy(origin) || origin.value in AllowedOrigins
  {
  }

  /** A file the product upload filter rejects ends in a 500 that names the
      reason, except in production. */
  lemma RejectedUploadIs500(origin: Option<string>, isProduction: bool)
    ensures var r := HandleError(ProductRoutes.UploadRejectedMessage, origin, isProduction);
            r.status == 500
            && r.message == (if isProduction then "Something went wrong" else "Only image files are allowed!")
  {
    assert ProductRoutes.UploadRejectedMessage != CorsMessage by {
      assert ProductRoutes.UploadRejectedMessage[0] != CorsMessage[0];
    }
  }

  /** What happens to a request no API route answered. */
  datatype Fallback =
    | Preflight                                 // the CORS preflight answer, status 200
    | ServeIndex                                // the frontend's index.html
    | EndpointNotFound(path: string, verb: string)  // 404 {error: 'Endpoint not found', path, method}

  /** A request from an allowed origin that no API route answers. The CORS
      middleware, mounted before every route, ends each OPTIONS request
      itself with `optionsSuccessStatus`. In production every other
      unmatched GET serves the frontend, and so does every unmatched HEAD,
      which Express routes to a GET handler when no HEAD handler is
      registered; every remaining request gets a 404 echoing its URL and
      HTTP method (`verb`). */
  function Unmatched(verb: string, originalUrl: string, isProduction: bool): (f: Fallback)
    ensures f.Preflight? <==> verb == "OPTIONS"
    ensures f.ServeIndex? <==> isProduction && (verb == "GET" || verb == "HEAD")
    ensures f.EndpointNotFound? ==> f.path == originalUrl && f.verb == verb
  {
    if verb == "OPTIONS" then Preflight
    else if isProduction && (verb == "GET" || verb == "HEAD") then ServeIndex
    else EndpointNotFound(originalUrl, verb)
  }

  /** The status each fallback answers with. */
  function FallbackStatus(f: Fallback): (status: int)
    ensures status == 404 <==> f.EndpointNotFound?
    ensures status == 200 <==> !f.EndpointNotFound?
  {
    if f.EndpointNotFound? then 404 else 200
  }
}
