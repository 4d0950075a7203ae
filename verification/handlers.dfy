/** `net/http` handlers and middleware as symbolic terms. What a handler
    does with a request is outside the model; what matters is which handler
    is bound where and how it is wrapped. */
module Handlers {


  /** The UI page the documentation route serves (openapi_ui_*.go). */
  datatype UiPage = Redoc | Swagger(title: string, docUrl: string) | Scalar(title: string, docUrl: string)

  /** An `http.Handler`. */
  datatype Handler =
    | Endpoint(name: string)                   // a handler the application supplies
    | Wrapped(middleware: string, inner: Handler)  // what a named middleware returns
    | FileServer(fs: string)                   // `http.FileServer(fs)`
    | StripPrefix(prefix: string, inner: Handler)  // `http.StripPrefix(prefix, inner)`
    | SpaRedirect(inner: Handler)              // `createSpaModeRedirect(inner)`
    | DocumentJson                             // the handler serving the encoded OpenAPI document
    | Ui(page: UiPage)                         // the documentation UI

  /** A `Use` (`func(http.Handler) http.Handler`): a middleware the
      application supplies, or the function `Chain` returns. */
  datatype Use = Named(name: string) | Chained(uses: seq<Use>)

  /** Calling a `Use` on a handler. The function `Chain(uses...)` returns
      applies the first middleware outermost. */
  function Apply(u: Use, h: Handler): Handler
    decreases u
  {
    match u
    case Named(n) => Wrapped(n, h)
    case Chained(uses) => ApplyAll(uses, h)
  }

  /** `uses[0](uses[1](…uses[n-1](h)))`. */
  function ApplyAll(uses: seq<Use>, h: Handler): Handler
    decreases uses
  {
    if |uses| == 0 then h else Apply(uses[0], ApplyAll(uses[1..], h))
  }
}
