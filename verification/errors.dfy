/** The crate's error type (`src/error.rs`) plus the one variant the startup
    code uses that the enum does not declare, and the ways an asynchronous
    startup task can stop early. */
module Errors {

  /** A foreign error value (`JsValue`); only its identity matters here. */
  type JsValue = nat

  /** `WebXrError`. `ElementNotButtonElement` and `ElementNotCanvasElement`
      wrap the offending element in the source; the element is dropped here. */
  datatype WebXrError =
    | JsError(value: JsValue)
    | NotABool
    | NotSupported
    | CanvasNotFound
    | WebGl2ContextNotFound
    | SessionError
    | NoWindow
    | NoDocument
    | ElementNotButtonElement
    | ElementNotCanvasElement   // used by `src/init.rs`, missing from the enum
    | NoBody
    | SessionRequestError(value: JsValue)

  /** How a startup step stops before its end: with an error (returned by
      `?`, or raised to the page by `unwrap_throw`), or with a panic
      (`unwrap` on an error or a missing value). */
  datatype Abort = Failed(error: WebXrError) | Panicked
}
