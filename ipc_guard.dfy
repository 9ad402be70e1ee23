/** The origin check in front of IPC handlers (src/electron/util.ts). The frame's URL
    string comes with the host the URL parser finds in it (`None` when
    `new URL(frame.url)` throws), and the expected origin is the file URL of the
    bundled UI. A handler is a function of the payload; `Success` stands for the
    handler's value being returned and `Failure` for the exception that escapes. */
module IpcGuard {
  import opened Wrappers

  /** The dev server's origin. */
  const DevHost := "localhost:5123"

  datatype Frame = Frame(url: string, host: Option<string>)

  datatype GuardError =
    | InvalidUrl       // the `TypeError` of `new URL` on a malformed URL, in dev mode only
    | MaliciousEvent   // `new Error('Malicious event')`

  function Message(e: GuardError): string {
    match e
    case InvalidUrl => "Invalid URL"
    case MaliciousEvent => "Malicious event"
  }

  /** `validateEventFrame`. The host is parsed only in dev mode (the `&&`
      short-circuits); there a frame served by the dev server passes whatever its
      URL, and a URL the parser rejects throws. Every other frame passes iff its URL
      is the expected one, character for character. */
  function ValidateEventFrame(isDev: bool, frame: Frame, expected: string): (r: Result<(), GuardError>)
    ensures r.Success? <==> (isDev && frame.host == Some(DevHost)) || ((!isDev || frame.host.Some?) && frame.url == expected)
    ensures r == Failure(InvalidUrl) <==> isDev && frame.host.None?
    ensures !isDev ==> (r.Success? <==> frame.url == expected)
  {
    if isDev && frame.host.None? then Failure(InvalidUrl)
    else if isDev && frame.host.value == DevHost then Success(())
    else if frame.url != expected then Failure(MaliciousEvent)
    else Success(())
  }

  /** In production the host plays no part: a frame claiming the dev server's host
      is judged by its URL only. */
  lemma ProductionIgnoresHost(url: string, host1: Option<string>, host2: Option<string>, expected: string)
    ensures ValidateEventFrame(false, Frame(url, host1), expected) == ValidateEventFrame(false, Frame(url, host2), expected)
    ensures url != expected ==> ValidateEventFrame(false, Frame(url, Some(DevHost)), expected) == Failure(MaliciousEvent)
  {
  }

  /** Rejection of a parsed frame is always the "Malicious event" error. */
  lemma RejectionIsMalicious(isDev: bool, frame: Frame, expected: string)
    requires frame.host.Some? && ValidateEventFrame(isDev, frame, expected).Failure?
    ensures Message(ValidateEventFrame(isDev, frame, expected).error) == "Malicious event"
  {
  }

  /** `ipcMainHandle`: validate, then call the handler. */
  function Handle<R>(isDev: bool, frame: Frame, expected: string, handler: () -> R): (r: Result<R, GuardError>)
    ensures r.Success? <==> ValidateEventFrame(isDev, frame, expected).Success?
    ensures r.Success? ==> r.value == handler()
    ensures r.Failure? ==> r.error == ValidateEventFrame(isDev, frame, expected).error
  {
    match ValidateEventFrame(isDev, frame, expected)
    case Success(_) => Success(handler())
    case Failure(e) => Failure(e)
  }

  /** `ipcMainOn`: validate, then pass the payload to the handler. */
  function On<P, R>(isDev: bool, frame: Frame, expected: string, handler: P -> R, payload: P): (r: Result<R, GuardError>)
    ensures r.Success? <==> ValidateEventFrame(isDev, frame, expected).Success?
    ensures r.Success? ==> r.value == handler(payload)
    ensures r.Failure? ==> r.error == ValidateEventFrame(isDev, frame, expected).error
  {
    match ValidateEventFrame(isDev, frame, expected)
    case Success(_) => Success(handler(payload))
    case Failure(e) => Failure(e)
  }

  /** Both wrappers give the handler the same verdict: `ipcMainOn` with a handler
      that ignores its payload is `ipcMainHandle`. */
  lemma OnAgreesWithHandle<P, R>(isDev: bool, frame: Frame, expected: string, handler: () -> R, payload: P)
    ensures On(isDev, frame, expected, (_: P) => handler(), payload) == Handle(isDev, frame, expected, handler)
  {
  }
}
