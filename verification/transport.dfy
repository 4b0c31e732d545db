/** The outcome of one request through the shared HTTP client, and the three
    error policies the client wrappers apply to it. The HTTP client itself is
    not modelled: a request is reduced to the outcome it settled with. */
module Transport {
  import opened Values

  /** Why a request failed, in the order the wrappers test for it:
      the server answered outside 2xx (its body may carry a `detail` string),
      the request went out but nothing came back, or the request could not
      be set up at all. */
  datatype Failure =
    | HttpError(detail: Option<string>)
    | NoResponse
    | SetupError(message: string)

  /** How a request settled. */
  datatype Outcome<+T> = Ok(data: T) | Failed(failure: Failure)

  /** What a wrapper's caller observes: a value, a freshly raised error with
      a message, or the original failure rethrown unchanged. */
  datatype Completion<+T> =
    | Returned(value: T)
    | Raised(message: string)
    | Propagated(original: Failure)

  /** The error policy of one wrapper.
      - `Propagate`: log and rethrow the caught error.
      - `Substitute(default)`: log and return `default` instead.
      - `Translate(fallback, unanswered, rethrowSetup)`: an HTTP error raises
        its `detail` or else `fallback`; no response raises `unanswered`; a
        setup failure is rethrown when `rethrowSetup`, otherwise it is
        reported as `unanswered` too. */
  datatype Policy<+T> =
    | Propagate
    | Substitute(default: T)
    | Translate(fallback: string, unanswered: string, rethrowSetup: bool)

  /** Apply a wrapper's policy to the outcome of its request. */
  function Handle<T>(p: Policy<T>, o: Outcome<T>): (r: Completion<T>)
    // success is always passed through untouched
    ensures o.Ok? ==> r == Returned(o.data)
    // a rethrown failure is the very failure that occurred
    ensures r.Propagated? ==> o == Failed(r.original)
    ensures p.Propagate? ==> (r.Propagated? <==> o.Failed?)
    ensures p.Substitute? ==> r.Returned? && (o.Failed? ==> r.value == p.default)
    ensures p.Translate? && o.Failed? ==>
              (r.Propagated? <==> p.rethrowSetup && o.failure.SetupError?)
    ensures p.Translate? && o.Failed? && o.failure.HttpError? ==>
              r == Raised(OrElse(o.failure.detail, p.fallback))
    ensures p.Translate? && o == Failed(NoResponse) ==> r == Raised(p.unanswered)
    ensures p.Translate? && o.Failed? && o.failure.SetupError? && !p.rethrowSetup ==>
              r == Raised(p.unanswered)
  {
    match o
    case Ok(data) => Returned(data)
    case Failed(f) =>
      match p
      case Propagate => Propagated(f)
      case Substitute(d) => Returned(d)
      case Translate(fallback, unanswered, rethrowSetup) =>
        match f
        case HttpError(detail) => Raised(OrElse(detail, fallback))
        case NoResponse => Raised(unanswered)
        case SetupError(_) => if rethrowSetup then Propagated(f) else Raised(unanswered)
  }

  /** A policy never lets a failure escape exactly when it substitutes a
      default. */
  lemma NeverThrowsIffSubstitute<T>(p: Policy<T>)
    ensures (forall f: Failure :: Handle(p, Failed(f)).Returned?) <==> p.Substitute?
  {
    if !p.Substitute? {
      assert !Handle(p, Failed(NoResponse)).Returned?;
    }
  }
}
