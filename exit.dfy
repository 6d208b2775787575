/** The exit-code classifier of exit.go: Go errors as values with a wrap chain,
    the ExitError wrapper, and the mapping from an error to a process exit code. */
module Exit {
  import opened Wrappers

  /** A Go `error` value, reduced to what the classifier and the messages observe. */
  datatype Error =
    | Plain(msg: string)                                 // errors.New, fmt.Errorf without %w: no Unwrap
    | Wrapped(msg: string, inner: Error)                 // an error whose Unwrap() returns inner
    | Exit(ee: ExitError)                                // a clino.ExitError value
    | ChildExit(exited: bool, status: int, msg: string)  // an *exec.ExitError from a child process

  /** clino.ExitError: an exit code together with the error it wraps (which may be nil). */
  datatype ExitError = ExitError(code: int, err: Option<Error>)
  {
    /** The message of an ExitError is the message of the error it wraps;
        a nil wrapped error prints as "<nil>", as `fmt.Sprintf("%v", nil)` does. */
    function Error(): (s: string)
      ensures err.Some? ==> s == Message(err.value)
      ensures err.None? ==> s == "<nil>"
      decreases this, 0
    {
      match err
      case None => "<nil>"
      case Some(e) => Message(e)
    }

    /** Unwrap gives back the wrapped error unchanged. */
    function Unwrap(): (r: Option<Error>)
      ensures r == err
    {
      err
    }
  }

  /** `err.Error()` for every kind of error. */
  function Message(e: Error): string
    decreases e, 1
  {
    match e
    case Plain(m) => m
    case Wrapped(m, _) => m
    case Exit(ee) => ee.Error()
    case ChildExit(_, _, m) => m
  }

  /** `errors.Unwrap`: the next error of the wrap chain, if any. */
  function Unwrap(e: Error): Option<Error>
  {
    match e
    case Plain(_) => None
    case Wrapped(_, inner) => Some(inner)
    case Exit(ee) => ee.Unwrap()
    case ChildExit(_, _, _) => None
  }

  /** The wrap chain that `errors.As` walks: the error itself, then each unwrapped error in turn. */
  function Chain(e: Error): (c: seq<Error>)
    ensures |c| > 0 && c[0] == e
  {
    match Unwrap(e)
    case None => [e]
    case Some(inner) => [e] + Chain(inner)
  }

  /** `errors.As(err, &ee)` with `ee` of type ExitError: the first ExitError on the chain. */
  function AsExitError(e: Error): Option<ExitError>
  {
    match e
    case Exit(ee) => Some(ee)
    case Wrapped(_, inner) => AsExitError(inner)
    case _ => None
  }

  /** `errors.As(err, &xe)` with `xe` of type *exec.ExitError: the first child-process error on the chain,
      as the pair (the process exited normally, its exit status). */
  function AsChildExit(e: Error): Option<(bool, int)>
  {
    match e
    case ChildExit(exited, status, _) => Some((exited, status))
    case Wrapped(_, inner) => AsChildExit(inner)
    case Exit(ee) => if ee.err.Some? then AsChildExit(ee.err.value) else None
    case Plain(_) => None
  }

  /** ExitCode: 0 for nil, the code of an ExitError found on the chain, the exit status of a
      child process that exited normally, and 1 for everything else. */
  function ExitCode(err: Option<Error>): (code: int)
    ensures err.None? ==> code == 0
  {
    match err
    case None => 0
    case Some(e) =>
      match AsExitError(e)
      case Some(ee) => ee.code
      case None =>
        match AsChildExit(e)
        case Some((exited, status)) => if exited then status else 1
        case None => 1
  }

  /** The first ExitError on the chain is the one `errors.As` finds, and there is none exactly
      when no element of the chain is an ExitError. */
  lemma {:induction false} AsExitErrorIsFirstOnChain(e: Error)
    ensures AsExitError(e).None? <==> forall i :: 0 <= i < |Chain(e)| ==> !Chain(e)[i].Exit?
    ensures AsExitError(e).Some? ==>
      exists i :: 0 <= i < |Chain(e)| && Chain(e)[i] == Exit(AsExitError(e).value) &&
        forall j :: 0 <= j < i ==> !Chain(e)[j].Exit?
  {
    match Unwrap(e)
    case None =>
      assert Chain(e) == [e];
    case Some(inner) =>
      AsExitErrorIsFirstOnChain(inner);
      assert Chain(e) == [e] + Chain(inner);
      if !e.Exit? && AsExitError(inner).Some? {
        var i :| 0 <= i < |Chain(inner)| && Chain(inner)[i] == Exit(AsExitError(inner).value) &&
          forall j :: 0 <= j < i ==> !Chain(inner)[j].Exit?;
        assert Chain(e)[i + 1] == Chain(inner)[i];
      }
  }

  /** A child-process error can only stand at the end of a chain, and `errors.As` finds it there. */
  lemma {:induction false} AsChildExitIsLastOnChain(e: Error)
    ensures AsChildExit(e).Some? <==> Chain(e)[|Chain(e)| - 1].ChildExit?
    ensures AsChildExit(e).Some? ==>
      var last := Chain(e)[|Chain(e)| - 1];
      AsChildExit(e).value == (last.exited, last.status)
  {
    match Unwrap(e)
    case None =>
      assert Chain(e) == [e];
    case Some(inner) =>
      AsChildExitIsLastOnChain(inner);
      assert Chain(e) == [e] + Chain(inner);
  }

  /** An ExitError anywhere on the chain decides the exit code: the first one's Code is returned,
      whatever child-process error stands further down the chain. */
  lemma ExitErrorOnChainWins(e: Error, i: nat)
    requires i < |Chain(e)| && Chain(e)[i].Exit?
    requires forall j :: 0 <= j < i ==> !Chain(e)[j].Exit?
    ensures ExitCode(Some(e)) == Chain(e)[i].ee.code
  {
    AsExitErrorIsFirstOnChain(e);
    var k :| 0 <= k < |Chain(e)| && Chain(e)[k] == Exit(AsExitError(e).value) &&
      forall j :: 0 <= j < k ==> !Chain(e)[j].Exit?;
    assert k == i;
  }

  /** Without an ExitError on the chain, a child process that exited normally gives its exit status,
      and every other error (a child process that did not exit normally included) gives 1. */
  lemma ExitCodeWithoutExitError(e: Error)
    requires forall i :: 0 <= i < |Chain(e)| ==> !Chain(e)[i].Exit?
    ensures var last := Chain(e)[|Chain(e)| - 1];
      ExitCode(Some(e)) == if last.ChildExit? && last.exited then last.status else 1
  {
    AsExitErrorIsFirstOnChain(e);
    AsChildExitIsLastOnChain(e);
  }

  /** However many ExitErrors wrap an error, its message shows through unchanged. */
  function WrapInExitErrors(codes: seq<int>, e: Error): Error
  {
    if codes == [] then e else Exit(ExitError(codes[0], Some(WrapInExitErrors(codes[1..], e))))
  }

  lemma {:induction false} ExitErrorsKeepMessage(codes: seq<int>, e: Error)
    ensures Message(WrapInExitErrors(codes, e)) == Message(e)
    ensures |codes| > 0 ==> ExitCode(Some(WrapInExitErrors(codes, e))) == codes[0]
  {
    if codes != [] {
      ExitErrorsKeepMessage(codes[1..], e);
    }
  }
}
