/** Reflective calls into a library that is loaded at run time, and the
    catch block every bound call of the Hadoop FileSystem wrapper (and most
    of the KfsAccess wrapper) shares: a failure whose cause is an
    IOException is rethrown as that cause, anything else is wrapped in a
    RuntimeException. */
module Reflection {
  import opened Wrappers

  /** The families of Java exceptions the translation tells apart: the
      IOException subclasses (AuthException and FileNotFoundException
      among them), unchecked exceptions, and other checked ones
      (InvocationTargetException, IllegalAccessException, ...). */
  datatype Kind =
    | IOExceptionKind(name: string)
    | Unchecked(name: string)
    | Checked(name: string)

  /** A Java exception: its class and its cause (null when absent). */
  datatype Throwable = Throwable(kind: Kind, cause: Option<Throwable>)

  /** The outcome of Method.invoke: a returned value or a thrown failure. */
  datatype Invocation<+T> = Returned(value: T) | Threw(failure: Throwable)

  const RUNTIME_EXCEPTION := "java.lang.RuntimeException"
  const NULL_POINTER_EXCEPTION := "java.lang.NullPointerException"

  predicate IsIOException(t: Throwable) {
    t.kind.IOExceptionKind?
  }

  /** `new RuntimeException(e)`. */
  function WrapInRuntime(e: Throwable): (t: Throwable)
    ensures !IsIOException(t) && t.kind.Unchecked? && t.cause == Some(e)
  {
    Throwable(Unchecked(RUNTIME_EXCEPTION), Some(e))
  }

  /** The shared catch block: rethrow an IOException cause unchanged,
      otherwise wrap the failure itself. */
  function Translate(e: Throwable): (t: Throwable)
    ensures IsIOException(t) <==> e.cause.Some? && IsIOException(e.cause.value)
    ensures IsIOException(t) ==> t == e.cause.value
    ensures !IsIOException(t) ==> t == WrapInRuntime(e)
  {
    if e.cause.Some? && IsIOException(e.cause.value) then e.cause.value else WrapInRuntime(e)
  }

  /** A method declared `throws IOException` never lets a checked
      exception other than an IOException escape: what the catch block
      throws is an IOException or unchecked. */
  lemma TranslateOnlyIOOrUnchecked(e: Throwable)
    ensures IsIOException(Translate(e)) || Translate(e).kind.Unchecked?
  {
  }

  /** Nothing is lost: the thrown exception is either the original
      failure's own cause or carries the original failure as its cause. */
  lemma TranslateKeepsFailure(e: Throwable)
    ensures (e.cause.Some? && Translate(e) == e.cause.value) || Translate(e).cause == Some(e)
  {
  }

  /** An IOException thrown directly (with no cause) inside the try block
      is not recognised by the catch block: it comes out wrapped. */
  lemma TranslateWrapsCauselessIOException(name: string)
    ensures var e := Throwable(IOExceptionKind(name), None);
      Translate(e) == WrapInRuntime(e) && !IsIOException(Translate(e))
  {
  }

  /** A bound call: the invocation's value, or its translated failure. */
  function Call<T>(inv: Invocation<T>): (r: Result<T, Throwable>)
    ensures r.Ok? <==> inv.Returned?
    ensures r.Ok? ==> r.value == inv.value
    ensures r.Err? ==> r.error == Translate(inv.failure)
  {
    match inv
    case Returned(v) => Ok(v)
    case Threw(e) => Err(Translate(e))
  }

  /** `(Boolean) invoke(...)` used as a boolean: a null answer is
      unboxed inside the try block, so its NullPointerException is caught
      and, having no cause, wrapped in a RuntimeException. */
  function CallBoolean(inv: Invocation<Option<bool>>): (r: Result<bool, Throwable>)
    ensures inv.Returned? && inv.value.Some? ==> r == Ok(inv.value.value)
    ensures inv == Returned(None) ==> r == Err(WrapInRuntime(Throwable(Unchecked(NULL_POINTER_EXCEPTION), None)))
    ensures inv.Threw? ==> r == Err(Translate(inv.failure))
  {
    match inv
    case Returned(Some(b)) => Ok(b)
    case Returned(None) => Err(Translate(Throwable(Unchecked(NULL_POINTER_EXCEPTION), None)))
    case Threw(e) => Err(Translate(e))
  }

  /** The boolean pass-through is the plain bound call whenever the
      library answers with a boolean or throws. */
  lemma CallBooleanAgreesWithCall(inv: Invocation<Option<bool>>)
    requires inv.Threw? || inv.value.Some?
    ensures CallBoolean(inv).Ok? <==> Call(inv).Ok?
    ensures CallBoolean(inv).Ok? ==> Some(CallBoolean(inv).value) == Call(inv).value
    ensures CallBoolean(inv).Err? ==> CallBoolean(inv).error == Call(inv).error
  {
  }
}
