/** The errors a leak test can end with, and the outcome of a check. */
module Errors {
  import opened RunReport

  /** `UnclosedResourceError` and its five subclasses. */
  datatype ErrorKind =
    | UnclosedResource
    | UnclosedFd
    | UnclosedHandle
    | UnclosedHeapCreate
    | UnclosedNativeThread
    | UnclosedPythonThread

  /** Each class's `resource_name`. */
  function ResourceName(kind: ErrorKind): string {
    match kind
    case UnclosedResource => "resource"
    case UnclosedFd => "file descriptor"
    case UnclosedHandle => "handle"
    case UnclosedHeapCreate => "HeapCreate() call"
    case UnclosedNativeThread => "native C thread"
    case UnclosedPythonThread => "Python thread"
  }

  /** An unclosed-resource error: the count and function name it stores and
      the resource noun its message uses ("detected <count> unclosed <noun>
      after calling <fun_name> 1 time"). */
  datatype UnclosedResourceError = UnclosedResourceError(
    kind: ErrorKind,
    count: int,
    funName: string,
    noun: string)

  /** `UnclosedResourceError.__init__(count, fun_name)` of class `kind`. */
  function NewUnclosedResourceError(kind: ErrorKind, count: int, funName: string): (e: UnclosedResourceError)
    ensures e.kind == kind && e.count == count && e.funName == funName
    ensures e.noun == ResourceName(kind) + "s" <==> count > 1
    ensures e.noun == ResourceName(kind) <==> count <= 1
  {
    var name := ResourceName(kind);
    UnclosedResourceError(kind, count, funName, name + (if count > 1 then "s" else ""))
  }

  /** How a check, or a whole `execute`, ends. */
  datatype Outcome =
    | Ok
      // ValueError raised by `execute` for a parameter out of range
    | InvalidArgument(param: string, got: int)
      // ValueError(what) raised by `_check_oneshot` for a counter it cannot map
    | UnknownCounter(key: string)
      // KeyError from `after[what]` when the second snapshot lacks a counter
    | MissingCounter(key: string)
    | Unclosed(error: UnclosedResourceError)
      // MemoryLeakError: "memory kept increasing after <retries> runs" and one line per round that grew
    | MemoryLeak(retries: int, lines: seq<RunLine>)
}
