/** Failure-compatible wrappers shared by every module of the model.
    `Option` stands for the source's `null`/`undefined`, `Result` for the
    `{ data, error }` pairs its services return. */
module Wrappers {

  datatype Option<+T> = None | Some(value: T) {

    predicate IsFailure() {
      None?
    }

    function PropagateFailure<U>(): Option<U>
      requires None?
    {
      None
    }

    function Extract(): T
      requires Some?
    {
      value
    }

    /** The value, or `default` when absent. */
    function GetOr(default: T): T {
      match this
      case Some(v) => v
      case None => default
    }
  }

  /** A service outcome: the value, or the user-facing error message. */
  datatype Result<+T> = Ok(value: T) | Err(msg: string) {

    predicate IsFailure() {
      Err?
    }

    function PropagateFailure<U>(): Result<U>
      requires Err?
    {
      Err(msg)
    }

    function Extract(): T
      requires Ok?
    {
      value
    }
  }

  /** JavaScript `x || 0` on an optional number: absent and 0 both give 0. */
  function OrZero(x: Option<real>): real {
    x.GetOr(0.0)
  }

  /** JavaScript `x || 1` on an optional count: absent and 0 both give 1. */
  function OrOne(x: Option<int>): int {
    if x.Some? && x.value != 0 then x.value else 1
  }

  /** JavaScript `s || d` on an optional string: absent and "" both give `d`. */
  function OrElse(s: Option<string>, d: string): string {
    if s.Some? && s.value != "" then s.value else d
  }

  /** JavaScript truthiness of an optional string. */
  predicate Truthy(s: Option<string>) {
    s.Some? && s.value != ""
  }

  /** JavaScript `s || null` on a form field: the empty string is stored as null. */
  function EmptyToNull(s: string): Option<string> {
    if s == "" then None else Some(s)
  }

  /** A value behind a constructor. Proofs about long sequences state some
      of their equations between boxed values: the solver then uses them
      by substitution only, never element by element, which keeps those
      proofs cheap. */
  datatype Boxed<T> = Boxed(value: T)
}
