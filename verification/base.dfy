/** Shared vocabulary: optional values, and what running an external program hands back. */
module Base {

  /** Rust's `Option`. */
  datatype Option<T> = None | Some(value: T)

  /** What `Command::output()` returns: either the program could not be run at all
      (the `Err` arm), or it ran to completion with an exit status and captured output. */
  datatype Output =
    | SpawnFailed(reason: string)
    | Exited(success: bool, stdout: string, stderr: string)

  /** The standard output of a command that ran and exited successfully, and nothing otherwise;
      every listing in the dashboard starts from this. */
  function SuccessStdout(out: Output): (r: Option<string>)
    ensures r.Some? <==> out.Exited? && out.success
    ensures r.Some? ==> r.value == out.stdout
  {
    if out.Exited? && out.success then Some(out.stdout) else None
  }

  /** A positive multiple of a natural number is at least that number; the step the
      division-with-remainder proofs need and the solver does not find by itself. */
  lemma MulAtLeast(a: int, b: int)
    requires a >= 1 && b >= 0
    ensures a * b >= b
  {
    assert a * b == (a - 1) * b + b;
    assert (a - 1) * b >= 0;
  }
}
