/** Outcome types shared by the predicates, the compiler and the output normalisers. */
module Common {

  datatype Option<+T> = None | Some(value: T)

  /** The result of a predicate's local test. `Panic` stands for a Rust panic raised while
      testing (an `unwrap` on a failed number parse); it is never a pass. */
  datatype Verdict = Pass | Fail | Panic {
    predicate Passed() { this == Pass }
  }

  /** Progress of one construction step: it succeeded with a new value, it was refused
      (the Rust code returned `false`), or the process panicked. */
  datatype Progress<+T> = Ok(value: T) | Refused | Aborted

  /** A Rust call that either returns a value or panics. */
  datatype Outcome<+T> = Returned(value: T) | Panicked

  /** The four comparison predicates `gt`, `ge`, `lt`, `le`. */
  datatype Order = Gt | Ge | Lt | Le

  /** A comparison in the `f32` domain, which this model does not interpret. */
  datatype FloatQuery =
    | Compare(order: Order, base: string, value: string)
    | Between(start: string, end: string, value: string)

  /** Supplies the verdict of every `f32` comparison (parse, unwrap and compare): the
      queries whose parse panics, and among the others those whose comparison holds. Every
      assignment of verdicts to queries has such a description. */
  datatype FloatOracle = FloatOracle(panics: iset<FloatQuery>, holds: iset<FloatQuery>) {
    function Ask(q: FloatQuery): Verdict {
      if q in panics then Panic else if q in holds then Pass else Fail
    }
  }
}
