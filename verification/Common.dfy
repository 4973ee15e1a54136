/** Result types shared by every module: Python's None and its raised exceptions. */
module Common {

  datatype Option<+T> = None | Some(value: T)

  datatype Result<+T, +E> = Ok(value: T) | Err(error: E)

  /** A number from `least` on that is not in use. */
  lemma {:induction false} Unused(used: set<nat>, least: nat) returns (n: nat)
    ensures n !in used && n >= least
    decreases |used|
  {
    if least in used {
      n := Unused(used - {least}, least + 1);
    } else {
      n := least;
    }
  }
}
