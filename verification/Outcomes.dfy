/** Result types shared by every module. */
module Outcomes {
  type Bytes = seq<bv8>

  datatype Option<+T> = None | Some(value: T)

  /** How one step of a blocking call ends: it finishes, it raises, or the process dies inside it. */
  datatype Status = Ok | Raised | Crashed {
    predicate IsFailure() {
      !Ok?
    }

    function PropagateFailure(): Status
      requires IsFailure()
    {
      this
    }
  }

  /** What a caller of a whole configuration change observes. */
  datatype Report = Returned | RaisedOriginal | RecoveryRequired | Died
}
