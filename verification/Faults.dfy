/** Calls that may fail for reasons outside the model. */
module Faults {
  /** A reliable environment has none. */
  method Fault(reliable: bool) returns (fault: bool)
    ensures reliable ==> !fault
  {
    fault := *;
    if reliable {
      fault := false;
    }
  }
}
