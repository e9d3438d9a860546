/** How a database statement can go wrong. */
module Faults {

  /** The statement fails without effect, or it takes effect and its answer is lost. */
  datatype Fault = NoFault | FailsBefore | FailsAfter
}
