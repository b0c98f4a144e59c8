/**
 One database transaction inside a catch-all, as every repository method runs it: an exception
 comes either before the statements have run, or at the commit, where the server may or may not
 have applied the transaction.
 */
module Transactions {
  datatype Fault = NoFault | EarlyFault | LateFault(applied: bool)

  predicate Applied(fault: Fault) { fault.NoFault? || (fault.LateFault? && fault.applied) }

  /** The stored state after a transaction that wanted to turn `before` into `after`. */
  function Settle<T>(before: T, after: T, fault: Fault): T { if Applied(fault) then after else before }

  /** A value that does not fit its column makes the statement fail, whatever else happens. */
  function Guarded(fits: bool, fault: Fault): Fault { if fits then fault else EarlyFault }
}
