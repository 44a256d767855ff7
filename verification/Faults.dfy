/** How a database transaction ends. */
module Faults {
  /** An acknowledgement can be lost after the commit: the caller sees an error. */
  datatype TxFault = NoFault | RolledBack | CommitAckLost
}
