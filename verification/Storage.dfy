module Storage {
  /** How a database write ends: `Unreported` took effect but reported an error. */
  datatype Write = Stored | NotStored | Unreported
}
