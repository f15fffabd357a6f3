/** What several parts of the program share. */
module Basics {
  datatype Option<T> = None | Some(value: T)

  /** A row id. The database draws a new one for each row and never draws one twice. */
  type Id = nat

  /** The limit of a request: a default when none is given, and no more than the most allowed. */
  function NormalLimit(limit: int, usual: nat, most: nat): (n: nat)
    ensures 1 <= usual <= most ==> 1 <= n <= most
    ensures 1 <= limit <= most ==> n == limit
    ensures limit <= 0 ==> n == usual
    ensures limit > most && limit > 0 ==> n == most
  {
    if limit <= 0 then usual else if limit > most then most else limit
  }
}
