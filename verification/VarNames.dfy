/** Names of variables. */
module VarNames {
  /** Names of the user, names of an inlined function's body, and names made up by common subexpression elimination. */
  datatype Name = Plain(s: string) | Qualified(func: string, s: string) | Temp(n: nat)
}
