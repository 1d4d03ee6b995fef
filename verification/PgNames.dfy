/**
 The names of process groups and of the actors in them.
 */
module PgNames {
  type Actor = nat

  /** A group within a scope. */
  datatype Key = Key(scope: string, group: string)
}
