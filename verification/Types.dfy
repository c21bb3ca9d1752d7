/** The vocabulary shared by every other module. */
module Types {

  datatype Option<+T> = None | Some(value: T)

  type Operation = string

  /** The class an error classifier answers with. In types.go it is an integer, so a custom
      classifier may answer with a code that has no name. */
  datatype ErrorClass = Unknown | Retryable | Permanent | Other(code: int)

  function Max(a: int, b: int): (m: int)
    ensures m >= a && m >= b && (m == a || m == b)
  {
    if a >= b then a else b
  }
}
