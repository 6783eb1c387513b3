/** Result and error types shared by both services, and the fault-injection
    parameter that stands for a failing database statement or a failing send. */
module Wrappers {

  datatype Option<+T> = None | Some(value: T)

  /** The errors a call can return. `DbFailure` is whatever error a failing
      SQL statement produces, `NoRows` is `sql.ErrNoRows`, `SendFailure` is an
      error of the message producer, `NumError` is the error of
      `strconv.Atoi`, and `Failure` is an `errors.New` with its text. */
  datatype Error = DbFailure | NoRows | SendFailure | NumError | Failure(msg: string)

  datatype Result<+T> = Ok(value: T) | Err(error: Error)

  /** Go's plain `error` return: nil or an error. */
  datatype Outcome = Pass | Fail(error: Error)

  /** Which statement of one repository call fails, counting from 0, if any. */
  datatype Fault = Healthy | FailAt(step: nat)

  predicate FailsAt(f: Fault, step: nat)
  {
    f.FailAt? && f.step == step
  }

  /** A run of `n` statements numbered `first`, `first + 1`, ... that stops at
      the first failure: whether one of them fails, and how many succeed. */
  predicate Aborts(f: Fault, first: nat, n: nat)
  {
    f.FailAt? && first <= f.step < first + n
  }

  function Done(f: Fault, first: nat, n: nat): (k: nat)
    ensures k <= n
    ensures Aborts(f, first, n) ==> FailsAt(f, first + k)
    ensures !Aborts(f, first, n) ==> k == n
  {
    if Aborts(f, first, n) then f.step - first else n
  }

  /** The fault of the `n`-th call in a run of one-statement calls: it
      fails exactly when the run's fault names step `n`. */
  function CallFault(f: Fault, n: nat): (g: Fault)
    ensures FailsAt(g, 0) <==> FailsAt(f, n)
  {
    if FailsAt(f, n) then FailAt(0) else Healthy
  }

  /** SQL `GREATEST(x, 0)`. */
  function Greatest0(x: int): (r: int)
    ensures r >= 0 && r >= x
    ensures r == x || r == 0
  {
    if x > 0 then x else 0
  }
}
