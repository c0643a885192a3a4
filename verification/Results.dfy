/** Outcomes of the operations that can fail, with one constructor per reason. */
module Results {
  datatype Error =
    | UnknownLaw
    | NonPositiveLift
    | BadMotionAngle
    | BadDwellAngle
    | NonPositiveSpeed
    | AnglesNotOneTurn
    | AngleOutOfRange
    | TooManyPoints
    | BlankName
    | BadName
    | NotFound
    | Unreadable
    | WriteError
    | RenameError

  datatype Result<+T> = Success(value: T) | Failure(error: Error) {
    predicate IsFailure() {
      Failure?
    }

    function PropagateFailure<U>(): Result<U>
      requires Failure?
    {
      Failure(error)
    }

    function GetOr(default: T): T {
      if Success? then value else default
    }

    function Extract(): T
      requires Success?
    {
      value
    }
  }
}
