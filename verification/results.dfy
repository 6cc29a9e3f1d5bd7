/** Outcome types of the referral engine: the exceptions the service throws
    become constructors of `Error`, and every operation returns a `Result`. */
module Results {

  /** A value that may be absent: `None` stands for Java's `null` or an empty `Optional`. */
  datatype Option<+T> = None | Some(value: T)

  /** The four user-facing failures of the service. */
  datatype Error =
    | UserAlreadyExists
    | UserNotFound
    | InvalidReferralCode
    | AuthenticationFailed

  datatype Result<+T> = Ok(value: T) | Err(error: Error)
}
