/**
 * The error values and duration constants of the `config` package.
 * Go's `error` result (nil or one of the sentinels) becomes `Status`;
 * Go's `(value, ok)` lookups become `Option`.
 */
module Config {

  /** The seven error sentinels (config/config.go:8-14). */
  datatype Error =
    | ErrorUserExist     // "user is already exist"
    | ErrorRoleExist     // "role is already exist"
    | ErrorToken         // "token is wrong"
    | ErrorUserNotExist  // "user is not exist"
    | ErrorRoleNotExist  // "role is not exist"
    | ErrorTokenExpire   // "token is expired"
    | ErrorPwd           // "username or password is wrong"

  /** A Go `error` result: `Success` stands for nil. */
  datatype Status = Success | Failure(error: Error)

  datatype Option<T> = None | Some(value: T)

  /** `time.Duration` counts nanoseconds; `time.Second` is 10^9 of them. */
  const Second: int := 1_000_000_000

  /** `config.TokenExpireTimeHour` and `config.TokenExpireTimeSec`, in nanoseconds. */
  const TokenExpireTimeHour: int := 3600 * Second
  const TokenExpireTimeSec: int := 5 * Second
}
