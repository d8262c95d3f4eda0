/** The nullable values of the application (`Split | null`, `UserRole | null`,
    `string | null`) as an option type. */
module Wrappers {

  datatype Option<+T> = None | Some(value: T)
}
