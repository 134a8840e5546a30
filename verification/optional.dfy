/** Kotlin's nullable values (`Int?`, `String?`) as an explicit option type. */
module Optional {

  datatype Option<+T> = None | Some(value: T)
}
