/** A value that may be absent: TypeScript's `T | null`/`undefined`, Kotlin's `T?`, SQL NULL. */
module Options {
  datatype Option<+T> = None | Some(value: T)
}
