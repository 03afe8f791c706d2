/** A value that may be absent: TypeScript's `T | null`. */
module Optional {
  datatype Option<T> = None | Some(value: T)
}
