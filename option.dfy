/** Optional values: an integer the user typed that may not parse, a file that may not be readable, a resume file that may not be written. */
module Optional {
  datatype Option<T> = None | Some(value: T)
}
