/** Optional values: Java's nullable references (a null output path, a
    missing JSON member, the NO_STATUS / NO_CONTENT_TYPE placeholders). */
module Wrappers {

  datatype Option<+T> = None | Some(value: T)
}
