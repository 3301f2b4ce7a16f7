/** A value that may be absent: a NULL column, a lookup that found nothing. */
module Optional {

  datatype Option<T> = None | Some(value: T)
}
