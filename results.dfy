/** Optional values and the Python exceptions that end a run of the scripts. */
module Results {

  datatype Option<+T> = None | Some(value: T)

  /** The Python exception a failing lookup or search raises. */
  datatype Error =
    | KeyError(key: string)   // a missing dict key: a JSON field or a query id
    | IndexError              // indexing an empty list
    | ValueError              // `min`/`max` of an empty list, `str.index` of an absent substring

  datatype Result<+T> = Success(value: T) | Failure(error: Error)
}
