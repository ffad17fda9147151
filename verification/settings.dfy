/** The endpoint's fixed configuration and its error messages (index.php:7-22). */
module Settings {

  const MaxWidth: int := 2000
  const MaxHeight: int := 1000
  const FallbackWidth: int := 1000
  const FallbackHeight: int := 1415

  const CacheDirectory: string := "cache/"
  /** Seven days, in seconds. */
  const CacheExpirationTime: int := 7 * 24 * 60 * 60

  /** The errors the endpoint reports, each with a fixed message. */
  datatype Error = InvalidId | NoId | ProductNotFound | InvalidWidth | InvalidHeight

  /** The plain-text message echoed for each error. */
  function Message(e: Error): string {
    match e
    case InvalidId => "Invalid product ID."
    case NoId => "No product ID provided in the string query"
    case ProductNotFound => "Product not found."
    case InvalidWidth => "Invalid width value."
    case InvalidHeight => "Invalid height value."
  }

  /** The client can tell every error from every other by its message alone. */
  lemma MessagesDistinct(e1: Error, e2: Error)
    ensures Message(e1) == Message(e2) ==> e1 == e2
  {
  }
}
