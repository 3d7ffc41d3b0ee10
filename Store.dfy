/**
 * The browser-local store that holds the cart and the wishlist, one key each.
 * A key holds nothing, text that does not parse, or a serialised array; the
 * serialisation itself is not modelled, only what a read gives back.
 */
module Store {

  /** What one storage key holds. */
  datatype Stored<T> =
    | Absent            // the key was never written (or holds a falsy JSON value)
    | Corrupt           // the text under the key does not parse
    | Items(items: seq<T>)

  /** Reading a key: an absent or corrupt value reads as the empty collection. */
  function Load<T>(s: Stored<T>): (r: seq<T>)
    ensures s.Items? ==> r == s.items
    ensures !s.Items? ==> r == []
  {
    match s
    case Items(items) => items
    case _ => []
  }

  /** Writing a key replaces whatever it held. */
  function Save<T>(items: seq<T>): (s: Stored<T>)
    ensures s.Items?
  {
    Items(items)
  }

  /** What is written is what the next read returns. */
  lemma LoadSaveRoundTrip<T>(items: seq<T>)
    ensures Load(Save(items)) == items
  {
  }

  /** A read never fails: every non-array slot gives the empty collection. */
  lemma LoadNeverFails<T>(s: Stored<T>)
    ensures Load(s) == [] <==> (s.Items? ==> s.items == [])
  {
  }
}
