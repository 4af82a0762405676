/** Datatypes that several parts of the program share. */
module Basics {

  datatype Option<T> = None | Some(value: T)

  /** What a resolver reports for an object. */
  datatype ResolveResult = CREATE | ALTER | DROP | REPLACE | SKIP | GRANT | NOCHANGE | ERROR | UNSUPPORTED

  function SetOf<K(!new)>(ks: seq<K>): (s: set<K>)
    ensures forall k :: k in s <==> k in ks
  {
    set k | k in ks
  }
}
