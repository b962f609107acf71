/** Small values shared by every component. */
module Prelude {

  datatype Option<+T> = None | Some(value: T)

  datatype Result<+T, +E> = Success(value: T) | Failure(error: E)

  predicate Distinct<T(==)>(s: seq<T>) {
    forall i, j :: 0 <= i < j < |s| ==> s[i] != s[j]
  }

  /** Python's `text[:limit]`. */
  function Truncate(text: string, limit: nat): string {
    if |text| <= limit then text else text[..limit]
  }

  /** The first `limit` characters of a text, or all of it. */
  predicate IsCut(text: string, full: string, limit: nat) {
    text <= full && |text| == if |full| < limit then |full| else limit
  }

  ghost function Elements<T>(s: seq<T>): set<T> {
    set x | x in s
  }

  /** A sequence without repetition has as many elements as positions. */
  lemma {:induction false} DistinctCount<T>(s: seq<T>)
    requires Distinct(s)
    ensures |Elements(s)| == |s|
  {
    if s != [] {
      var rest := s[..|s| - 1];
      var last := s[|s| - 1];
      DistinctCount(rest);
      assert s == rest + [last];
      assert Elements(s) == Elements(rest) + {last};
    }
  }
}
