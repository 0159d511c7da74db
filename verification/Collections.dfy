/** What several modules need of sequences and optional values. */
module Collections {

  datatype Maybe<T> = None | Some(value: T)

  ghost predicate Distinct<T>(s: seq<T>) {
    forall i, j :: 0 <= i < j < |s| ==> s[i] != s[j]
  }
}
