/** What several of the models share. */
module Common {

  datatype Option<T> = None | Some(value: T)

  type Byte = n: nat | n < 0x100

  ghost predicate NoRepeats<T>(s: seq<T>) {
    forall i, j :: 0 <= i < j < |s| ==> s[i] != s[j]
  }

  function Elements<T>(s: seq<T>): set<T> {
    set x | x in s
  }
}
