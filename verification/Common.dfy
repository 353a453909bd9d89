/** Small datatypes and collection lemmas shared by the components. */
module Common {

  datatype Option<+T> = None | Some(value: T)

  /** The application's exceptions: a refused call changes nothing and says why. */
  datatype Result<+T, +E> = Ok(value: T) | Err(error: E)

  function Min(a: int, b: int): int { if a <= b then a else b }

  function Max(a: int, b: int): int { if a <= b then b else a }

  ghost predicate NoDuplicates<T(!new)>(s: seq<T>) {
    forall i, j :: 0 <= i < j < |s| ==> s[i] != s[j]
  }

  /** `rows` is some order of exactly the elements of `keys`: what a table scan returns. */
  ghost predicate Lists<T(!new)>(rows: seq<T>, keys: set<T>) {
    && NoDuplicates(rows)
    && (forall x :: x in rows <==> x in keys)
  }

  function Elements<T>(s: seq<T>): set<T> { set x | x in s }

  /** The next row of a listing is new. */
  lemma NextListed<T(!new)>(rows: seq<T>, keys: set<T>, i: nat)
    requires Lists(rows, keys) && i < |rows|
    ensures rows[i] in keys && rows[i] !in Elements(rows[..i]) && Elements(rows[..i + 1]) == Elements(rows[..i]) + {rows[i]}
  {
    assert rows[i] in rows && rows[..i + 1] == rows[..i] + [rows[i]];
  }

  lemma AllListed<T(!new)>(rows: seq<T>, keys: set<T>)
    requires Lists(rows, keys)
    ensures Elements(rows[..|rows|]) == keys && Elements(rows[..0]) == {}
  {
    assert rows[..|rows|] == rows;
  }

  lemma {:induction false} SubsetSize<T>(a: set<T>, b: set<T>)
    requires a <= b
    ensures |a| <= |b|
  {
    if x :| x in a {
      SubsetSize(a - {x}, b - {x});
    }
  }
}
