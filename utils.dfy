/** Board dimensions, the two colours and the small option/result wrappers
    shared by every module (janggi/utils.py). */
module Utils {

  /** Number of rows (x coordinate). */
  const Height: int := 10
  /** Number of columns (y coordinate). */
  const Width: int := 9

  /** `Color.BLUE = 1`, `Color.RED = -1`. */
  datatype Color = Blue | Red {
    function Value(): int
    {
      if Blue? then 1 else -1
    }

    /** `Color(-c.value)`: the other side. */
    function Other(): (c: Color)
      ensures c != this
      ensures c.Value() == -Value()
    {
      if Blue? then Red else Blue
    }
  }

  /** `Board.is_in`: the square lies on the 10 x 9 grid. */
  predicate IsIn(x: int, y: int)
  {
    0 <= x < Height && 0 <= y < Width
  }

  datatype Option<+T> = None | Some(value: T)

  datatype Result<+T> = Ok(value: T) | Err(error: string)

  /** Concatenation regroups freely. */
  lemma AppendAssoc<T>(a: seq<T>, b: seq<T>, c: seq<T>)
    ensures (a + b) + c == a + (b + c)
  {
  }

  /** The empty sequence is neutral for concatenation. */
  lemma AppendEmpty<T>(a: seq<T>)
    ensures a + [] == a && [] + a == a
  {
  }

  /** The front part of a concatenation. */
  lemma TakeAppend<T>(a: seq<T>, b: seq<T>)
    ensures (a + b)[..|a|] == a
  {
  }

  /** No element occurs twice in the sequence. */
  predicate Distinct<T(==)>(s: seq<T>)
  {
    forall i, j :: 0 <= i < j < |s| ==> s[i] != s[j]
  }

  /** Two sequences without repetitions and with no element in common
      concatenate to one without repetitions. */
  lemma DistinctAppend<T>(a: seq<T>, b: seq<T>)
    requires Distinct(a) && Distinct(b) && forall v :: v in a ==> v !in b
    ensures Distinct(a + b)
  {
    var ab := a + b;
    forall i, j | 0 <= i < j < |ab|
      ensures ab[i] != ab[j]
    {
      if j < |a| {
        assert ab[i] == a[i] && ab[j] == a[j];
      } else if i < |a| {
        assert ab[i] == a[i] && a[i] in a;
        assert ab[j] == b[j - |a|] && b[j - |a|] in b;
      } else {
        assert ab[i] == b[i - |a|] && ab[j] == b[j - |a|];
      }
    }
  }

  /** A prefix one element longer. */
  lemma TakeOneMore<T>(s: seq<T>, i: nat)
    requires i < |s|
    ensures s[..i + 1] == s[..i] + [s[i]]
  {
  }
}
