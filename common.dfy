/** Small wrapper types shared by the whole model. */
module Common {

  /** A value that may be absent. A PHP `null` and a missing array key are both `None`. */
  datatype Option<+T> = None | Some(value: T) {
    function GetOr(default: T): T {
      match this
      case Some(v) => v
      case None => default
    }
  }

  /** The outcome of an operation that throws in the original program. */
  datatype Result<+T, +E> = Ok(value: T) | Err(error: E)

  /**
   * PHP's `empty()` on a string: true for "" and also for "0".
   */
  predicate PhpEmpty(s: string) {
    s == "" || s == "0"
  }

  /** The elements of a list of lists, list after list. */
  function Concat<T>(ss: seq<seq<T>>): (r: seq<T>)
    ensures |ss| == 1 ==> r == ss[0]
  {
    if ss == [] then [] else ss[0] + Concat(ss[1..])
  }

  lemma {:induction false} ConcatAppend<T>(a: seq<seq<T>>, b: seq<seq<T>>)
    ensures Concat(a + b) == Concat(a) + Concat(b)
    decreases |a|
  {
    if a == [] {
      assert a + b == b;
    } else {
      assert (a + b)[1..] == a[1..] + b;
      ConcatAppend(a[1..], b);
    }
  }
}
