/** Failure-carrying values and facts about collections shared by every part of the model. */
module Wrappers {
  datatype Option<+T> = None | Some(value: T)

  datatype Result<+T, +E> = Ok(value: T) | Err(error: E)

  /** How a call to the store fails, if it does: before it took effect, or after, so that only the answer is lost. */
  datatype Fault = NoFault | RequestLost | AnswerLost

  function Max(a: int, b: int): int { if a >= b then a else b }

  function Min(a: int, b: int): int { if a <= b then a else b }

  function ToSet<T>(xs: seq<T>): set<T> { set i | 0 <= i < |xs| :: xs[i] }

  lemma SubsetCard<T>(a: set<T>, b: set<T>)
    requires a <= b
    ensures |a| <= |b|
  {
    assert b == a + (b - a);
  }

  lemma ToSetAppend<T>(xs: seq<T>, x: T)
    ensures ToSet(xs + [x]) == ToSet(xs) + {x}
  {
    forall y | y in ToSet(xs) + {x} ensures y in ToSet(xs + [x]) {
      if y in ToSet(xs) {
        var i :| 0 <= i < |xs| && xs[i] == y;
        assert (xs + [x])[i] == y;
      } else {
        assert (xs + [x])[|xs|] == y;
      }
    }
  }
}
