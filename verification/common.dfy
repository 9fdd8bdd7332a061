/**
 * Shared vocabulary of the parking-car model: the error outcomes that the
 * program raises as exceptions, an option type, the action pair exchanged
 * between the controller and the simulation, and the saturating clamp that
 * every component uses.
 */
module Common {

  datatype Option<T> = None | Some(value: T)

  /** The exceptions the modelled code can raise; the tag names the cause. */
  datatype Error =
    | InvalidGenomeLength        // a genome that is not 180 entries long
    | InvalidBitCount            // a gene chunk that is not 10 bits long
    | InvalidSensorCount         // a sensor vector that is not 8 readings long
    | MismatchedParentLength     // crossover parents of different lengths
    | SampleLargerThanPopulation // random.sample asked for more items than exist
    | EmptySequence              // min() or max() of an empty sequence
    | ZeroDivision               // an average over an empty list

  datatype Result<T> = Ok(value: T) | Err(error: Error)

  /** The {engine, wheels} decision; each component is -1, 0 or 1 when it comes from the controller. */
  datatype Action = Action(engine: int, wheels: int)

  function Min(a: real, b: real): real { if a <= b then a else b }

  function Max(a: real, b: real): real { if a >= b then a else b }

  /** max(min(x, hi), lo), the clamp written throughout the program. */
  function Clamp(x: real, lo: real, hi: real): (r: real)
    requires lo <= hi
    ensures lo <= r <= hi
    ensures lo <= x <= hi ==> r == x
    ensures x >= hi ==> r == hi
    ensures x <= lo ==> r == lo
  {
    Max(Min(x, hi), lo)
  }

  /** A list whose every entry is the integer 0 or 1. */
  predicate IsBits(s: seq<int>) {
    forall i :: 0 <= i < |s| ==> s[i] == 0 || s[i] == 1
  }

  /** Clamping into a symmetric interval commutes with negation. */
  lemma ClampSymmetric(x: real, bound: real)
    requires 0.0 <= bound
    ensures Clamp(-x, -bound, bound) == -Clamp(x, -bound, bound)
  {
  }

  /** Clamping is monotone in the clamped value. */
  lemma ClampMonotone(x: real, y: real, lo: real, hi: real)
    requires lo <= hi && x <= y
    ensures Clamp(x, lo, hi) <= Clamp(y, lo, hi)
  {
  }
}
