/** Kotlin's subject-less `when { c1 -> v1; c2 -> v2; ...; else -> d }`:
    the conditions are tried top to bottom and the first one that holds
    supplies the value. */
module Dispatch {

  /** One `condition -> value` branch of a `when`. */
  datatype Arm<+T> = Arm(guard: bool, value: T)

  /** Branch `i` is the one a `when` takes: its condition holds and no
      earlier condition does. */
  ghost predicate Selects<T>(arms: seq<Arm<T>>, i: int)
  {
    && 0 <= i < |arms|
    && arms[i].guard
    && forall j :: 0 <= j < i ==> !arms[j].guard
  }

  /** No branch condition holds, so the `else` branch is taken. */
  ghost predicate NoneHolds<T>(arms: seq<Arm<T>>)
  {
    forall j :: 0 <= j < |arms| ==> !arms[j].guard
  }

  /** Evaluates a `when` with branches `arms` and `else` value `otherwise`. */
  function When<T>(arms: seq<Arm<T>>, otherwise: T): (r: T)
    ensures forall i :: Selects(arms, i) ==> r == arms[i].value
    ensures NoneHolds(arms) ==> r == otherwise
    decreases |arms|
  {
    if |arms| == 0 then otherwise
    else if arms[0].guard then arms[0].value
    else When(arms[1..], otherwise)
  }
}
