/** What the models share. */
module Common {

  datatype Option<+T> = None | Some(value: T)

  /** `states` is a run of a transition system: each write takes one state to the next. */
  ghost predicate IsRun<S, W>(step: (S, W) -> S, states: seq<S>, writes: seq<W>) {
    |states| == |writes| + 1 && forall i :: 0 <= i < |writes| ==> states[i + 1] == step(states[i], writes[i])
  }

  lemma AppendAssoc<T>(a: seq<T>, b: seq<T>, c: seq<T>)
    ensures a + (b + c) == a + b + c
  {
  }
}
