/**
  The element that `std::priority_queue<T>::top()` surfaces, for a queue whose
  contents are `q` and whose `operator<` is `less`: an element of the queue that
  no other element of the queue is greater than.
*/
module PriorityQueue {

  /** `less` is a strict weak order on the elements of `q`, as the C++ standard
      library demands of a priority queue's comparator: irreflexive, transitive,
      and with incomparability (neither is less than the other) transitive too. */
  ghost predicate StrictWeakOrderOn<T>(q: seq<T>, less: (T, T) -> bool) {
    && (forall i :: 0 <= i < |q| ==> !less(q[i], q[i]))
    && (forall i, j, k :: 0 <= i < |q| && 0 <= j < |q| && 0 <= k < |q| && less(q[i], q[j]) && less(q[j], q[k])
          ==> less(q[i], q[k]))
    && (forall i, j, k :: 0 <= i < |q| && 0 <= j < |q| && 0 <= k < |q|
          && !less(q[i], q[j]) && !less(q[j], q[i]) && !less(q[j], q[k]) && !less(q[k], q[j])
          ==> !less(q[i], q[k]) && !less(q[k], q[i]))
  }

  /** A top element of `q` under `less`; which one among equals is left open. */
  function Top<T>(q: seq<T>, less: (T, T) -> bool): (t: T)
    requires |q| > 0
    requires StrictWeakOrderOn(q, less)
    ensures t in q
    ensures forall i :: 0 <= i < |q| ==> !less(t, q[i])
    decreases |q|
  {
    if |q| == 1 then q[0]
    else
      assert forall i :: 1 <= i < |q| ==> q[i] == q[1..][i - 1];
      var rest := Top(q[1..], less);
      if less(rest, q[0]) then q[0] else rest
  }
}
