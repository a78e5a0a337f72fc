/** The choice among the send queues: the smallest operation number wins, the first queue on a tie. */
module Selection {
  const NO_OPERATION: nat := 0xFFFF_FFFF

  /** The index of the queue to fetch from, or the number of queues if all are empty. */
  function Select(heads: seq<nat>): (index: nat)
    ensures index <= |heads|
  {
    if heads == [] then 0
    else
      var init, last := heads[..|heads| - 1], heads[|heads| - 1];
      var best := Select(init);
      if last < (if best < |init| then init[best] else NO_OPERATION) then |init|
      else if best < |init| then best else |heads|
  }

  lemma {:induction false} SelectIsFirstMinimum(heads: seq<nat>)
    ensures var k := Select(heads);
            && (k < |heads| ==> heads[k] < NO_OPERATION)
            && (k < |heads| ==> forall i :: 0 <= i < |heads| ==> heads[k] <= heads[i])
            && (k < |heads| ==> forall i :: 0 <= i < k ==> heads[k] < heads[i])
            && (k == |heads| ==> forall i :: 0 <= i < |heads| ==> heads[i] >= NO_OPERATION)
  {
    if heads != [] {
      SelectIsFirstMinimum(heads[..|heads| - 1]);
    }
  }

  /** The loop of the request queue over its emitters. */
  method SelectQueue(heads: seq<nat>) returns (index: nat)
    ensures index == Select(heads)
  {
    var minOpNr := NO_OPERATION;
    index := |heads|;
    for i := 0 to |heads|
      invariant Select(heads[..i]) == if index < |heads| then index else i
      invariant index < |heads| ==> index < i && minOpNr == heads[index]
      invariant index >= |heads| ==> index == |heads| && minOpNr == NO_OPERATION
    {
      assert heads[..i + 1][..i] == heads[..i];
      if heads[i] < minOpNr {
        minOpNr := heads[i];
        index := i;
      }
    }
    assert heads[..|heads|] == heads;
  }
}
