/** The greedy pick and the stop decision of the generation loop. */
module Greedy {

  /** What the greedy pick promises: a largest value, and the first of its ties. */
  ghost predicate IsArgmax(values: seq<real>, i: int) {
    && 0 <= i < |values|
    && (forall j | 0 <= j < |values| :: values[j] <= values[i])
    && (forall j | 0 <= j < i :: values[j] < values[i])
  }

  lemma ArgmaxUnique(values: seq<real>, i: int, j: int)
    requires IsArgmax(values, i) && IsArgmax(values, j)
    ensures i == j
  {
    assert values[i] <= values[j] && values[j] <= values[i];
  }

  function Argmax(values: seq<real>): (best: nat)
    requires values != []
    ensures IsArgmax(values, best)
  {
    var last := |values| - 1;
    if last == 0 then 0
    else
      var best := Argmax(values[..last]);
      assert values[..last][best] == values[best];
      if values[last] > values[best] then last else best
  }

  method ArgmaxBf16(logits: seq<real>) returns (best: nat)
    requires logits != []
    ensures best == Argmax(logits) && IsArgmax(logits, best)
  {
    best := 0;
    var bestVal := logits[0];
    var i := 1;
    while i < |logits|
      invariant 1 <= i <= |logits|
      invariant IsArgmax(logits[..i], best) && bestVal == logits[best]
    {
      var v := logits[i];
      if v > bestVal {
        best := i;
        bestVal := v;
      }
      i := i + 1;
    }
    assert logits[..i] == logits;
    ArgmaxUnique(logits, best, Argmax(logits));
  }

  datatype StopReason = Eos | MaxNewTokens | MaxSeqLen

  datatype Decision = Continue | Stop(reason: StopReason)

  datatype StopController = StopController(eos: int, maxNew: int, promptLen: nat, maxSeq: int) {

    function PositionOf(step: nat): nat {
      promptLen + step
    }

    predicate Placeable(step: nat) {
      PositionOf(step) < maxSeq
    }

    function StopAfterToken(token: int, step: nat): Decision {
      if token == eos then Stop(Eos)
      else if step + 1 >= maxNew then Stop(MaxNewTokens)
      else Continue
    }
  }
}
