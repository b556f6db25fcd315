/** A part of a sequence, by the positions it was picked at. */
module Positions {
  ghost predicate Rise(at: seq<nat>) {
    forall i, j :: 0 <= i < j < |at| ==> at[i] < at[j]
  }

  /** `part` is what stands at these positions, in their order. */
  ghost predicate Picks<T>(at: seq<nat>, whole: seq<T>, part: seq<T>) {
    && Rise(at) && |part| == |at|
    && forall i :: 0 <= i < |at| ==> at[i] < |whole| && part[i] == whole[at[i]]
  }

  function Shifted(at: seq<nat>, n: nat): seq<nat> {
    seq(|at|, i requires 0 <= i < |at| => at[i] + n)
  }

  lemma ShiftedHolds(at: seq<nat>, n: nat, k: nat)
    ensures k in Shifted(at, n) <==> k >= n && k - n in at
  {
    if i :| 0 <= i < |at| && at[i] + n == k { assert Shifted(at, n)[i] == k; }
  }

  /** What was picked of a tail, picked of the whole. */
  lemma ShiftedPicks<T>(at: seq<nat>, whole: seq<T>, part: seq<T>, n: nat)
    requires n <= |whole| && Picks(at, whole[n..], part)
    ensures Picks(Shifted(at, n), whole, part)
  {}

  /** The positions one later, after the head's if it is picked too. */
  function Behind(at: seq<nat>, head: bool): seq<nat> {
    (if head then [0] else []) + Shifted(at, 1)
  }

  lemma BehindHolds(at: seq<nat>, head: bool, k: nat)
    ensures k in Behind(at, head) <==> if k == 0 then head else k - 1 in at
  {
    ShiftedHolds(at, 1, k);
  }

  lemma BehindPicks<T>(at: seq<nat>, whole: seq<T>, part: seq<T>, head: bool)
    requires whole != [] && Picks(at, whole[1..], part)
    ensures Picks(Behind(at, head), whole, (if head then [whole[0]] else []) + part)
  {
    ShiftedPicks(at, whole, part, 1);
  }
}
