/** Validation groups and ordered guard chains. */
module Validation {
  import opened Wrappers
  import opened Errors

  /** The two Bean Validation groups (`Marker.OnCreate`, `Marker.OnUpdate`). */
  datatype Group = OnCreate | OnUpdate

  /** One `if (bad) throw ...` step of a validator: whether it lets the input through, and what it throws otherwise. */
  datatype Guard = Guard(holds: bool, failure: Error)

  /** Runs the guards in order and reports what the first failing one throws. */
  function FirstFailure(guards: seq<Guard>): (r: Option<Error>)
    ensures r.None? <==> forall i :: 0 <= i < |guards| ==> guards[i].holds
    ensures r.Some? ==> exists i :: && 0 <= i < |guards|
                                    && !guards[i].holds && guards[i].failure == r.value
                                    && forall j :: 0 <= j < i ==> guards[j].holds
  {
    if guards == [] then None
    else if !guards[0].holds then Some(guards[0].failure)
    else
      var r := FirstFailure(guards[1..]);
      assert r.Some? ==> exists i :: && 0 <= i < |guards| - 1
                                     && !guards[1..][i].holds && guards[1..][i].failure == r.value
                                     && forall j :: 0 <= j < i ==> guards[1..][j].holds;
      assert r.Some? ==> exists i :: && 1 <= i < |guards|
                                     && !guards[i].holds && guards[i].failure == r.value
                                     && forall j :: 1 <= j < i ==> guards[j].holds;
      r
  }

  /** The failure reported is the one of the earliest failing guard. */
  lemma {:induction false} FirstFailureAt(guards: seq<Guard>, i: nat)
    requires i < |guards| && !guards[i].holds
    requires forall j :: 0 <= j < i ==> guards[j].holds
    ensures FirstFailure(guards) == Some(guards[i].failure)
  {
    if i > 0 {
      FirstFailureAt(guards[1..], i - 1);
    }
  }
}
