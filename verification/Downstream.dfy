/** What a writer sees of its connection. */
module Downstream {
  import opened Octets

  /** What one downstream Write reports; bytes beyond the buffer cannot be taken. */
  datatype Took = Took(n: nat, ok: bool)

  function Answer(batch: Bytes, plan: seq<Took>): Took {
    if plan == [] then Took(|batch|, true) else plan[0]
  }

  function RestOf(plan: seq<Took>): seq<Took> { if plan == [] then [] else plan[1..] }

  /** The downstream writer: takes what its plan says, everything once the plan is used up. */
  class Sink {
    var wire: Bytes
    var plan: seq<Took>

    constructor (plan: seq<Took>)
      ensures wire == [] && this.plan == plan
    {
      wire, this.plan := [], plan;
    }

    method Write(data: Bytes) returns (t: Took)
      modifies this
      ensures t == Answer(data, old(plan)) && plan == RestOf(old(plan))
      ensures wire == old(wire) + data[..Min(t.n, |data|)]
    {
      t := if plan == [] then Took(|data|, true) else plan[0];
      plan := if plan == [] then [] else plan[1..];
      wire := wire + data[..if t.n < |data| then t.n else |data|];
    }
  }
}
