/** A socket that may take less than it is given. */
module Sockets {
  /** Socket::send on any schedule: `plan` lists how much each call will take (a negative
      number is an error); when it runs out, a call takes everything. */
  class Socket<T> {
    var sent: seq<T>
    var plan: seq<int>

    constructor (schedule: seq<int>)
      ensures sent == [] && plan == schedule
    {
      sent, plan := [], schedule;
    }

    method Send(slice: seq<T>) returns (r: int)
      modifies this
      ensures r == (if old(plan) == [] || old(plan)[0] > |slice| then |slice| else old(plan)[0])
      ensures plan == (if old(plan) == [] then [] else old(plan)[1..])
      ensures sent == old(sent) + if r < 0 then [] else slice[..r]
    {
      r := if plan == [] || plan[0] > |slice| then |slice| else plan[0];
      plan := if plan == [] then [] else plan[1..];
      if r >= 0 { sent := sent + slice[..r]; }
    }
  }
}
