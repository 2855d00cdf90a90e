/** The result shapes and the bytes shared by the components. */
module Outcomes {
  datatype Option<+T> = None | Some(value: T) {
    predicate IsFailure() {
      None?
    }

    function PropagateFailure<U>(): Option<U>
      requires None?
    {
      None
    }

    function Extract(): T
      requires Some?
    {
      value
    }
  }

  newtype byte = x: int | 0 <= x < 256
  type Bytes = seq<byte>

  /** How a step ended: done, with an exception, or with the process gone. */
  datatype Progress = Done | Raised | Crashed

  /** What goes wrong with a durable step. */
  datatype Fault = NoFault | FailsBefore | FailsAfter | CrashesBefore

  /** Something goes wrong or nothing does; in a quiet run nothing does. */
  method ChooseFault(quiet: bool) returns (fault: Fault)
    ensures quiet ==> fault == NoFault
  {
    fault := *;
    if quiet { fault := NoFault; }
  }

  /** What a map holds at a key. */
  function Lookup<K, V>(m: map<K, V>, key: K): (found: Option<V>)
    ensures found.Some? <==> key in m
    ensures key in m ==> found == Some(m[key])
  {
    if key in m then Some(m[key]) else None
  }
}
