/**
 Condition variables as the monitors of this repository use them: a signal moves one
 waiter, if there is one, to those that may run again, and a woken waiter takes the lock
 back in a step of its own.
 */
module Mesa {

  datatype Condition = Condition(waiting: nat, woken: nat) {
    function Wait(): Condition {
      Condition(waiting + 1, woken)
    }

    function Signal(): Condition {
      if waiting > 0 then Condition(waiting - 1, woken + 1) else this
    }

    function Broadcast(): Condition {
      Condition(0, waiting + woken)
    }

    /** A woken waiter has the lock again. */
    function Resume(): Condition
      requires woken > 0
    {
      Condition(waiting, woken - 1)
    }
  }

  const NOBODY := Condition(0, 0)
}
