/** Small datatypes shared by the models of the crash-recoverable commands. */
module Common {

  datatype Option<+T> = None | Some(value: T)

  /** How a process that performs durable steps ends: never killed, or killed just
      before its next durable step once `steps` of them have been made. */
  datatype Life = Immortal | Mortal(steps: nat)

  /** How one command ends. `Killed` is a crash; `Refused` is a raised exception. */
  datatype Outcome<+E> = Done | Killed | Refused(reason: E)

  lemma Associate<T>(a: seq<T>, b: seq<T>, c: seq<T>)
    ensures (a + b) + c == a + (b + c)
  {
  }
}
