/** Tasks, processors and what the scheduler may read about them. */
module Tasks {

  datatype Option<+T> = None | Some(value: T)

  /** A task is its index in the table of task control blocks; a null pointer is `None`. */
  type Task = nat

  /** `dispatch_disabled` values from this one on pin the running task to its processor. */
  const DDS_DISABLE := 2
}
