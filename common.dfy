/** Identities and the optional value shared by the scheduler and the alarm. */
module Common {

  /** A KThread, known to the kernel only by its identity. */
  type ThreadId = nat

  /** A Java reference that may be null. */
  datatype Option<T> = None | Some(value: T)
}
