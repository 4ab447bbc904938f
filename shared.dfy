/** Values shared by the three components: optional values, results, the task record
    and the identity of a registered callback. */
module Shared {

  datatype Option<T> = None | Some(value: T)

  datatype Result<T, E> = Ok(value: T) | Err(error: E)

  /** A task as the service sends it: a server-assigned id, a title and a status. */
  datatype Task = Task(id: int, title: string, status: string)

  /** Identity of a callback function handed to a component. A component keeps one
      callback per slot; registering another replaces it. */
  type CallbackId = nat
}
