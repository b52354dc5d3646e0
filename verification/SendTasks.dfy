/** The coroutine `send_fn` of a connection and the tasks that the executor holds for it. */
module SendTasks {
  import opened BufferBlocks

  /** Where `send_fn` is suspended. `Crashed` is a resume that finds no suspended coroutine, or an
      operation that does not end. */
  datatype Sender = NotStarted | InWait | InWrite | Crashed

  /** A request is a closure that a client's `CallMethod` has spawned. */
  datatype Task = StartSend | StartRecv | Request(data: seq<Byte>)

  /** Neither coroutine has run. */
  ghost predicate Fresh(tasks: seq<Task>) {
    && |tasks| >= 2 && tasks[0] == StartSend && tasks[1] == StartRecv
    && (forall i :: 2 <= i < |tasks| ==> tasks[i].Request?)
  }

  /** `send_fn` has run; `recv_fn` may still be due. */
  ghost predicate Started(tasks: seq<Task>) {
    forall i :: 0 <= i < |tasks| ==> tasks[i].Request? || (i == 0 && tasks[i].StartRecv?)
  }
}
