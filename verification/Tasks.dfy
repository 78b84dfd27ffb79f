/** The asynchronous tasks of the mediated block device. */
module Tasks {
  datatype TaskState = Pending | Running | Finish

  datatype IoType = In | Out

  /** What a used-ring entry reports: the head of the descriptor chain and the
      number of bytes. */
  datatype UsedInfo = UsedInfo(head: nat, len: nat)

  datatype TaskData =
    | IpiTask
    | IoTask(io: IoType, sector: nat, count: nat)
    | NoneTask

  /** `dev` stands for the virtqueue and device handles.  `req` names the guest
      request a block task was made from; no code reads it. */
  datatype AsyncTask = AsyncTask(data: TaskData, vmid: nat, priority: nat, state: TaskState, dev: nat, req: UsedInfo)
}
