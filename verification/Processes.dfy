/** The artdaq processes of a run, as `procinfos` records them. */
module Processes {
  import opened Wrappers
  import opened SubsystemGraph

  datatype ProcType = BoardReader | EventBuilder | DataLogger | Dispatcher | RoutingManager

  // `sizeInFhicl` is the max_event_size of the process's own FHiCL document, if it sets one.
  datatype Process = Process(procLabel: string, kind: ProcType, rank: nat, subsystem: Id, priority: int,
                             sizeInFhicl: Option<nat>)
}
