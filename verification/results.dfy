/**
 The ways a call into the simulator can fail. None is caught in the
 simulator: each ends the call that raised it.
 */
module Results {
  import opened Topology

  datatype Fault =
    | UnknownLink(link: Link)               // a hop whose sorted key is not a link of the graph
    | NoRoute(origin: Node, dest: Node)     // the shortest-path search found no path
    | MissingAttribute                      // the object was never given its simulator state

  datatype Result<+T> = Success(value: T) | Failure(fault: Fault)
}
