/** Operations on LXD that are waited for (lxf/lxo/container.go). */
module Lxo {
  import opened Wrappers
  import opened Records
  import opened Lxd

  /** The requests of a stop that was tried `tries` times: only the last possible one uses force. */
  function StopRequests(name: string, retries: nat, tries: nat): seq<Request> {
    seq(tries, i => PutState(name, false, i == retries))
  }

  /** Tries to stop a container, once more than `retries` says, and is content if it is stopped already.
      How long LXD waits each time does not matter here. */
  method StopContainer(server: Server, name: string, retries: nat) returns (err: Option<Error>)
    modifies server`containers, server`requests
    ensures err.None? ==>
      && name in old(server.containers)
      && server.containers == old(server.containers)[name := old(server.containers)[name].(status := Stopped)]
    ensures err.Some? ==> server.containers == old(server.containers)
    ensures err.Some? ==>
      if err.value == NotFound then name !in server.containers else err.value == Unavailable && !server.reliable
    ensures exists tries | 1 <= tries <= retries + 1 ::
      server.requests == old(server.requests) + StopRequests(name, retries, tries)
  {
    var wait := Failed;
    err := None;
    for i := 0 to retries + 1
      invariant server.containers == old(server.containers)
      invariant server.requests == old(server.requests) + StopRequests(name, retries, i)
      invariant if i == 0 then err == None else err == Some(Unavailable) && !server.reliable
    {
      err, wait := server.RequestStop(name, i == retries);
      assert StopRequests(name, retries, i + 1) ==
        StopRequests(name, retries, i) + [PutState(name, false, i == retries)];
      if err.Some? { return; }
      match wait {
        case AlreadyStopped => return None;
        case Done => return None;
        case Failed => err := Some(Unavailable);
      }
    }
  }
}
