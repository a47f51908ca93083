/**
 * The reachability prober (`pruneUnreachablePorts`). A TCP connection attempt
 * with a timeout is a network effect; here it is an oracle `dial(host, port)`
 * that says whether a connection to `host:port` would be established in time.
 */
module Prober {
  import opened Seqs
  import opened Ports

  /** Whether a connection to the host on the given TCP port succeeds. */
  type Dialer = (string, nat) -> bool

  /** The port tried first (HTTP) and the one tried when it fails (SSH). */
  const HttpPort: nat := 80
  const SshPort: nat := 22

  /** The outcome of probing one host: whether it answered, and which ports were dialed, in order. */
  datatype ProbeResult = ProbeResult(reachable: bool, dialed: seq<nat>)

  /** Probe a host: port 80 first, and port 22 only when port 80 does not answer. */
  function Probe(dial: Dialer, host: string): (r: ProbeResult)
    ensures |r.dialed| >= 1 && r.dialed[0] == HttpPort
    ensures SshPort in r.dialed <==> !dial(host, HttpPort)
    ensures r.dialed == [HttpPort] || r.dialed == [HttpPort, SshPort]
    ensures r.reachable <==> exists k :: k in r.dialed && dial(host, k)
    ensures r.reachable <==> dial(host, HttpPort) || dial(host, SshPort)
  {
    if dial(host, HttpPort) then ProbeResult(true, [HttpPort])
    else if dial(host, SshPort) then ProbeResult(true, [HttpPort, SshPort])
    else ProbeResult(false, [HttpPort, SshPort])
  }

  /** The filter predicate of the pruning step: the port's host answered the probe. */
  function Alive(dial: Dialer): (alive: Port -> bool)
    ensures forall p :: alive(p) <==> dial(p.name, HttpPort) || dial(p.name, SshPort)
  {
    (p: Port) => Probe(dial, p.name).reachable
  }

  /** `pruneUnreachablePorts`: keep, in order, the ports whose host answers; never an error. */
  function PruneUnreachablePorts(ports: seq<Port>, dial: Dialer): (r: Result<seq<Port>>)
    ensures r.Success?
    ensures IsSubsequence(r.value, ports)
    ensures forall p :: p in r.value <==> p in ports && (dial(p.name, HttpPort) || dial(p.name, SshPort))
    ensures forall p ::
      multiset(r.value)[p] == if dial(p.name, HttpPort) || dial(p.name, SshPort) then multiset(ports)[p] else 0
  {
    var kept := Filter(ports, Alive(dial));
    FilterIsSubsequence(ports, Alive(dial));
    forall p ensures multiset(kept)[p] == if Alive(dial)(p) then multiset(ports)[p] else 0 {
      FilterMultiset(ports, Alive(dial), p);
    }
    assert forall p :: p in kept <==> p in ports && Alive(dial)(p) by {
      forall p ensures p in kept <==> p in ports && Alive(dial)(p) {
        FilterMembership(ports, Alive(dial), p);
      }
    }
    Success(kept)
  }

  /** Pruning a list in which every host answers changes nothing. */
  lemma PruneKeepsLivePorts(ports: seq<Port>, dial: Dialer)
    requires forall i :: 0 <= i < |ports| ==> dial(ports[i].name, HttpPort) || dial(ports[i].name, SshPort)
    ensures PruneUnreachablePorts(ports, dial) == Success(ports)
  {
    FilterKeepsAll(ports, Alive(dial));
  }
}
