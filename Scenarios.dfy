/**
 * Concrete discovery cycles: what the reconciliation does for a few small
 * saved lists, announcements and probe outcomes.
 */
module Scenarios {
  import opened Seqs
  import opened Ports
  import opened Browser
  import opened Prober
  import opened Reconciler

  /** A saved board that is not rediscovered and does not answer is dropped. */
  lemma UnreachableSavedPortIsDropped(dial: Dialer)
    requires !dial("10.0.0.5", HttpPort) && !dial("10.0.0.5", SshPort)
    ensures Reconcile([Port("10.0.0.5", "yun1", true, [])], [], dial) == []
  {
    var saved := [Port("10.0.0.5", "yun1", true, [])];
    FilterKeepsAll(saved, Unmatched([]));
    assert PruneUnreachablePorts(saved, dial).value == [];
  }

  /** A saved board that is not rediscovered but answers on port 22 is kept, ahead of the new ones. */
  lemma SshOnlyPortIsKept(dial: Dialer, newPort: Port)
    requires !dial("10.0.0.5", HttpPort) && dial("10.0.0.5", SshPort)
    requires newPort.name != "10.0.0.5"
    ensures Reconcile([Port("10.0.0.5", "yun1", true, [])], [newPort], dial)
         == [Port("10.0.0.5", "yun1", true, []), newPort]
  {
    var saved := [Port("10.0.0.5", "yun1", true, [])];
    assert NotRediscovered([newPort], saved[0]);
    FilterKeepsAll(saved, Unmatched([newPort]));
    PruneKeepsLivePorts(saved, dial);
    assert Reconcile(saved, [newPort], dial) == saved + [newPort];
  }

  /** A rediscovered board is replaced by its fresh record whatever the probe would say. */
  lemma RediscoveredPortIsReplaced(dial: Dialer)
    ensures var e := ServiceEntry("10.0.0.5", "yun1", ["board=yun"]);
      Reconcile([Port("10.0.0.5", "yun1", true, [])], NormalizedAll([e]), dial)
        == [Port("10.0.0.5", "yun1", true, ["arduino:avr:yun"])]
  {
    var e := ServiceEntry("10.0.0.5", "yun1", ["board=yun"]);
    assert OccursAt(e.text[0], YunMarker, 0);
    assert Filter(e.text, MarksYun) == e.text;
    assert Normalized(e).relatedNames == [YunBoard];
    var found := NormalizedAll([e]);
    assert found == [Port("10.0.0.5", "yun1", true, ["arduino:avr:yun"])];
    assert Retained([Port("10.0.0.5", "yun1", true, [])], found) == [];
  }

  /** Two announcements with the same key in one pass are both kept. */
  lemma FreshDuplicatesAreKept(dial: Dialer, p: Port)
    ensures Reconcile([], [p, p], dial) == [p, p]
  {
    assert Retained([], [p, p]) == [];
  }

  /** A cycle that finds the saved board again, then a cycle whose browse fails: the first
      replaces the saved record by the fresh one, the second reports the error and keeps it. */
  method DiscoveryCycles(dial: Dialer) returns (state: NetworkDiscovery, first: Result<seq<Port>>, second: Result<seq<Port>>)
    ensures first == Success([Port("10.0.0.5", "yun1", true, ["arduino:avr:yun"])])
    ensures second == Failure(BrowseFailed("no route"))
    ensures state.savedNetworkPorts == [Port("10.0.0.5", "yun1", true, ["arduino:avr:yun"])]
  {
    state := new NetworkDiscovery();
    state.savedNetworkPorts := [Port("10.0.0.5", "yun1", true, [])];
    var e := ServiceEntry("10.0.0.5", "yun1", ["text", "board=yun"]);
    assert OccursAt(e.text[1], YunMarker, 0);
    assert !MarksYun(e.text[0]);
    assert Filter(e.text, MarksYun) == [e.text[1]];
    assert Normalized(e).relatedNames == [YunBoard];
    var found := NormalizedAll([e]);
    assert found == [Port("10.0.0.5", "yun1", true, [YunBoard])];
    assert !NotRediscovered(found, Port("10.0.0.5", "yun1", true, []));
    assert Retained([Port("10.0.0.5", "yun1", true, [])], found) == [];
    assert PruneUnreachablePorts([], dial).value == [];
    assert Reconcile([Port("10.0.0.5", "yun1", true, [])], found, dial) == found;
    first := state.GetNetworkList(Browsed([e]), dial);

    second := state.GetNetworkList(BrowseRejected("no route"), dial);
  }
}
