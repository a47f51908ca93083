/**
 * The reconciler (`GetNetworkList`): the package-level list of saved network
 * ports and the cycle that merges freshly discovered ports into it.
 */
module Reconciler {
  import opened Seqs
  import opened Ports
  import opened Browser
  import opened Prober

  /** The predicate of the first filter: no freshly discovered port has `port`'s identity key.
      The scan goes through `newPorts` in order and stops at the first match. */
  function NotRediscovered(newPorts: seq<Port>, port: Port): (any: bool)
    ensures any <==> forall i :: 0 <= i < |newPorts| ==> !SameKey(newPorts[i], port)
  {
    if newPorts == [] then true
    else if SameKey(newPorts[0], port) then false
    else NotRediscovered(newPorts[1..], port)
  }

  /** `NotRediscovered` as the filter predicate handed to `Filter`. */
  function Unmatched(newPorts: seq<Port>): (unmatched: Port -> bool)
    ensures forall p :: unmatched(p) <==> forall q :: q in newPorts ==> !SameKey(q, p)
  {
    (p: Port) => NotRediscovered(newPorts, p)
  }

  /** The saved ports that survive the first filter. */
  function Retained(saved: seq<Port>, newPorts: seq<Port>): (kept: seq<Port>)
    ensures |kept| <= |saved|
    ensures forall i, j :: 0 <= i < |kept| && 0 <= j < |newPorts| ==> !SameKey(newPorts[j], kept[i])
  {
    Filter(saved, Unmatched(newPorts))
  }

  /** The list a successful cycle produces: the retained ports that still answer, then the new ports. */
  function Reconcile(saved: seq<Port>, newPorts: seq<Port>, dial: Dialer): (r: seq<Port>)
    ensures |newPorts| <= |r| <= |saved| + |newPorts|
    ensures r[|r| - |newPorts|..] == newPorts
  {
    var kept := PruneUnreachablePorts(Retained(saved, newPorts), dial).value;
    SubsequenceLength(kept, Retained(saved, newPorts));
    kept + newPorts
  }

  /** The first filter keeps, in order, exactly the saved ports whose key no new port has. */
  lemma RetainedSpec(saved: seq<Port>, newPorts: seq<Port>)
    ensures IsSubsequence(Retained(saved, newPorts), saved)
    ensures forall p :: p in Retained(saved, newPorts) <==>
      p in saved && forall q :: q in newPorts ==> !SameKey(q, p)
    ensures forall p ::
      multiset(Retained(saved, newPorts))[p] == if NotRediscovered(newPorts, p) then multiset(saved)[p] else 0
  {
    FilterIsSubsequence(saved, Unmatched(newPorts));
    forall p ensures multiset(Retained(saved, newPorts))[p] ==
      if Unmatched(newPorts)(p) then multiset(saved)[p] else 0 {
      FilterMultiset(saved, Unmatched(newPorts), p);
    }
    forall p ensures p in Retained(saved, newPorts) <==> p in saved && Unmatched(newPorts)(p) {
      FilterMembership(saved, Unmatched(newPorts), p);
    }
  }

  /** The result ends with the new ports, exactly and in order, and begins with one filter of the
      saved list by "not rediscovered and still answering". */
  lemma ReconcileShape(saved: seq<Port>, newPorts: seq<Port>, dial: Dialer)
    ensures var r := Reconcile(saved, newPorts, dial);
      && |r| >= |newPorts|
      && r[|r| - |newPorts|..] == newPorts
      && r[..|r| - |newPorts|] == Filter(saved, Both(Unmatched(newPorts), Alive(dial)))
  {
    FilterFilter(saved, Unmatched(newPorts), Alive(dial));
  }

  /** A saved port stays exactly when no new port shares its key and its host answers;
      every other entry of the result is one of the new ports. */
  lemma ReconcileMembership(saved: seq<Port>, newPorts: seq<Port>, dial: Dialer, p: Port)
    ensures var r := Reconcile(saved, newPorts, dial);
      && (p in r[..|r| - |newPorts|] <==>
           p in saved && NotRediscovered(newPorts, p) && (dial(p.name, HttpPort) || dial(p.name, SshPort)))
      && (p in r <==> p in r[..|r| - |newPorts|] || p in newPorts)
  {
    ReconcileShape(saved, newPorts, dial);
    var r := Reconcile(saved, newPorts, dial);
    FilterMembership(saved, Both(Unmatched(newPorts), Alive(dial)), p);
    assert r == r[..|r| - |newPorts|] + newPorts;
  }

  /** The kept part of the result is a subsequence of the saved list: nothing added, order kept. */
  lemma ReconcileKeepsOrder(saved: seq<Port>, newPorts: seq<Port>, dial: Dialer)
    ensures var r := Reconcile(saved, newPorts, dial);
      IsSubsequence(r[..|r| - |newPorts|], saved)
  {
    ReconcileShape(saved, newPorts, dial);
    FilterIsSubsequence(saved, Both(Unmatched(newPorts), Alive(dial)));
  }

  /** Supersession: a saved port whose key some new port has appears in the result only as that
      new port itself; the stale copy is never kept. */
  lemma ReconcileSupersedes(saved: seq<Port>, newPorts: seq<Port>, dial: Dialer, p: Port)
    requires p in saved
    requires exists q :: q in newPorts && SameKey(q, p)
    ensures var r := Reconcile(saved, newPorts, dial);
      p !in r[..|r| - |newPorts|] && (p in r ==> p in newPorts)
  {
    ReconcileMembership(saved, newPorts, dial, p);
  }

  /** The part of the result kept from the saved list, and the two facts about it that the
      key-uniqueness lemmas need: it is a subsequence of the saved list, and no new port shares a
      key with any of its entries. */
  lemma KeptPart(saved: seq<Port>, newPorts: seq<Port>, dial: Dialer) returns (kept: seq<Port>)
    ensures Reconcile(saved, newPorts, dial) == kept + newPorts
    ensures IsSubsequence(kept, saved)
    ensures forall p, q :: p in kept && q in newPorts ==> !SameKey(q, p)
  {
    kept := PruneUnreachablePorts(Retained(saved, newPorts), dial).value;
    var r := Reconcile(saved, newPorts, dial);
    assert r[..|r| - |newPorts|] == kept;
    ReconcileKeepsOrder(saved, newPorts, dial);
    forall p, q | p in kept && q in newPorts
      ensures !SameKey(q, p)
    {
      ReconcileMembership(saved, newPorts, dial, p);
    }
  }

  /** Two result entries share a key only when both are new ports, provided the saved list had
      no duplicate keys; the new ports are not deduplicated against each other. */
  lemma ReconcileDuplicatesAreNew(saved: seq<Port>, newPorts: seq<Port>, dial: Dialer)
    requires UniqueKeys(saved)
    ensures var r := Reconcile(saved, newPorts, dial);
      forall i, j :: 0 <= i < j < |r| && SameKey(r[i], r[j]) ==> |r| - |newPorts| <= i
  {
    var kept := KeptPart(saved, newPorts, dial);
    ConcatDuplicatesInTail(kept, saved, newPorts);
  }

  /** With duplicate-free saved and new lists, the result has no duplicate keys. */
  lemma ReconcileUniqueKeys(saved: seq<Port>, newPorts: seq<Port>, dial: Dialer)
    requires UniqueKeys(saved) && UniqueKeys(newPorts)
    ensures UniqueKeys(Reconcile(saved, newPorts, dial))
  {
    var kept := KeptPart(saved, newPorts, dial);
    SubsequenceKeepsUniqueKeys(kept, saved);
    ConcatUniqueKeys(kept, newPorts);
  }

  /** The process-wide state of network discovery. */
  class NetworkDiscovery {
    /** `SavedNetworkPorts`: the ports believed connected, carried from one cycle to the next. */
    var savedNetworkPorts: seq<Port>

    constructor ()
      ensures savedNetworkPorts == []
    {
      savedNetworkPorts := [];
    }

    /** `GetNetworkList`: one discovery cycle. A failed discovery returns its error and leaves
        the saved list alone; otherwise the saved list becomes the reconciled list, which is
        also returned. */
    method GetNetworkList(discovery: Discovery, dial: Dialer) returns (r: Result<seq<Port>>)
      modifies this
      ensures r.Success? <==> discovery.Browsed?
      ensures discovery.ResolverUnavailable? ==>
        r == Failure(ResolverInitFailed(discovery.message)) && savedNetworkPorts == old(savedNetworkPorts)
      ensures discovery.BrowseRejected? ==>
        r == Failure(BrowseFailed(discovery.message)) && savedNetworkPorts == old(savedNetworkPorts)
      ensures discovery.Browsed? ==>
        && savedNetworkPorts == Reconcile(old(savedNetworkPorts), NormalizedAll(discovery.entries), dial)
        && r == Success(savedNetworkPorts)
      ensures discovery.Browsed? && UniqueKeys(old(savedNetworkPorts)) && UniqueKeys(NormalizedAll(discovery.entries))
        ==> UniqueKeys(savedNetworkPorts)
    {
      var discovered := GetPorts(discovery);
      if discovered.Failure? {
        return Failure(discovered.error);
      }
      var newPorts := discovered.value;
      ghost var before := savedNetworkPorts;

      savedNetworkPorts := Filter(savedNetworkPorts, Unmatched(newPorts));

      var pruned := PruneUnreachablePorts(savedNetworkPorts, dial);
      if pruned.Failure? {
        // The Go code returns the prune's error here; the prune never fails (see its contract).
        assert false;
      }
      savedNetworkPorts := pruned.value;

      savedNetworkPorts := savedNetworkPorts + newPorts;

      if UniqueKeys(before) && UniqueKeys(newPorts) {
        ReconcileUniqueKeys(before, newPorts, dial);
      }
      return Success(savedNetworkPorts);
    }
  }
}
