/**
 * The records the discovery code works on: the network port it produces and
 * keeps, the raw service announcement it is built from, and the identity key
 * under which a rediscovered port replaces a saved one.
 */
module Ports {
  import opened Seqs

  /** The fields of an `OsSerialPort` that network discovery sets and reads. */
  datatype Port = Port(
    name: string,               // the board's IPv4 address, also the host that is probed
    friendlyName: string,       // the advertised service instance name
    networkPort: bool,          // always true for ports found on the network
    relatedNames: seq<string>)  // board identifiers inferred from the announcement

  /** A resolved service announcement as the bonjour resolver delivers it. */
  datatype ServiceEntry = ServiceEntry(
    addrIPv4: string,     // the address, already in its textual form
    instance: string,     // the service instance name
    text: seq<string>)    // the free-text (TXT record) fields

  /** Why a discovery pass failed; `getPorts` in the Go code passes the library's error through unchanged. */
  datatype DiscoveryError =
    | ResolverInitFailed(message: string)
    | BrowseFailed(message: string)

  /** Go's `(value, error)` return pair: exactly one of the two is meaningful. */
  datatype Result<T> = Success(value: T) | Failure(error: DiscoveryError)

  /** Two ports denote the same board when both address and instance name agree. */
  predicate SameKey(p: Port, q: Port)
  {
    p.name == q.name && p.friendlyName == q.friendlyName
  }

  /** No two entries of `s` share an identity key. */
  predicate UniqueKeys(s: seq<Port>)
  {
    forall i, j :: 0 <= i < j < |s| ==> !SameKey(s[i], s[j])
  }

  /** Deleting entries never introduces a duplicate key. */
  lemma {:induction false} SubsequenceKeepsUniqueKeys(a: seq<Port>, b: seq<Port>)
    requires IsSubsequence(a, b)
    requires UniqueKeys(b)
    ensures UniqueKeys(a)
  {
    if a != [] {
      if a[0] == b[0] && IsSubsequence(a[1..], b[1..]) {
        SubsequenceKeepsUniqueKeys(a[1..], b[1..]);
        forall j | 0 < j < |a|
          ensures !SameKey(a[0], a[j])
        {
          assert a[j] == a[1..][j - 1];
          SubsequenceMembers(a[1..], b[1..], a[j]);
          var k :| 0 <= k < |b[1..]| && b[1..][k] == a[j];
          assert b[k + 1] == a[j];
        }
        forall i, j | 0 < i < j < |a|
          ensures !SameKey(a[i], a[j])
        {
          assert a[i] == a[1..][i - 1] && a[j] == a[1..][j - 1];
        }
      } else {
        assert forall i, j :: 0 <= i < j < |b[1..]| ==> b[1..][i] == b[i + 1] && b[1..][j] == b[j + 1];
        SubsequenceKeepsUniqueKeys(a, b[1..]);
      }
    }
  }

  /** Appending `tail` to a subsequence of a duplicate-free list, where no entry of `tail` shares a
      key with the kept part, can only create duplicates inside `tail`. */
  lemma ConcatDuplicatesInTail(kept: seq<Port>, saved: seq<Port>, tail: seq<Port>)
    requires IsSubsequence(kept, saved) && UniqueKeys(saved)
    requires forall p, q :: p in kept && q in tail ==> !SameKey(q, p)
    ensures forall i, j :: 0 <= i < j < |kept + tail| && SameKey((kept + tail)[i], (kept + tail)[j]) ==> |kept| <= i
  {
    var r := kept + tail;
    SubsequenceKeepsUniqueKeys(kept, saved);
    forall i, j | 0 <= i < j < |r| && i < |kept|
      ensures !SameKey(r[i], r[j])
    {
      assert r[i] == kept[i];
      if j >= |kept| {
        assert r[j] == tail[j - |kept|];
        assert kept[i] in kept && r[j] in tail;
      }
    }
  }

  /** The concatenation of two duplicate-free lists with no key in common is duplicate-free. */
  lemma ConcatUniqueKeys(kept: seq<Port>, tail: seq<Port>)
    requires UniqueKeys(kept) && UniqueKeys(tail)
    requires forall p, q :: p in kept && q in tail ==> !SameKey(q, p)
    ensures UniqueKeys(kept + tail)
  {
    var r := kept + tail;
    forall i, j | 0 <= i < j < |r|
      ensures !SameKey(r[i], r[j])
    {
      if j < |kept| {
        assert r[i] == kept[i] && r[j] == kept[j];
      } else if |kept| <= i {
        assert r[i] == tail[i - |kept|] && r[j] == tail[j - |kept|];
      } else {
        assert r[i] == kept[i] && r[j] == tail[j - |kept|];
        assert r[i] in kept && r[j] in tail;
      }
    }
  }
}
