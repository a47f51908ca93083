# Network-port discovery and reconciliation, modelled in Dafny

This project models the network-port discovery of serial-port-json-server
(`discovery.go`). The server keeps a package-level list of network boards,
`SavedNetworkPorts`. Each call of `GetNetworkList` runs one discovery cycle:

1. It asks the bonjour resolver for `_arduino._tcp` announcements. If that fails, it returns the
   error and leaves the saved list alone.
2. It drops every saved port whose identity key (address `Name` plus instance name
   `FriendlyName`) matches a freshly announced port.
3. It prunes the remaining saved ports whose host answers neither on TCP port 80 nor, after that,
   on port 22.
4. It appends all fresh ports, stores the result as the new saved list and returns it.

Each announcement becomes a port with the address as `Name`, the instance as `FriendlyName`,
`NetworkPort` set, and one `"arduino:avr:yun"` in `RelatedNames` for every text field that
contains `"board=yun"`.

Files, one module each:

- `Seqs.dfy`: the stable filter the code applies, and subsequences.
- `Ports.dfy`: the port record, the announcement, the error and result types, and identity keys.
- `Browser.dfy`: `getPorts`. Substring search is a function. The related-names loop and the
  collector loop are methods proved against specification functions.
- `Prober.dfy`: the port-80-then-22 reachability decision and `pruneUnreachablePorts`.
- `Reconciler.dfy`: class `NetworkDiscovery`. Its field `savedNetworkPorts` stands for
  `SavedNetworkPorts`, and its method `GetNetworkList` updates that field step by step. The
  module also holds the function `Reconcile` that specifies a successful cycle, and the lemmas
  about it.
- `Scenarios.dfy`: concrete cycles.

External effects enter as parameters:

- The outcome of the bonjour pass is a `Discovery` value: the resolver failed, the browse
  failed, or a sequence of announcements in arrival order.
- A TCP connection attempt is an oracle `dial(host, port)`.

About the code's behaviour:

- The code dials port 80 and, if that fails, port 22, once each. It does not retry
  (discovery.go:86-99).
- The identity test compares each fresh port's `Name` and `FriendlyName` with the saved port's
  (discovery.go:59).
- The result is guaranteed to have no duplicate key when both the saved list and the fresh
  announcements are duplicate-free (`ReconcileUniqueKeys`). Fresh ports are never deduplicated
  against each other, so duplicates among them reach the result (`ReconcileDuplicatesAreNew`,
  `FreshDuplicatesAreKept`).

## Model

| member | source | states |
|---|---|---|
| `Seqs.Filter` | discovery.go:56-65 | The filter the code relies on keeps only elements satisfying the predicate and never grows the list |
| `Seqs.FilterConcat` | discovery.go:84-102 | Filtering decides element by element: the filter of a concatenation is the concatenation of the filters |
| `Seqs.FilterMembership` | discovery.go:84-102 | An element is in the filtered list iff it is in the input and satisfies the predicate |
| `Seqs.FilterIsSubsequence` | discovery.go:84-102 | The filtered list is a subsequence of the input: nothing added, order preserved |
| `Seqs.FilterKeepsAll` | discovery.go:84-102 | When every element satisfies the predicate the filter returns its input unchanged |
| `Seqs.FilterFilter` | discovery.go:56-67 | Two successive filters equal one filter by the conjunction of their predicates |
| `Seqs.FilterMultiset` | discovery.go:84-102 | The filter keeps every copy of an element satisfying the predicate and no copy of any other element |
| `Seqs.SubsequenceMembers` | discovery.go:84-102 | Every element of a subsequence occurs in the original sequence |
| `Seqs.SubsequenceLength` | discovery.go:84-102 | A subsequence is never longer than the sequence it was taken from |
| `Ports.SubsequenceKeepsUniqueKeys` | discovery.go:56-67 | Removing entries from a list without duplicate (Name, FriendlyName) keys never creates a duplicate |
| `Ports.ConcatDuplicatesInTail` | discovery.go:72 | Appending ports that share no key with a subsequence of a duplicate-free list can only create duplicates among the appended ports |
| `Ports.ConcatUniqueKeys` | discovery.go:72 | Appending a duplicate-free list that shares no key with a duplicate-free list gives a duplicate-free list |
| `Browser.Contains` | discovery.go:130 | `strings.Contains` holds iff the marker occurs at some position of the field |
| `Browser.MarksYun` | discovery.go:130 | A text field marks a Yun iff `"board=yun"` occurs at some position in it |
| `Browser.RelatedNames` | discovery.go:128-133 | The related names of a text record are all `"arduino:avr:yun"` and never outnumber the fields |
| `Browser.RelatedNamesCount` | discovery.go:128-133 | The related names are exactly one `"arduino:avr:yun"` per text field containing `"board=yun"` |
| `Browser.RelatedNamesEmpty` | discovery.go:128-133 | The related names are empty iff no text field contains `"board=yun"` |
| `Browser.Normalized` | discovery.go:134 | The port of an announcement has its address as Name, its instance as FriendlyName, NetworkPort true and one Yun identifier per marked field |
| `Browser.NormalizedAll` | discovery.go:125-135 | The collected list has one port per announcement, the i-th being the normalisation of the i-th announcement |
| `Browser.NormalizeEntry` | discovery.go:128-134 | The per-entry loop produces exactly the normalised port of the announcement |
| `Browser.CollectPorts` | discovery.go:125-135 | The collector loop appends, in arrival order, exactly the normalised port of each announcement |
| `Browser.GetPorts` | discovery.go:109-148 | A failing resolver or browse yields that error and no ports; otherwise the result is the normalised announcements |
| `Prober.Probe` | discovery.go:86-99 | Port 80 is dialed first and port 22 exactly when 80 fails; the host is reachable iff one of the dialed ports answers |
| `Prober.Alive` | discovery.go:84-100 | The prune predicate holds of a port iff its host answers on port 80 or on port 22 |
| `Prober.PruneUnreachablePorts` | discovery.go:79-107 | Pruning never fails, returns a subsequence of its input, keeps a port iff it is in the input and answers on 80 or 22, and keeps every copy of an answering port and none of any other |
| `Prober.PruneKeepsLivePorts` | discovery.go:84-102 | When every host answers, pruning returns its input unchanged |
| `Reconciler.NotRediscovered` | discovery.go:57-64 | The identity scan says keep iff no fresh port has the same Name and the same FriendlyName |
| `Reconciler.Unmatched` | discovery.go:56-65 | The first filter's predicate holds of a port iff no fresh port has its key |
| `Reconciler.Retained` | discovery.go:56-65 | The first filter never grows the saved list, and no retained port shares a key with a fresh port |
| `Reconciler.RetainedSpec` | discovery.go:56-65 | The first filter keeps, in order, exactly the saved ports whose key no fresh port has, with every copy of each such port and none of any other |
| `Reconciler.Reconcile` | discovery.go:56-72 | A successful cycle's list is at least as long as the fresh ports, at most as long as saved plus fresh, and ends with the fresh ports exactly |
| `Reconciler.ReconcileShape` | discovery.go:56-72 | The final list ends with the fresh ports exactly and in order, and starts with the saved list filtered by "not rediscovered and reachable" |
| `Reconciler.ReconcileMembership` | discovery.go:56-72 | A saved port is kept iff no fresh port shares its key and its host answers; every other result entry is a fresh port |
| `Reconciler.ReconcileKeepsOrder` | discovery.go:56-72 | The kept part of the result is a subsequence of the saved list |
| `Reconciler.ReconcileSupersedes` | discovery.go:56-65 | A saved port whose key a fresh port has is never kept as a stale copy |
| `Reconciler.KeptPart` | discovery.go:56-72 | The result is a kept part followed by the fresh ports; the kept part is a subsequence of the saved list and shares no key with a fresh port |
| `Reconciler.ReconcileDuplicatesAreNew` | discovery.go:56-72 | If the saved list had unique keys, any two result entries with the same key both come from the fresh ports |
| `Reconciler.ReconcileUniqueKeys` | discovery.go:56-72 | Unique keys in the saved list and in the fresh ports give unique keys in the result |
| `Reconciler.NetworkDiscovery.constructor` | discovery.go:42 | The saved list starts empty |
| `Reconciler.NetworkDiscovery.GetNetworkList` | discovery.go:47-77 | On a discovery error, returns that error and leaves the saved list unchanged; otherwise the saved list becomes the reconciled list, which is also returned, and unique keys are preserved when the fresh ports have them |
| `Scenarios.UnreachableSavedPortIsDropped` | discovery.go:67 | A saved port that is not rediscovered and answers neither port is dropped |
| `Scenarios.SshOnlyPortIsKept` | discovery.go:89-96 | A saved port answering only on port 22 is kept, ahead of the fresh ports |
| `Scenarios.RediscoveredPortIsReplaced` | discovery.go:56-72 | A rediscovered Yun replaces its saved record, and the fresh record carries `"arduino:avr:yun"` |
| `Scenarios.FreshDuplicatesAreKept` | discovery.go:72 | Two fresh ports with the same key are both appended |
| `Scenarios.DiscoveryCycles` | discovery.go:47-77 | On the class: a cycle that rediscovers the saved Yun stores and returns its fresh record; a following cycle whose browse fails returns the error and leaves the saved list as it was |

## Left out

- The bonjour resolver, `Browse` and the multicast discovery protocol (discovery.go:110-114,
  139-143) belong to a foreign library. Only their outcome is modelled, as a `Discovery` value.
- Goroutines, channels, `time.Sleep`, the `select` and the `resolver.Exit` signal
  (discovery.go:116-127, 136, 144-148) exist only for concurrency and timing. The entries
  delivered before the two-second cutoff are the `Browsed` sequence. Which entries arrive in time
  is not modelled.
- `net.DialTimeout`, `conn.Close` and the five-second timeout are network I/O. The whole
  connection attempt, including joining `Name` with `":80"` or `":22"`, is the oracle `dial`.
- Timing bounds on a cycle are not modelled, because the model has no clock.
- Logging calls are side effects with no logic.
- The unreachable `return err == nil` after the unconditional return (discovery.go:101) has no
  effect.
- `Filter` and the full `OsSerialPort` record are defined outside this file. The model assumes a
  stable filter and keeps only the four fields used here.
- Errors: a Go `error` value is modelled as `DiscoveryError`, which records whether the resolver
  or the browse failed and carries the message. Go passes the library's error object through
  unchanged.
- Go's distinction between a nil and an empty slice is not modelled.
- The error return after pruning (discovery.go:68-70) appears in `GetNetworkList` only as a
  branch proved dead, because the prune never fails.
- Probes are an oracle fixed for the whole cycle, so repeated probes of one host within a cycle
  are assumed to agree. The Go code dials each entry separately (discovery.go:86, 90), possibly
  seconds apart, and two saved entries with the same host could get different answers.
- Go returns the same slice it stores in `SavedNetworkPorts` (discovery.go:72-76), so a caller
  that writes to the returned elements also changes the saved list. Dafny sequences are values,
  so this sharing is not modelled.
