/**
 * The service browser (`getPorts`): turns the announcements collected during
 * the discovery window into ports. The resolver, the browse itself and the
 * timing are the collaborator's business; what reaches this module is the
 * outcome of one pass, as a `Discovery` value.
 */
module Browser {
  import opened Seqs
  import opened Ports

  /** The text marker that identifies a Yun board, and the board identifier it maps to. */
  const YunMarker: string := "board=yun"
  const YunBoard: string := "arduino:avr:yun"

  /** What one pass of the bonjour collaborator yields. */
  datatype Discovery =
    | ResolverUnavailable(message: string)   // the resolver could not be created
    | BrowseRejected(message: string)        // the browse request for the service type failed
    | Browsed(entries: seq<ServiceEntry>)    // entries received before the cutoff, in arrival order

  /** `sub` occurs in `s` starting at position `i`. */
  predicate OccursAt(s: string, sub: string, i: nat)
  {
    i + |sub| <= |s| && s[i..i + |sub|] == sub
  }

  /** Go's `strings.Contains`: `sub` occurs somewhere in `s` (the empty string occurs everywhere). */
  function Contains(s: string, sub: string): (b: bool)
    ensures b <==> exists i: nat :: OccursAt(s, sub, i)
    decreases |s|
  {
    if |sub| > |s| then false
    else if s[..|sub|] == sub then assert OccursAt(s, sub, 0); true
    else
      var b := Contains(s[1..], sub);
      assert forall i: nat :: OccursAt(s[1..], sub, i) <==> OccursAt(s, sub, i + 1);
      assert !OccursAt(s, sub, 0);
      assert forall i: nat :: OccursAt(s, sub, i) ==> i == 0 || OccursAt(s[1..], sub, i - 1);
      b
  }

  /** A text field marks the announcement as coming from a Yun. */
  predicate MarksYun(field: string)
    ensures MarksYun(field) <==> exists i: nat :: OccursAt(field, YunMarker, i)
  {
    Contains(field, YunMarker)
  }

  /** The board identifiers the fields of `text` give, field by field (the inner loop's meaning). */
  function RelatedNames(text: seq<string>): (names: seq<string>)
    ensures |names| <= |text|
    ensures forall i :: 0 <= i < |names| ==> names[i] == YunBoard
  {
    if text == [] then []
    else RelatedNames(text[..|text| - 1]) + (if MarksYun(text[|text| - 1]) then [YunBoard] else [])
  }

  /** One Yun identifier per marked field, and nothing else. */
  lemma {:induction false} RelatedNamesCount(text: seq<string>)
    ensures RelatedNames(text) == seq(|Filter(text, MarksYun)|, _ => YunBoard)
  {
    if text != [] {
      var init, last := text[..|text| - 1], text[|text| - 1];
      assert text == init + [last];
      RelatedNamesCount(init);
      FilterConcat(init, [last], MarksYun);
    }
  }

  /** No identifier at all exactly when no field carries the marker. */
  lemma RelatedNamesEmpty(text: seq<string>)
    ensures RelatedNames(text) == [] <==> forall i :: 0 <= i < |text| ==> !MarksYun(text[i])
  {
    RelatedNamesCount(text);
    var marked := Filter(text, MarksYun);
    if marked != [] {
      FilterMembership(text, MarksYun, marked[0]);
      assert |RelatedNames(text)| > 0;
    } else {
      forall i | 0 <= i < |text| ensures !MarksYun(text[i]) {
        FilterMembership(text, MarksYun, text[i]);
      }
      assert RelatedNames(text) == [];
    }
  }

  /** The port an announcement becomes: its address and instance name, flagged as a
      network port, with one Yun identifier per text field that carries the marker. */
  function Normalized(e: ServiceEntry): (p: Port)
    ensures p.name == e.addrIPv4 && p.friendlyName == e.instance && p.networkPort
    ensures p.relatedNames == seq(|Filter(e.text, MarksYun)|, _ => YunBoard)
  {
    RelatedNamesCount(e.text);
    Port(e.addrIPv4, e.instance, true, RelatedNames(e.text))
  }

  /** The ports a sequence of announcements becomes, one each, in arrival order. */
  function NormalizedAll(entries: seq<ServiceEntry>): (ports: seq<Port>)
    ensures |ports| == |entries|
    ensures forall i :: 0 <= i < |entries| ==> ports[i] == Normalized(entries[i])
  {
    if entries == [] then [] else [Normalized(entries[0])] + NormalizedAll(entries[1..])
  }

  /** The body of the collector loop: builds the related names field by field. */
  method NormalizeEntry(e: ServiceEntry) returns (p: Port)
    ensures p == Normalized(e)
  {
    var boardInfos: seq<string> := [];
    for i := 0 to |e.text|
      invariant boardInfos == RelatedNames(e.text[..i])
    {
      assert e.text[..i + 1][..i] == e.text[..i];
      if Contains(e.text[i], YunMarker) {
        boardInfos := boardInfos + [YunBoard];
      }
    }
    assert e.text[..|e.text|] == e.text;
    p := Port(e.addrIPv4, e.instance, true, boardInfos);
  }

  /** The collector: appends one port per announcement, in arrival order. */
  method CollectPorts(entries: seq<ServiceEntry>) returns (ports: seq<Port>)
    ensures ports == NormalizedAll(entries)
  {
    ports := [];
    for i := 0 to |entries|
      invariant ports == NormalizedAll(entries[..i])
    {
      var p := NormalizeEntry(entries[i]);
      ports := ports + [p];
    }
    assert entries[..|entries|] == entries;
  }

  /** `getPorts`: a failed resolver or browse is reported as an error and yields no ports. */
  method GetPorts(discovery: Discovery) returns (r: Result<seq<Port>>)
    ensures r.Success? <==> discovery.Browsed?
    ensures discovery.ResolverUnavailable? ==> r == Failure(ResolverInitFailed(discovery.message))
    ensures discovery.BrowseRejected? ==> r == Failure(BrowseFailed(discovery.message))
    ensures discovery.Browsed? ==> r.value == NormalizedAll(discovery.entries)
  {
    match discovery
    case ResolverUnavailable(message) =>
      r := Failure(ResolverInitFailed(message));
    case BrowseRejected(message) =>
      r := Failure(BrowseFailed(message));
    case Browsed(entries) =>
      var ports := CollectPorts(entries);
      r := Success(ports);
  }
}
