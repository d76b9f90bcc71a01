/**
 Recovery from the chain: a funding transaction with a marker, and the frames its
 ancestors publish, found by walking back one input at a time.
 */
module Discovery {
  import opened RecordStore
  import opened FilterFraming
  import opened Publication

  /** What the one data output of a transaction holds, if it has exactly one that is standard. */
  datatype Data = NoData | FrameData(bytes: Bytes) | MarkerData(marker: Marker)

  /** A transaction id is the transaction itself: txids are injective. */
  datatype Tx = Tx(inputs: seq<OutPoint>, data: Data, coinbase: bool, rest: nat)

  datatype OutPoint = OutPoint(parent: Tx, vout: nat)

  /**
   What libraries decide: the anchor script of a spend that verifies (a standard
   output, its witness and its signature), and whether a transaction pays a
   contract exactly once.
   */
  datatype Checks = Checks(anchor: (Tx, Tx) -> Option<int>, pays: (Tx, Htlc) -> bool, point: Bytes -> bool)

  datatype Contract = Contract(terms: Terms, side: Side, anchor: int)

  /** The bytes of the data output, as frames are read. */
  function FrameOf(tx: Tx): Option<Bytes> {
    match tx.data
    case FrameData(b) => Some(b)
    case _ => None
  }

  predicate Linked(parent: Tx, child: Tx) {
    |child.inputs| == 1 && child.inputs[0].parent == parent
  }

  predicate HasMarker(tx: Tx) {
    tx.data.MarkerData? && tx.data.marker.Marker? && tx.data.marker.magic == MARKER_MAGIC
  }

  // ---- Recovering from an ordered list of ancestors ------------------------------------------------

  /** The transaction that spends the `i`th ancestor. */
  function Child(ancestors: seq<Tx>, funding: Tx, i: nat): Tx
    requires i < |ancestors|
  {
    if i + 1 < |ancestors| then ancestors[i + 1] else funding
  }

  predicate AncestorOk(ancestors: seq<Tx>, i: nat)
    requires i < |ancestors|
  {
    ancestors[i].inputs != [] && !ancestors[i].coinbase && ancestors[i].data.FrameData?
  }

  predicate LinkOk(c: Checks, ancestors: seq<Tx>, funding: Tx, i: nat)
    requires i < |ancestors|
  {
    var child := Child(ancestors, funding, i);
    && Linked(ancestors[i], child) && c.anchor(ancestors[i], child).Some?
    && c.anchor(ancestors[i], child) == c.anchor(ancestors[0], Child(ancestors, funding, 0))
  }

  function DataBytes(tx: Tx): Bytes {
    if tx.data.FrameData? then tx.data.bytes else []
  }

  function FramesOf(ancestors: seq<Tx>): (r: seq<Bytes>)
    ensures |r| == |ancestors| && forall i | 0 <= i < |r| :: r[i] == DataBytes(ancestors[i])
  {
    seq(|ancestors|, i requires 0 <= i < |ancestors| => DataBytes(ancestors[i]))
  }

  /** `recover_bitcoin_contract_from_ancestors`. */
  function Recover(c: Checks, network: Network, funding: Tx, ancestors: seq<Tx>): Option<Contract> {
    if ancestors == [] || |ancestors| > MAX_FRAMES then None
    else if exists i | 0 <= i < |ancestors| :: !AncestorOk(ancestors, i) then None
    else if exists i | 0 <= i < |ancestors| :: !LinkOk(c, ancestors, funding, i) then None
    else if !funding.data.MarkerData? then None
    else
      assert LinkOk(c, ancestors, funding, 0);
      match DecodePublication(network, Bitcoin, funding.data.marker, FramesOf(ancestors), c.point)
      case Err(_) => None
      case Ok(p) =>
        if !c.pays(funding, HtlcOf(p.terms, p.side)) then None
        else Some(Contract(p.terms, p.side, c.anchor(ancestors[0], Child(ancestors, funding, 0)).value))
  }

  // ---- The backward walk ------------------------------------------------------------------------------

  /** The parent the walk goes on to, if it is known and carries something framed. */
  function StepBack(graph: set<Tx>, child: Tx): Option<Tx> {
    if |child.inputs| != 1 || child.inputs[0].parent !in graph then None
    else
      var parent := child.inputs[0].parent;
      match FrameOf(parent)
      case None => None
      case Some(f) => if |f| < 4 || f[..2] != FRAME_MAGIC then None else Some(parent)
  }

  /** The ancestors found in at most `fuel` steps, oldest first; the walk stops at a first frame. */
  function Walked(graph: set<Tx>, child: Tx, fuel: nat): seq<Tx>
    decreases fuel
  {
    if fuel == 0 then []
    else
      match StepBack(graph, child)
      case None => []
      case Some(parent) =>
        (if FrameOf(parent).value[2] == 0 then [] else Walked(graph, parent, fuel - 1)) + [parent]
  }

  lemma WalkedStep(graph: set<Tx>, child: Tx, fuel: nat, found: seq<Tx>)
    requires fuel > 0
    ensures StepBack(graph, child).None? ==> Walked(graph, child, fuel) == []
    ensures StepBack(graph, child).Some? ==>
              var parent := StepBack(graph, child).value;
              && FrameOf(parent).Some? && |FrameOf(parent).value| >= 4
              && Walked(graph, child, fuel) + Reverse(found) ==
                 (if FrameOf(parent).value[2] == 0 then [] else Walked(graph, parent, fuel - 1)) + Reverse(found + [parent])
  {
    if StepBack(graph, child).Some? {
      var parent := StepBack(graph, child).value;
      var rest := if FrameOf(parent).value[2] == 0 then [] else Walked(graph, parent, fuel - 1);
      ReverseOne(found, parent);
      hide Reverse;
      assert rest + [parent] + Reverse(found) == rest + ([parent] + Reverse(found));
    }
  }

  /** The walk of `discover_bitcoin_recovery_contracts`, newest first, then reversed. */
  method WalkBack(graph: set<Tx>, funding: Tx) returns (ancestors: seq<Tx>)
    ensures ancestors == Walked(graph, funding, MAX_FRAMES)
  {
    ghost var whole := Walked(graph, funding, MAX_FRAMES);
    var found: seq<Tx> := [];
    assert Reverse(found) == [] && whole + [] == whole;
    hide Walked; hide StepBack; hide Reverse;
    var child := funding;
    var i := 0;
    var stopped := false;
    while i < MAX_FRAMES && !stopped
      invariant 0 <= i <= MAX_FRAMES
      invariant whole == (if stopped then [] else Walked(graph, child, MAX_FRAMES - i)) + Reverse(found)
      decreases MAX_FRAMES - i + (if stopped then 0 else 1)
    {
      WalkedStep(graph, child, MAX_FRAMES - i, found);
      var parent := StepBack(graph, child);
      if parent.None? {
        stopped := true;
      } else {
        found := found + [parent.value];
        stopped := FrameOf(parent.value).value[2] == 0;
        child := parent.value;
        i := i + 1;
      }
    }
    NoFuel(graph, child);
    ancestors := Reverse(found);
    assert [] + Reverse(found) == Reverse(found);
  }

  lemma NoFuel(graph: set<Tx>, child: Tx)
    ensures Walked(graph, child, 0) == []
  {
  }

  function Reverse(s: seq<Tx>): seq<Tx> {
    if s == [] then [] else Reverse(s[1..]) + [s[0]]
  }

  lemma {:induction false} ReverseOne(s: seq<Tx>, x: Tx)
    ensures Reverse(s + [x]) == [x] + Reverse(s)
    decreases |s|
  {
    if s == [] {
      assert ([] + [x])[1..] == [];
      assert Reverse([x]) == Reverse([x][1..]) + [x];
    } else {
      ReverseOne(s[1..], x);
      assert (s + [x])[1..] == s[1..] + [x];
    }
  }

  // ---- Packages -----------------------------------------------------------------------------------------

  /** A linear package: the ancestors carry the frames of a publication in order, each spent by the next. */
  ghost predicate IsPackage(c: Checks, ancestors: seq<Tx>, funding: Tx, t: Terms, side: Side) {
    && ancestors != [] && Sized(t) && Valid(t, c.point) && HtlcOf(t, side).chain == Bitcoin
    && FromTerms(t, side, c.point).Ok?
    && var p := FromTerms(t, side, c.point).value;
       && |ancestors| == |p.frames|
       && (forall i | 0 <= i < |ancestors| :: Carries(ancestors, p.frames, i) && LinkOk(c, ancestors, funding, i))
       && funding.data == MarkerData(p.marker)
       && c.pays(funding, HtlcOf(t, side))
  }

  predicate Carries(ancestors: seq<Tx>, frames: seq<Bytes>, i: nat)
    requires |ancestors| == |frames| && i < |frames|
  {
    AncestorOk(ancestors, i) && ancestors[i].data == FrameData(frames[i])
  }

  /** Frame `i` of a publication on Bitcoin is well framed and numbered `i`. */
  lemma PublishedFrame(t: Terms, side: Side, point: Bytes -> bool, i: nat)
    requires Sized(t) && Valid(t, point) && HtlcOf(t, side).chain == Bitcoin && FromTerms(t, side, point).Ok?
    requires i < |FromTerms(t, side, point).value.frames|
    ensures var f := FromTerms(t, side, point).value.frames[i];
            |f| > 4 && f[..2] == FRAME_MAGIC && f[2] == i
  {
    TermsRoundTrip(t, point);
    FrameShape(Encode(t), 76, i);
  }

  lemma {:induction false} WalkCollects(graph: set<Tx>, c: Checks, ancestors: seq<Tx>, funding: Tx, t: Terms, side: Side, n: nat, fuel: nat)
    requires IsPackage(c, ancestors, funding, t, side) && 0 < n <= |ancestors| && n <= fuel
    requires forall i | 0 <= i < |ancestors| :: ancestors[i] in graph
    ensures Walked(graph, Child(ancestors, funding, n - 1), fuel) == ancestors[..n]
    decreases n
  {
    var frames := FromTerms(t, side, c.point).value.frames;
    var parent, child := ancestors[n - 1], Child(ancestors, funding, n - 1);
    assert Carries(ancestors, frames, n - 1) && LinkOk(c, ancestors, funding, n - 1);
    PublishedFrame(t, side, c.point, n - 1);
    assert StepBack(graph, child) == Some(parent);
    hide IsPackage;
    assert ancestors[..n] == ancestors[..n - 1] + [parent];
    if n > 1 {
      WalkCollects(graph, c, ancestors, funding, t, side, n - 1, fuel - 1);
    }
  }

  /** A list of ancestors that is recovered carries the frames it publishes. */
  lemma RecoverPackage(c: Checks, ancestors: seq<Tx>, funding: Tx, t: Terms, side: Side)
    requires IsPackage(c, ancestors, funding, t, side)
    ensures var r := Recover(c, t.network, funding, ancestors);
            r.Some? && r.value.terms == t && r.value.side == side
  {
    var p := FromTerms(t, side, c.point).value;
    DecodeInvertsFromTerms(t, side, c.point);
    hide FromTerms; hide DecodePublication; hide Valid; hide Sized;
    forall i | 0 <= i < |ancestors| ensures AncestorOk(ancestors, i) && ancestors[i].data == FrameData(p.frames[i]) {
      assert Carries(ancestors, p.frames, i);
    }
    assert LinkOk(c, ancestors, funding, 0);
    assert FramesOf(ancestors) == p.frames;
  }

  /**
   In any graph that holds a linear package, the walk from the funding transaction
   collects exactly its ordered ancestors, and recovery gives back the published
   terms and side.
   */
  lemma DiscoveryInvertsConstruction(graph: set<Tx>, c: Checks, ancestors: seq<Tx>, funding: Tx, t: Terms, side: Side)
    requires IsPackage(c, ancestors, funding, t, side)
    requires forall i | 0 <= i < |ancestors| :: ancestors[i] in graph
    ensures Walked(graph, funding, MAX_FRAMES) == ancestors
    ensures var r := Recover(c, t.network, funding, Walked(graph, funding, MAX_FRAMES));
            r.Some? && r.value.terms == t && r.value.side == side
  {
    RecoverPackage(c, ancestors, funding, t, side);
    DecodeInvertsFromTerms(t, side, c.point);
    WalkCollects(graph, c, ancestors, funding, t, side, |ancestors|, MAX_FRAMES);
    assert ancestors[..|ancestors|] == ancestors;
  }

  // ---- Nothing else is accepted -------------------------------------------------------------------------------

  lemma RecoveredLinks(c: Checks, network: Network, funding: Tx, ancestors: seq<Tx>, i: nat)
    requires Recover(c, network, funding, ancestors).Some? && i < |ancestors|
    ensures AncestorOk(ancestors, i) && Linked(ancestors[i], Child(ancestors, funding, i))
  {
    hide DecodePublication;
    assert LinkOk(c, ancestors, funding, i);
  }

  /** Two accepted lists agree from the funding transaction backwards, as far as both go. */
  lemma {:induction false} SameFromTheEnd(c: Checks, network: Network, funding: Tx, a: seq<Tx>, b: seq<Tx>, k: nat)
    requires Recover(c, network, funding, a).Some? && Recover(c, network, funding, b).Some?
    requires k < |a| && k < |b|
    ensures a[|a| - 1 - k] == b[|b| - 1 - k]
    decreases k
  {
    hide Recover; hide AncestorOk;
    RecoveredLinks(c, network, funding, a, |a| - 1 - k);
    RecoveredLinks(c, network, funding, b, |b| - 1 - k);
    if k > 0 { SameFromTheEnd(c, network, funding, a, b, k - 1); }
  }

  /** An accepted list has as many ancestors as its marker's publication has frames. */
  lemma RecoveredLength(c: Checks, network: Network, funding: Tx, a: seq<Tx>)
    requires Recover(c, network, funding, a).Some?
    ensures |a| == 3
  {
    forall i | 0 <= i < |a| ensures AncestorOk(a, i) { RecoveredLinks(c, network, funding, a, i); }
    AcceptedIsPublished(network, Bitcoin, funding.data.marker, FramesOf(a), c.point);
    hide DecodePublication;
    var p := DecodePublication(network, Bitcoin, funding.data.marker, FramesOf(a), c.point).value;
    DecodeInvertsFromTerms(p.terms, p.side, c.point);
    hide FromTerms;
  }

  /**
   For one funding transaction at most one list of ancestors is ever accepted, so
   that any list with an ancestor dropped, reordered or substituted is rejected.
   */
  lemma OnlyOneListAccepted(c: Checks, network: Network, funding: Tx, a: seq<Tx>, b: seq<Tx>)
    requires Recover(c, network, funding, a).Some? && Recover(c, network, funding, b).Some?
    ensures a == b
  {
    RecoveredLength(c, network, funding, a);
    RecoveredLength(c, network, funding, b);
    forall i | 0 <= i < |a| ensures a[i] == b[i] {
      SameFromTheEnd(c, network, funding, a, b, |a| - 1 - i);
    }
  }

  /** Every list other than the package's own is rejected. */
  lemma OtherListsRejected(c: Checks, ancestors: seq<Tx>, funding: Tx, t: Terms, side: Side, other: seq<Tx>)
    requires IsPackage(c, ancestors, funding, t, side) && other != ancestors
    ensures Recover(c, t.network, funding, other).None?
  {
    RecoverPackage(c, ancestors, funding, t, side);
    if Recover(c, t.network, funding, other).Some? { OnlyOneListAccepted(c, t.network, funding, ancestors, other); }
  }

  /** The list a package leaves behind is accepted exactly when it is a package for some terms. */
  lemma AcceptedIffPackage(c: Checks, network: Network, funding: Tx, ancestors: seq<Tx>)
    ensures Recover(c, network, funding, ancestors).Some? <==>
              exists t: Terms, side: Side :: t.network == network && IsPackage(c, ancestors, funding, t, side)
  {
    if Recover(c, network, funding, ancestors).Some? {
      var contract := Recover(c, network, funding, ancestors).value;
      AcceptedIsPackage(c, network, funding, ancestors);
      assert IsPackage(c, ancestors, funding, contract.terms, contract.side);
    }
    if t: Terms, side: Side :| t.network == network && IsPackage(c, ancestors, funding, t, side) {
      RecoverPackage(c, ancestors, funding, t, side);
    }
  }

  lemma AcceptedIsPackage(c: Checks, network: Network, funding: Tx, ancestors: seq<Tx>)
    requires Recover(c, network, funding, ancestors).Some?
    ensures var contract := Recover(c, network, funding, ancestors).value;
            contract.terms.network == network && IsPackage(c, ancestors, funding, contract.terms, contract.side)
  {
    forall i | 0 <= i < |ancestors| ensures AncestorOk(ancestors, i) && LinkOk(c, ancestors, funding, i) {
      RecoveredLinks(c, network, funding, ancestors, i);
    }
    AcceptedIsPublished(network, Bitcoin, funding.data.marker, FramesOf(ancestors), c.point);
    var p := DecodePublication(network, Bitcoin, funding.data.marker, FramesOf(ancestors), c.point).value;
    hide DecodePublication; hide FromTerms; hide Valid; hide Sized;
    assert Recover(c, network, funding, ancestors).value.terms == p.terms;
    forall i | 0 <= i < |ancestors| ensures Carries(ancestors, FramesOf(ancestors), i) { }
  }

  // ---- The search ------------------------------------------------------------------------------------------------

  datatype Found = Found(funding: Tx, contract: Contract)

  /** A marked transaction whose walk recovers a contract anchored at the wallet's own script. */
  predicate Discovers(c: Checks, network: Network, graph: set<Tx>, own: int, x: Found) {
    && HasMarker(x.funding) && x.contract.anchor == own
    && Recover(c, network, x.funding, Walked(graph, x.funding, MAX_FRAMES)) == Some(x.contract)
  }

  /** `discover_bitcoin_recovery_contracts`: exactly the contracts of the graph; anything malformed is passed over. */
  method Discover(c: Checks, network: Network, graph: set<Tx>, own: int) returns (found: seq<Found>)
    ensures forall x :: x in found <==> x.funding in graph && Discovers(c, network, graph, own, x)
  {
    hide Recover; hide Walked; hide HasMarker;
    found := [];
    var left := graph;
    while left != {}
      invariant left <= graph
      invariant forall x :: x in found <==> x.funding in graph - left && Discovers(c, network, graph, own, x)
      decreases left
    {
      var tx :| tx in left;
      if HasMarker(tx) {
        var ancestors := WalkBack(graph, tx);
        var contract := Recover(c, network, tx, ancestors);
        if contract.Some? && contract.value.anchor == own {
          assert Discovers(c, network, graph, own, Found(tx, contract.value));
          found := found + [Found(tx, contract.value)];
        }
      }
      left := left - {tx};
    }
  }

  /** Every package in the graph that is anchored at the wallet's script is found, with its terms and side. */
  lemma PackageIsDiscovered(graph: set<Tx>, c: Checks, ancestors: seq<Tx>, funding: Tx, t: Terms, side: Side, own: int)
    requires IsPackage(c, ancestors, funding, t, side) && c.anchor(ancestors[0], Child(ancestors, funding, 0)) == Some(own)
    requires forall i | 0 <= i < |ancestors| :: ancestors[i] in graph
    ensures Discovers(c, t.network, graph, own, Found(funding, Contract(t, side, own)))
  {
    DiscoveryInvertsConstruction(graph, c, ancestors, funding, t, side);
    hide Walked; hide DecodePublication; hide Valid; hide Sized;
  }
}
