/** The peer/track node registry of the call-kit demo's meeting screen: an
    ordered list of display nodes, one per (peer, track source) slot, rebuilt
    from the previous list on every peer or track event. Every operation takes
    the list and returns a new one. */
module PeerTrackNodes {
  import opened Wrappers
  import Seqs

  /** The SDK's track type; only `Video` tracks are stored in a newly created node. */
  datatype TrackType = Audio | Video

  /** A track as the registry sees it. `source` is the SDK's track source
      (regular, screen share, ...), which may be missing. */
  datatype Track = Track(trackId: string, source: Option<string>, trackType: TrackType)

  /** The peer snapshot a node holds; `name` stands for everything besides the
      identity and the local flag that an update refreshes. */
  datatype Peer = Peer(peerID: string, name: string, isLocal: bool)

  datatype PeerTrackNode = PeerTrackNode(id: string, peer: Peer, track: Option<Track>, isDegraded: bool)

  /** The SDK's regular track source. */
  const REGULAR: string := "regular"

  /** The source a node key is built from: the track's own, else the regular one. */
  function SourceOf(track: Option<Track>): string {
    match track
    case None => REGULAR
    case Some(t) => t.source.GetOr(REGULAR)
  }

  /** The identity key of the slot `track` occupies for `peer`. */
  function PeerTrackNodeId(peer: Peer, track: Option<Track>): (id: string)
    ensures peer.peerID <= id
    ensures (track.None? || track.value.source.None?) ==> id == peer.peerID + REGULAR
  {
    peer.peerID + SourceOf(track)
  }

  /** The key is determined by `peerID` and the track's source alone: two peers
      with one id, and two tracks with one source, get the same key. With
      `t2 := None` this says a missing track or source counts as the regular one. */
  lemma PeerTrackNodeIdDependsOnPeerIdAndSource(p: Peer, q: Peer, t1: Option<Track>, t2: Option<Track>)
    requires p.peerID == q.peerID && SourceOf(t1) == SourceOf(t2)
    ensures PeerTrackNodeId(p, t1) == PeerTrackNodeId(q, t2)
  {
  }

  /** Two slots of one peer with different sources get different keys. */
  lemma PeerTrackNodeIdSeparatesSources(peer: Peer, t1: Option<Track>, t2: Option<Track>)
    requires SourceOf(t1) != SourceOf(t2)
    ensures PeerTrackNodeId(peer, t1) != PeerTrackNodeId(peer, t2)
  {
    var n := |peer.peerID|;
    assert PeerTrackNodeId(peer, t1)[n..] == SourceOf(t1);
    assert PeerTrackNodeId(peer, t2)[n..] == SourceOf(t2);
  }

  /** A fresh node for `peer`; it keeps `track` only when that is a video track. */
  function CreatePeerTrackNode(peer: Peer, track: Option<Track>): (node: PeerTrackNode)
    ensures node.id == PeerTrackNodeId(peer, track)
    ensures node.peer == peer
    ensures node.track.Some? <==> track.Some? && track.value.trackType == Video
    ensures node.track.Some? ==> node.track == track
    ensures !node.isDegraded
  {
    var isVideoTrack := track.Some? && track.value.trackType == Video;
    PeerTrackNode(PeerTrackNodeId(peer, track), peer, if isVideoTrack then track else None, false)
  }

  predicate HasPeer(nodes: seq<PeerTrackNode>, peerID: string) {
    exists n :: n in nodes && n.peer.peerID == peerID
  }

  predicate HasId(nodes: seq<PeerTrackNode>, id: string) {
    exists n :: n in nodes && n.id == id
  }

  function IdOf(node: PeerTrackNode): string { node.id }

  /** No two nodes share an identity key. */
  ghost predicate DistinctIds(nodes: seq<PeerTrackNode>) {
    Seqs.DistinctBy(nodes, IdOf)
  }

  // ---------------------------------------------------------------- removal by peer

  function OfOtherPeer(peerID: string): PeerTrackNode -> bool {
    (n: PeerTrackNode) => n.peer.peerID != peerID
  }

  /** Drops every node of the peer `peerID`, whatever its track source. */
  function RemoveNodeWithPeerId(nodes: seq<PeerTrackNode>, peerID: string): (r: seq<PeerTrackNode>)
    ensures forall n | n in r :: n in nodes && n.peer.peerID != peerID
    ensures forall n | n in nodes && n.peer.peerID != peerID :: n in r
    ensures !HasPeer(r, peerID)
  {
    Seqs.Filter(nodes, OfOtherPeer(peerID))
  }

  lemma RemoveNodeWithPeerIdKeepsOrder(nodes: seq<PeerTrackNode>, peerID: string)
    ensures Seqs.SubsequenceOf(RemoveNodeWithPeerId(nodes, peerID), nodes)
  {
    Seqs.FilterIsSubsequence(nodes, OfOtherPeer(peerID));
  }

  /** Each node of another peer is kept with all its copies. */
  lemma RemoveNodeWithPeerIdKeepsCopies(nodes: seq<PeerTrackNode>, peerID: string)
    ensures forall n: PeerTrackNode | n.peer.peerID != peerID :: multiset(RemoveNodeWithPeerId(nodes, peerID))[n] == multiset(nodes)[n]
  {
    Seqs.FilterCounts(nodes, OfOtherPeer(peerID));
  }

  lemma RemoveNodeWithPeerIdIdempotent(nodes: seq<PeerTrackNode>, peerID: string)
    ensures RemoveNodeWithPeerId(RemoveNodeWithPeerId(nodes, peerID), peerID) == RemoveNodeWithPeerId(nodes, peerID)
  {
    Seqs.FilterIdempotent(nodes, OfOtherPeer(peerID));
  }

  /** A peer that has no node leaves the list as it was. */
  lemma RemoveNodeWithPeerIdMissIsNoOp(nodes: seq<PeerTrackNode>, peerID: string)
    requires !HasPeer(nodes, peerID)
    ensures RemoveNodeWithPeerId(nodes, peerID) == nodes
  {
    Seqs.FilterKeepsAll(nodes, OfOtherPeer(peerID));
  }

  lemma RemoveNodeWithPeerIdKeepsIdsDistinct(nodes: seq<PeerTrackNode>, peerID: string)
    requires DistinctIds(nodes)
    ensures DistinctIds(RemoveNodeWithPeerId(nodes, peerID))
  {
    Seqs.FilterKeepsDistinct(nodes, OfOtherPeer(peerID), IdOf);
  }

  // ---------------------------------------------------------------- update by peer

  function WithPeer(peer: Peer): PeerTrackNode -> PeerTrackNode {
    (n: PeerTrackNode) => if n.peer.peerID == peer.peerID then n.(peer := peer) else n
  }

  /** Refreshes the peer of every node of `peer.peerID`; when there is none and
      `createNew` holds, adds one track-less node for it, at the head for the
      local peer and at the tail otherwise. */
  function UpdateNodeWithPeer(nodes: seq<PeerTrackNode>, peer: Peer, createNew: bool): (r: seq<PeerTrackNode>)
    ensures HasPeer(nodes, peer.peerID) ==>
      |r| == |nodes| &&
      forall i :: 0 <= i < |nodes| ==>
        r[i].id == nodes[i].id && r[i].track == nodes[i].track && r[i].isDegraded == nodes[i].isDegraded &&
        r[i].peer == (if nodes[i].peer.peerID == peer.peerID then peer else nodes[i].peer)
    ensures !HasPeer(nodes, peer.peerID) && !createNew ==> r == nodes
    ensures !HasPeer(nodes, peer.peerID) && createNew && peer.isLocal ==>
      r == [CreatePeerTrackNode(peer, None)] + nodes
    ensures !HasPeer(nodes, peer.peerID) && createNew && !peer.isLocal ==>
      r == nodes + [CreatePeerTrackNode(peer, None)]
  {
    if HasPeer(nodes, peer.peerID) then Seqs.Map(nodes, WithPeer(peer))
    else if !createNew then nodes
    else if peer.isLocal then [CreatePeerTrackNode(peer, None)] + nodes
    else nodes + [CreatePeerTrackNode(peer, None)]
  }

  /** After an update that matched or created, the peer has a node and every
      node of that peer holds the new snapshot. */
  lemma UpdateNodeWithPeerRefreshesPeer(nodes: seq<PeerTrackNode>, peer: Peer, createNew: bool)
    requires HasPeer(nodes, peer.peerID) || createNew
    ensures HasPeer(UpdateNodeWithPeer(nodes, peer, createNew), peer.peerID)
    ensures forall n | n in UpdateNodeWithPeer(nodes, peer, createNew) && n.peer.peerID == peer.peerID :: n.peer == peer
  {
  }

  lemma UpdateNodeWithPeerIdempotent(nodes: seq<PeerTrackNode>, peer: Peer, createNew: bool)
    ensures UpdateNodeWithPeer(UpdateNodeWithPeer(nodes, peer, createNew), peer, createNew)
         == UpdateNodeWithPeer(nodes, peer, createNew)
  {
  }

  /** Ids stay distinct, provided that, when a node is created, the key it
      takes is not already held by a node of another peer. */
  lemma UpdateNodeWithPeerKeepsIdsDistinct(nodes: seq<PeerTrackNode>, peer: Peer, createNew: bool)
    requires DistinctIds(nodes)
    requires !HasPeer(nodes, peer.peerID) && createNew ==> !HasId(nodes, PeerTrackNodeId(peer, None))
    ensures DistinctIds(UpdateNodeWithPeer(nodes, peer, createNew))
  {
  }

  /** A peer that joined and then left leaves the other peers' nodes as they were. */
  lemma RemoveAfterUpdateNodeWithPeer(nodes: seq<PeerTrackNode>, peer: Peer, createNew: bool)
    ensures RemoveNodeWithPeerId(UpdateNodeWithPeer(nodes, peer, createNew), peer.peerID)
         == RemoveNodeWithPeerId(nodes, peer.peerID)
  {
    var keep := OfOtherPeer(peer.peerID);
    var c := CreatePeerTrackNode(peer, None);
    if HasPeer(nodes, peer.peerID) {
      Seqs.FilterAfterMap(nodes, WithPeer(peer), keep);
    } else if createNew && peer.isLocal {
      assert ([c] + nodes)[1..] == nodes;
    } else if createNew {
      FilterDropsLast(nodes, c, keep);
    }
  }

  // ---------------------------------------------------------------- removal by key

  function OfOtherSlot(id: string): PeerTrackNode -> bool {
    (n: PeerTrackNode) => n.id != id
  }

  /** Drops the nodes whose id is the key of (`peer`, `track`). */
  function RemoveNode(nodes: seq<PeerTrackNode>, peer: Peer, track: Option<Track>): (r: seq<PeerTrackNode>)
    ensures forall n | n in r :: n in nodes && n.id != PeerTrackNodeId(peer, track)
    ensures forall n | n in nodes && n.id != PeerTrackNodeId(peer, track) :: n in r
    ensures !HasId(r, PeerTrackNodeId(peer, track))
  {
    var uniqueId := PeerTrackNodeId(peer, track);
    Seqs.Filter(nodes, OfOtherSlot(uniqueId))
  }

  lemma RemoveNodeKeepsOrder(nodes: seq<PeerTrackNode>, peer: Peer, track: Option<Track>)
    ensures Seqs.SubsequenceOf(RemoveNode(nodes, peer, track), nodes)
    ensures DistinctIds(nodes) ==> DistinctIds(RemoveNode(nodes, peer, track))
  {
    var keep := OfOtherSlot(PeerTrackNodeId(peer, track));
    Seqs.FilterIsSubsequence(nodes, keep);
    if DistinctIds(nodes) {
      Seqs.FilterKeepsDistinct(nodes, keep, IdOf);
    }
  }

  /** Each node with another id is kept with all its copies. */
  lemma RemoveNodeKeepsCopies(nodes: seq<PeerTrackNode>, peer: Peer, track: Option<Track>)
    ensures forall n: PeerTrackNode | n.id != PeerTrackNodeId(peer, track) :: multiset(RemoveNode(nodes, peer, track))[n] == multiset(nodes)[n]
  {
    Seqs.FilterCounts(nodes, OfOtherSlot(PeerTrackNodeId(peer, track)));
  }

  lemma RemoveNodeIdempotent(nodes: seq<PeerTrackNode>, peer: Peer, track: Option<Track>)
    ensures RemoveNode(RemoveNode(nodes, peer, track), peer, track) == RemoveNode(nodes, peer, track)
  {
    Seqs.FilterIdempotent(nodes, OfOtherSlot(PeerTrackNodeId(peer, track)));
  }

  lemma RemoveNodeMissIsNoOp(nodes: seq<PeerTrackNode>, peer: Peer, track: Option<Track>)
    requires !HasId(nodes, PeerTrackNodeId(peer, track))
    ensures RemoveNode(nodes, peer, track) == nodes
  {
    Seqs.FilterKeepsAll(nodes, OfOtherSlot(PeerTrackNodeId(peer, track)));
  }

  // ---------------------------------------------------------------- track removal

  function WithoutTrack(id: string, peer: Peer): PeerTrackNode -> PeerTrackNode {
    (n: PeerTrackNode) => if n.id == id then n.(peer := peer, track := None) else n
  }

  /** Clears the track of the node(s) keyed by (`peer`, `track`) and refreshes
      their peer; the nodes themselves stay where they are. */
  function RemoveTrackFromNodes(nodes: seq<PeerTrackNode>, peer: Peer, track: Option<Track>): (r: seq<PeerTrackNode>)
    ensures |r| == |nodes|
    ensures forall i :: 0 <= i < |nodes| ==> r[i].id == nodes[i].id && r[i].isDegraded == nodes[i].isDegraded
    ensures forall i :: 0 <= i < |nodes| && nodes[i].id == PeerTrackNodeId(peer, track) ==>
      r[i].track.None? && r[i].peer == peer
    ensures forall i :: 0 <= i < |nodes| && nodes[i].id != PeerTrackNodeId(peer, track) ==> r[i] == nodes[i]
  {
    var uniqueId := PeerTrackNodeId(peer, track);
    Seqs.Map(nodes, WithoutTrack(uniqueId, peer))
  }

  lemma RemoveTrackFromNodesKeepsIds(nodes: seq<PeerTrackNode>, peer: Peer, track: Option<Track>)
    ensures Seqs.Map(RemoveTrackFromNodes(nodes, peer, track), IdOf) == Seqs.Map(nodes, IdOf)
    ensures DistinctIds(nodes) ==> DistinctIds(RemoveTrackFromNodes(nodes, peer, track))
  {
    var r := RemoveTrackFromNodes(nodes, peer, track);
    assert forall i :: 0 <= i < |r| ==> IdOf(r[i]) == IdOf(nodes[i]);
  }

  lemma RemoveTrackFromNodesMissIsNoOp(nodes: seq<PeerTrackNode>, peer: Peer, track: Option<Track>)
    requires !HasId(nodes, PeerTrackNodeId(peer, track))
    ensures RemoveTrackFromNodes(nodes, peer, track) == nodes
  {
  }

  // ---------------------------------------------------------------- update by key

  function Refreshed(id: string, peer: Peer, track: Option<Track>, isDegraded: Option<bool>): PeerTrackNode -> PeerTrackNode {
    (n: PeerTrackNode) =>
      if n.id == id then n.(peer := peer, track := track, isDegraded := isDegraded.GetOr(n.isDegraded)) else n
  }

  /** Sets peer, track and (when given) the degraded flag of the node(s) keyed by
      (`peer`, `track`); when there is none and `createNew` holds, adds a fresh
      node for them, at the head for the local peer and at the tail otherwise. */
  function UpdateNode(nodes: seq<PeerTrackNode>, peer: Peer, track: Option<Track>, isDegraded: Option<bool>,
                      createNew: bool): (r: seq<PeerTrackNode>)
    ensures HasId(nodes, PeerTrackNodeId(peer, track)) ==>
      |r| == |nodes| &&
      forall i :: 0 <= i < |nodes| ==> r[i].id == nodes[i].id
    ensures HasId(nodes, PeerTrackNodeId(peer, track)) ==>
      forall i :: 0 <= i < |nodes| && nodes[i].id == PeerTrackNodeId(peer, track) ==>
        r[i].peer == peer && r[i].track == track &&
        r[i].isDegraded == (if isDegraded.Some? then isDegraded.value else nodes[i].isDegraded)
    ensures HasId(nodes, PeerTrackNodeId(peer, track)) ==>
      forall i :: 0 <= i < |nodes| && nodes[i].id != PeerTrackNodeId(peer, track) ==> r[i] == nodes[i]
    ensures !HasId(nodes, PeerTrackNodeId(peer, track)) && !createNew ==> r == nodes
    ensures !HasId(nodes, PeerTrackNodeId(peer, track)) && createNew && peer.isLocal ==>
      r == [CreatePeerTrackNode(peer, track)] + nodes
    ensures !HasId(nodes, PeerTrackNodeId(peer, track)) && createNew && !peer.isLocal ==>
      r == nodes + [CreatePeerTrackNode(peer, track)]
  {
    var uniqueId := PeerTrackNodeId(peer, track);
    if HasId(nodes, uniqueId) then Seqs.Map(nodes, Refreshed(uniqueId, peer, track, isDegraded))
    else if !createNew then nodes
    else if peer.isLocal then [CreatePeerTrackNode(peer, track)] + nodes
    else nodes + [CreatePeerTrackNode(peer, track)]
  }

  lemma UpdateNodeKeepsIdsDistinct(nodes: seq<PeerTrackNode>, peer: Peer, track: Option<Track>,
                                   isDegraded: Option<bool>, createNew: bool)
    requires DistinctIds(nodes)
    ensures DistinctIds(UpdateNode(nodes, peer, track, isDegraded, createNew))
  {
  }

  /** After an update that matched or created, the slot's node is in the list. */
  lemma UpdateNodeKeyPresent(nodes: seq<PeerTrackNode>, peer: Peer, track: Option<Track>,
                             isDegraded: Option<bool>, createNew: bool)
    requires HasId(nodes, PeerTrackNodeId(peer, track)) || createNew
    ensures HasId(UpdateNode(nodes, peer, track, isDegraded, createNew), PeerTrackNodeId(peer, track))
  {
  }

  /** Repeating an update changes nothing more, unless the first call created a
      node: creation drops a non-video track and starts with `isDegraded` false,
      while an update stores whatever track and flag it is given. */
  lemma UpdateNodeIdempotent(nodes: seq<PeerTrackNode>, peer: Peer, track: Option<Track>,
                             isDegraded: Option<bool>, createNew: bool)
    requires !HasId(nodes, PeerTrackNodeId(peer, track)) && createNew ==>
      (track.None? || track.value.trackType == Video) && isDegraded != Some(true)
    ensures UpdateNode(UpdateNode(nodes, peer, track, isDegraded, createNew), peer, track, isDegraded, createNew)
         == UpdateNode(nodes, peer, track, isDegraded, createNew)
  {
  }

  /** The converse of `UpdateNodeIdempotent`: when the first call creates a node
      from a non-video track, or with the flag `true`, the created node has no
      track and a false flag, so a second call finds it and changes it. */
  lemma UpdateNodeNotIdempotentOnCreation(nodes: seq<PeerTrackNode>, peer: Peer, track: Option<Track>,
                                          isDegraded: Option<bool>)
    requires !HasId(nodes, PeerTrackNodeId(peer, track))
    requires (track.Some? && track.value.trackType != Video) || isDegraded == Some(true)
    ensures UpdateNode(UpdateNode(nodes, peer, track, isDegraded, true), peer, track, isDegraded, true)
         != UpdateNode(nodes, peer, track, isDegraded, true)
  {
    var c := CreatePeerTrackNode(peer, track);
    var r1 := UpdateNode(nodes, peer, track, isDegraded, true);
    var k := if peer.isLocal then 0 else |nodes|;
    assert r1[k] == c;
    assert HasId(r1, PeerTrackNodeId(peer, track));
    var r2 := UpdateNode(r1, peer, track, isDegraded, true);
    assert r2[k].track == track && r2[k].isDegraded == isDegraded.GetOr(c.isDegraded);
  }

  /** A track that was added and then removed leaves the other slots as they were. */
  lemma RemoveNodeAfterUpdateNode(nodes: seq<PeerTrackNode>, peer: Peer, track: Option<Track>,
                                  isDegraded: Option<bool>, createNew: bool)
    ensures RemoveNode(UpdateNode(nodes, peer, track, isDegraded, createNew), peer, track)
         == RemoveNode(nodes, peer, track)
  {
    var key := PeerTrackNodeId(peer, track);
    var keep := OfOtherSlot(key);
    var c := CreatePeerTrackNode(peer, track);
    if HasId(nodes, key) {
      Seqs.FilterAfterMap(nodes, Refreshed(key, peer, track, isDegraded), keep);
    } else if createNew && peer.isLocal {
      assert ([c] + nodes)[1..] == nodes;
    } else if createNew {
      FilterDropsLast(nodes, c, keep);
    }
  }

  // ---------------------------------------------------------------- helpers

  lemma {:induction false} FilterDropsLast(nodes: seq<PeerTrackNode>, c: PeerTrackNode, keep: PeerTrackNode -> bool)
    requires !keep(c)
    ensures Seqs.Filter(nodes + [c], keep) == Seqs.Filter(nodes, keep)
  {
    if nodes == [] {
      assert Seqs.Filter([c], keep) == Seqs.Filter([c][1..], keep);
    } else {
      FilterDropsLast(nodes[1..], c, keep);
      assert (nodes + [c])[1..] == nodes[1..] + [c];
    }
  }
}
