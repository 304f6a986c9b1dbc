# Peer/track node registry and iOS lookup helpers

A Dafny model of two small pieces of a React Native binding for a conferencing SDK.

- **`PeerTrackNodes`** (`peer_track_nodes.dfy`) models the node registry of the call-kit demo's meeting
  screen (`sample-apps/rnhms-callkeep-demo/src/screens/MeetingScreen/utils.js`). The registry is an
  ordered list of `PeerTrackNode` records `{id, peer, track?, isDegraded}`. Each node's key is
  `peerID` followed by the track source, or `"regular"` when there is no track or source. Every
  operation is a function from the old list (and an event's peer/track) to a new list. The lemmas
  cover several things: which nodes each operation touches, and that nothing else changes. A local
  peer's new node goes at the head, a remote peer's at the tail. The degraded flag is sticky. Track
  removal keeps length, order and ids. Distinct ids stay distinct. Both removals are idempotent and a
  no-op on a miss. Removing after an upsert gives back the list as it was without that peer or slot.
- **`HmsHelper`** (`hms_helper.dfy`) models the lookup helpers of `ios/HmsHelper.swift`. Peer and
  role lookups are first-match and filter expressions, so they are functions. The track searches are
  `for` loops with early `return`, so they are methods with loop invariants. Each method is proved
  equal to a specification function, `FirstHit` for a peer list. The lemmas about `FirstHit` state
  the search order and the first-hit rule. They also show that peers after a hit are never examined,
  that a found track has the requested id, and that a nil id finds nothing. Ids are
  `Option<string>` and are compared with optional equality, as Swift does. So a peer without a
  video track "matches" a nil id, and the search stops there and returns nil.
- `Seqs` (`seqs.dfy`) holds the list primitives the source is written with: `filter`, `map` and
  `first(where:)`, plus the subsequence relation. `Wrappers` (`wrappers.dfy`) holds `Option`.

Three behaviours of the code worth noting:

- `updateNodeWithPeer` refreshes the peer of every node with that `peerID` (`utils.js:49-54`).
- When `updateNode` creates a node, it ignores the `isDegraded` it was given: the new node always
  starts with `isDegraded` false (`utils.js:26`, `113`, `116`).
- When `updateNode` matches a node, it stores the given track whatever its type. Creation keeps only
  a video track. As a result, repeating an update changes nothing only when no creation happens, or when
  the track is absent or video and the flag is not `true` (`UpdateNodeIdempotent`); otherwise the
  second call changes the created node (`UpdateNodeNotIdempotentOnCreation`).

## Model

| member | source | states |
|---|---|---|
| `PeerTrackNodes.PeerTrackNodeId` | sample-apps/rnhms-callkeep-demo/src/screens/MeetingScreen/utils.js:6-8 | the key starts with the peer's id; with no track, or a track without a source, it is the id followed by the regular source |
| `PeerTrackNodes.PeerTrackNodeIdDependsOnPeerIdAndSource` | sample-apps/rnhms-callkeep-demo/src/screens/MeetingScreen/utils.js:6-8 | the key is determined by `peerID` and the track's source alone: same id and same (defaulted) source give the same key, so an absent track or a missing source gives the regular key |
| `PeerTrackNodes.PeerTrackNodeIdSeparatesSources` | sample-apps/rnhms-callkeep-demo/src/screens/MeetingScreen/utils.js:6-8 | two slots of one peer with different sources get different keys |
| `PeerTrackNodes.CreatePeerTrackNode` | sample-apps/rnhms-callkeep-demo/src/screens/MeetingScreen/utils.js:13-28 | the new node has the slot's key and the given peer; it holds a track exactly when a video track was given, and that track; it starts not degraded |
| `PeerTrackNodes.RemoveNodeWithPeerId` | sample-apps/rnhms-callkeep-demo/src/screens/MeetingScreen/utils.js:33-35 | the result holds exactly the nodes of other peers; no node of the removed peer is left |
| `PeerTrackNodes.RemoveNodeWithPeerIdKeepsOrder` | sample-apps/rnhms-callkeep-demo/src/screens/MeetingScreen/utils.js:33-35 | the result is an order-preserving subsequence of the input |
| `PeerTrackNodes.RemoveNodeWithPeerIdKeepsCopies` | sample-apps/rnhms-callkeep-demo/src/screens/MeetingScreen/utils.js:33-35 | every node of another peer keeps exactly as many copies as it had |
| `PeerTrackNodes.RemoveNodeWithPeerIdIdempotent` | sample-apps/rnhms-callkeep-demo/src/screens/MeetingScreen/utils.js:33-35 | removing a peer twice equals removing it once |
| `PeerTrackNodes.RemoveNodeWithPeerIdMissIsNoOp` | sample-apps/rnhms-callkeep-demo/src/screens/MeetingScreen/utils.js:33-35 | removing a peer that has no node returns the list unchanged |
| `PeerTrackNodes.RemoveNodeWithPeerIdKeepsIdsDistinct` | sample-apps/rnhms-callkeep-demo/src/screens/MeetingScreen/utils.js:33-35 | pairwise-distinct ids stay pairwise distinct |
| `PeerTrackNodes.UpdateNodeWithPeer` | sample-apps/rnhms-callkeep-demo/src/screens/MeetingScreen/utils.js:43-66 | when the peer has nodes, the length is kept, every node of that peer gets the new peer with id, track and flag unchanged, and other nodes are untouched; otherwise the list is unchanged without `createNew`, or gains one track-less node, prepended for the local peer and appended for a remote one |
| `PeerTrackNodes.UpdateNodeWithPeerRefreshesPeer` | sample-apps/rnhms-callkeep-demo/src/screens/MeetingScreen/utils.js:46-65 | after an update that matched or created, the peer has a node and every node of that peer holds the new snapshot |
| `PeerTrackNodes.UpdateNodeWithPeerIdempotent` | sample-apps/rnhms-callkeep-demo/src/screens/MeetingScreen/utils.js:43-66 | applying the same peer update twice equals applying it once |
| `PeerTrackNodes.UpdateNodeWithPeerKeepsIdsDistinct` | sample-apps/rnhms-callkeep-demo/src/screens/MeetingScreen/utils.js:57-65 | distinct ids stay distinct, provided that, when a node is created, no node already holds the key it gets |
| `PeerTrackNodes.RemoveAfterUpdateNodeWithPeer` | sample-apps/rnhms-callkeep-demo/src/screens/MeetingScreen/utils.js:33-66 | a peer that joined or was updated and then left leaves the list exactly as removing it from the original list would |
| `PeerTrackNodes.RemoveNode` | sample-apps/rnhms-callkeep-demo/src/screens/MeetingScreen/utils.js:71-75 | the result holds exactly the nodes whose id differs from the slot's key; none with that key is left |
| `PeerTrackNodes.RemoveNodeKeepsOrder` | sample-apps/rnhms-callkeep-demo/src/screens/MeetingScreen/utils.js:71-75 | the rest keep their order (subsequence), and distinct ids stay distinct |
| `PeerTrackNodes.RemoveNodeKeepsCopies` | sample-apps/rnhms-callkeep-demo/src/screens/MeetingScreen/utils.js:71-75 | every node with another id keeps exactly as many copies as it had |
| `PeerTrackNodes.RemoveNodeIdempotent` | sample-apps/rnhms-callkeep-demo/src/screens/MeetingScreen/utils.js:71-75 | removing the same slot twice gives the same list as removing it once |
| `PeerTrackNodes.RemoveNodeMissIsNoOp` | sample-apps/rnhms-callkeep-demo/src/screens/MeetingScreen/utils.js:71-75 | removing a key no node has returns the list unchanged |
| `PeerTrackNodes.RemoveTrackFromNodes` | sample-apps/rnhms-callkeep-demo/src/screens/MeetingScreen/utils.js:80-84 | the length, every id and every flag are kept; matching nodes lose their track and get the new peer; all other nodes are unchanged |
| `PeerTrackNodes.RemoveTrackFromNodesKeepsIds` | sample-apps/rnhms-callkeep-demo/src/screens/MeetingScreen/utils.js:80-84 | the sequence of ids is exactly the input's, so distinct ids stay distinct |
| `PeerTrackNodes.RemoveTrackFromNodesMissIsNoOp` | sample-apps/rnhms-callkeep-demo/src/screens/MeetingScreen/utils.js:80-84 | clearing the track of a key no node has returns the list unchanged |
| `PeerTrackNodes.UpdateNode` | sample-apps/rnhms-callkeep-demo/src/screens/MeetingScreen/utils.js:92-117 | on a match the length and ids are kept; matching nodes get the new peer and track, and the given degraded flag or else their old one (sticky); other nodes are unchanged. On a miss the list is unchanged without `createNew`, or a new node is put at the head for the local peer and at the tail otherwise |
| `PeerTrackNodes.UpdateNodeKeepsIdsDistinct` | sample-apps/rnhms-callkeep-demo/src/screens/MeetingScreen/utils.js:95-117 | pairwise-distinct ids stay pairwise distinct |
| `PeerTrackNodes.UpdateNodeKeyPresent` | sample-apps/rnhms-callkeep-demo/src/screens/MeetingScreen/utils.js:97-116 | after an update that matched or created, a node with the slot's key is in the list |
| `PeerTrackNodes.UpdateNodeIdempotent` | sample-apps/rnhms-callkeep-demo/src/screens/MeetingScreen/utils.js:92-117 | repeating an update changes nothing when it matched, did not create, or created from an absent or video track with a flag other than `true` |
| `PeerTrackNodes.UpdateNodeNotIdempotentOnCreation` | sample-apps/rnhms-callkeep-demo/src/screens/MeetingScreen/utils.js:92-117 | when the first call creates a node from a non-video track or with the flag `true`, repeating the update changes the list |
| `PeerTrackNodes.RemoveNodeAfterUpdateNode` | sample-apps/rnhms-callkeep-demo/src/screens/MeetingScreen/utils.js:71-117 | removing a slot after an upsert of that slot gives what removing it from the original list gives |
| `HmsHelper.GetPeerFromPeerId` | ios/HmsHelper.swift:6-11 | nil exactly when an argument is nil or no remote peer has the id; otherwise a listed peer with that id |
| `HmsHelper.GetPeerFromPeerIdIsFirst` | ios/HmsHelper.swift:6-11 | the peer returned is the earliest in the list with that id |
| `HmsHelper.GetRolesFromRoleNames` | ios/HmsHelper.swift:14-21 | empty when either list is nil; otherwise exactly the roles whose names are targeted |
| `HmsHelper.GetRolesFromRoleNamesKeepsCopies` | ios/HmsHelper.swift:14-21 | every role whose name is targeted keeps exactly as many copies as it had |
| `HmsHelper.GetRolesFromRoleNamesKeepsOrder` | ios/HmsHelper.swift:14-21 | the selected roles are an order-preserving subsequence of the roles |
| `HmsHelper.GetRoleFromRoleName` | ios/HmsHelper.swift:24-29 | nil exactly when an argument is nil or no role has the name; otherwise a listed role with that name |
| `HmsHelper.GetRoleFromRoleNameIsFirst` | ios/HmsHelper.swift:24-29 | the role returned is the earliest in the list with that name |
| `HmsHelper.FirstAuxiliary` | ios/HmsHelper.swift:101-103 | a found auxiliary track is in the list, has the requested id and, for the audio search, the audio kind; nothing found means no track qualifies |
| `HmsHelper.GetLocalTrackFromTrackId` | ios/HmsHelper.swift:31-45 | the result is the local peer's video track if its id matches, else its audio track if that matches, else its first matching auxiliary track, else nil |
| `HmsHelper.LocalTrackIsSound` | ios/HmsHelper.swift:31-45 | a local track found has the requested id and is one of the local peer's tracks |
| `HmsHelper.GetRemoteAudioTrackFromTrackId` | ios/HmsHelper.swift:47-54 | the result is the scan of the remote peers' audio tracks that stops at the first match |
| `HmsHelper.GetRemoteAudioAuxiliaryTrackFromTrackId` | ios/HmsHelper.swift:56-70 | the result is the scan that checks each peer's audio track before its audio-kind auxiliary tracks and stops at the first match |
| `HmsHelper.GetRemoteVideoTrackFromTrackId` | ios/HmsHelper.swift:72-79 | the result is the scan of the remote peers' video tracks that stops at the first match |
| `HmsHelper.GetTrackFromTrackId` | ios/HmsHelper.swift:90-107 | the result is the scan that checks video, then audio, then auxiliary tracks of each peer in turn and stops at the first match |
| `HmsHelper.FirstHitIsFirst` | ios/HmsHelper.swift:90-107 | a scan returns the hit of the first peer that has one, and nil when no peer has one |
| `HmsHelper.FirstHitIgnoresLaterPeers` | ios/HmsHelper.swift:90-107 | peers after a hit are never examined: replacing them leaves the result unchanged |
| `HmsHelper.FirstAuxiliaryIsFirst` | ios/HmsHelper.swift:101-103 | the auxiliary tracks are scanned in list order: the earliest accepted track is the one returned |
| `HmsHelper.FirstHitFindsPresentTrack` | ios/HmsHelper.swift:90-107 | when some listed peer has a track with the requested id in a slot the search looks at, the search returns a track |
| `HmsHelper.FirstHitIsSound` | ios/HmsHelper.swift:90-107 | a track found has the requested id and sits in a slot the search looks at, of some listed peer |
| `HmsHelper.FirstHitWithNilIdFindsNothing` | ios/HmsHelper.swift:90-107 | with a nil id every search returns nil |
| `HmsHelper.GetHmsTrackType` | ios/HmsHelper.swift:81-88 | video maps to `"VIDEO"`, audio to `"AUDIO"`, and nil to nil, in both directions |
| `HmsHelper.GetVideoResolution` | ios/HmsHelper.swift:147-155 | a resolution exactly when both `"width"` and `"height"` are present, carrying those two values |
| `HmsHelper.GetVideoCodec` | ios/HmsHelper.swift:157-166 | VP8 exactly for `"vp8"`; every other input, nil included, gives H.264 |
| `HmsHelper.GetCameraFacing` | ios/HmsHelper.swift:168-177 | the back camera exactly for `"BACK"`; everything else gives the front camera |

## Left out

- `getHms`, `getLocalVideoSettings` and `getLocalAudioSettings` (`ios/HmsHelper.swift:109-145`) are not modelled. They cast `NSDictionary` values dynamically and feed SDK constructors.
- The `Double` width and height of a resolution are a type parameter. The values are passed through and never inspected.
- The Swift downcasts (`as? HMSRemoteAudioTrack`, `as? HMSRemoteVideoTrack`) are modelled as always succeeding. The class hierarchy of the SDK's tracks is not part of this model.
- Local and remote peers share one `Peer` record. The lookup helpers' peers, tracks and roles keep only the fields these helpers read. The registry's peer keeps a `name`, which stands for its other fields (mute states, role and so on); the registry copies the peer whole and never inspects them.
- `HMSTrackSource.REGULAR` is taken as the string `"regular"`. The SDK that defines it is not part of this model.
- JavaScript truthiness of `createNew` and `peer.isLocal` is modelled as `bool`, and the optional `isDegraded` as `Option<bool>`. Values of other JavaScript types are not modelled.
- The returned array is always a new value in the model. JavaScript's distinction between a new array and the same array (`return nodes`) is not captured.
- UpdateNodeWithPeerKeepsIdsDistinct: proved only when, if a node is created, no node already holds the key `peerID + "regular"`. Keys are plain string concatenations and so are not injective. A node of another peer can hold that key, and then a created node would duplicate it.
- String equality (peer ids, track ids, role names, codec and camera-facing names) is modelled as equality of character sequences. Swift's `String` equality uses Unicode canonical equivalence, so two differently composed but equivalent strings are equal in Swift and unequal in the model.
- The meeting-screen component, the room-kit UI, the QR-code screen, the Android screenshare activity and the data classes of the SDK package are not part of this model. They are rendering, navigation, I/O and plain data shapes. The native SDK itself is not part of this model either.
