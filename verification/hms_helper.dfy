/** The iOS bridge's lookup helpers: finding a peer, role or track by id or
    name in the lists the SDK hands over, and mapping strings and track kinds
    to SDK enumerations. Every argument the bridge receives from JavaScript
    may be nil, so ids are `Option<string>` and lists `Option<seq<_>>`. */
module HmsHelper {
  import opened Wrappers
  import Seqs

  datatype TrackKind = Audio | Video

  datatype Track = Track(trackId: string, kind: TrackKind)

  /** A peer with the track slots the searches look at. */
  datatype Peer = Peer(peerID: string, videoTrack: Option<Track>, audioTrack: Option<Track>,
                       auxiliaryTracks: Option<seq<Track>>)

  datatype Role = Role(name: string)

  datatype Codec = H264 | VP8

  datatype CameraFacing = Front | Back

  /** Width and height are passed through untouched; their type is left open. */
  datatype VideoResolution<D> = VideoResolution(width: D, height: D)

  // ---------------------------------------------------------------- peers and roles

  function HasPeerId(peerID: string): Peer -> bool {
    (p: Peer) => p.peerID == peerID
  }

  /** The first remote peer with id `peerID`; nil when either argument is nil or no peer has that id. */
  function GetPeerFromPeerId(peerID: Option<string>, remotePeers: Option<seq<Peer>>): (r: Option<Peer>)
    ensures r.None? <==> peerID.None? || remotePeers.None? || forall p | p in remotePeers.value :: p.peerID != peerID.value
    ensures r.Some? ==> r.value in remotePeers.value && r.value.peerID == peerID.value
  {
    if peerID.None? || remotePeers.None? then None
    else Seqs.First(remotePeers.value, HasPeerId(peerID.value))
  }

  /** The peer returned is the earliest one in the list with that id. */
  lemma GetPeerFromPeerIdIsFirst(peerID: string, remotePeers: seq<Peer>, k: nat)
    requires k < |remotePeers| && remotePeers[k].peerID == peerID
    requires forall j :: 0 <= j < k ==> remotePeers[j].peerID != peerID
    ensures GetPeerFromPeerId(Some(peerID), Some(remotePeers)) == Some(remotePeers[k])
  {
    Seqs.FirstIsEarliest(remotePeers, HasPeerId(peerID), k);
  }

  function NamedIn(targetedRoles: seq<string>): Role -> bool {
    (role: Role) => role.name in targetedRoles
  }

  /** The roles whose names are among `targetedRoles`; empty when either list is nil. */
  function GetRolesFromRoleNames(targetedRoles: Option<seq<string>>, roles: Option<seq<Role>>): (r: seq<Role>)
    ensures targetedRoles.None? || roles.None? ==> r == []
    ensures forall role | role in r :: role in roles.value && role.name in targetedRoles.value
    ensures targetedRoles.Some? && roles.Some? ==>
      forall role | role in roles.value && role.name in targetedRoles.value :: role in r
  {
    if roles.None? || targetedRoles.None? then []
    else Seqs.Filter(roles.value, NamedIn(targetedRoles.value))
  }

  /** The selected roles keep the order they have in `roles`. */
  lemma GetRolesFromRoleNamesKeepsOrder(targetedRoles: seq<string>, roles: seq<Role>)
    ensures Seqs.SubsequenceOf(GetRolesFromRoleNames(Some(targetedRoles), Some(roles)), roles)
  {
    Seqs.FilterIsSubsequence(roles, NamedIn(targetedRoles));
  }

  /** Each targeted role is kept with all its copies. */
  lemma GetRolesFromRoleNamesKeepsCopies(targetedRoles: seq<string>, roles: seq<Role>)
    ensures forall role: Role | role.name in targetedRoles ::
      multiset(GetRolesFromRoleNames(Some(targetedRoles), Some(roles)))[role] == multiset(roles)[role]
  {
    Seqs.FilterCounts(roles, NamedIn(targetedRoles));
  }

  function HasName(name: string): Role -> bool {
    (role: Role) => role.name == name
  }

  /** The first role called `role`; nil when either argument is nil or no role has that name. */
  function GetRoleFromRoleName(role: Option<string>, roles: Option<seq<Role>>): (r: Option<Role>)
    ensures r.None? <==> role.None? || roles.None? || forall x | x in roles.value :: x.name != role.value
    ensures r.Some? ==> r.value in roles.value && r.value.name == role.value
  {
    if roles.None? || role.None? then None
    else Seqs.First(roles.value, HasName(role.value))
  }

  lemma GetRoleFromRoleNameIsFirst(role: string, roles: seq<Role>, k: nat)
    requires k < |roles| && roles[k].name == role
    requires forall j :: 0 <= j < k ==> roles[j].name != role
    ensures GetRoleFromRoleName(Some(role), Some(roles)) == Some(roles[k])
  {
    Seqs.FirstIsEarliest(roles, HasName(role), k);
  }

  // ---------------------------------------------------------------- track searches

  /** The id of an optional track; comparing it with an optional id follows
      Swift's optional equality, so a missing track matches a nil id. */
  function TrackIdOf(track: Option<Track>): Option<string> {
    match track
    case None => None
    case Some(t) => Some(t.trackId)
  }

  /** An auxiliary track the search accepts: the id matches and, when `audioOnly`, the kind is audio. */
  predicate AuxiliaryMatches(t: Track, trackID: Option<string>, audioOnly: bool) {
    (!audioOnly || t.kind == Audio) && Some(t.trackId) == trackID
  }

  /** The first auxiliary track with id `trackID` (and, when `audioOnly`, of the audio kind). */
  function FirstAuxiliary(tracks: seq<Track>, trackID: Option<string>, audioOnly: bool): (r: Option<Track>)
    ensures r.Some? ==> r.value in tracks && Some(r.value.trackId) == trackID && (audioOnly ==> r.value.kind == Audio)
    ensures r.None? ==> forall t | t in tracks :: Some(t.trackId) != trackID || (audioOnly && t.kind != Audio)
  {
    if tracks == [] then None
    else if AuxiliaryMatches(tracks[0], trackID, audioOnly) then Some(tracks[0])
    else FirstAuxiliary(tracks[1..], trackID, audioOnly)
  }

  /** Auxiliary tracks are searched in list order: the earliest accepted track is returned. */
  lemma {:induction false} FirstAuxiliaryIsFirst(tracks: seq<Track>, trackID: Option<string>, audioOnly: bool, k: nat)
    requires k < |tracks| && AuxiliaryMatches(tracks[k], trackID, audioOnly)
    requires forall j :: 0 <= j < k ==> !AuxiliaryMatches(tracks[j], trackID, audioOnly)
    ensures FirstAuxiliary(tracks, trackID, audioOnly) == Some(tracks[k])
  {
    if k > 0 {
      FirstAuxiliaryIsFirst(tracks[1..], trackID, audioOnly, k - 1);
    }
  }

  /** Which slots of each peer a search looks at, in which order. */
  datatype Search =
    | VideoSearch           // the video track only
    | AudioSearch           // the audio track only
    | AudioAuxiliarySearch  // the audio track, then auxiliary tracks of the audio kind
    | AnySearch             // the video track, then the audio track, then every auxiliary track

  /** What searching one peer yields: `Some(t)` when the search returns `t`
      there (which is nil when a missing slot met a nil id), `None` when it
      moves on to the next peer. */
  function Hit(search: Search, peer: Peer, trackID: Option<string>): Option<Option<Track>> {
    var aux := peer.auxiliaryTracks.GetOr([]);
    match search
    case VideoSearch =>
      if TrackIdOf(peer.videoTrack) == trackID then Some(peer.videoTrack) else None
    case AudioSearch =>
      if TrackIdOf(peer.audioTrack) == trackID then Some(peer.audioTrack) else None
    case AudioAuxiliarySearch =>
      if TrackIdOf(peer.audioTrack) == trackID then Some(peer.audioTrack)
      else var t := FirstAuxiliary(aux, trackID, true); if t.Some? then Some(t) else None
    case AnySearch =>
      if TrackIdOf(peer.videoTrack) == trackID then Some(peer.videoTrack)
      else if TrackIdOf(peer.audioTrack) == trackID then Some(peer.audioTrack)
      else var t := FirstAuxiliary(aux, trackID, false); if t.Some? then Some(t) else None
  }

  /** The result of scanning `peers` in order and stopping at the first hit. */
  function FirstHit(search: Search, peers: seq<Peer>, trackID: Option<string>): Option<Track> {
    if peers == [] then None
    else match Hit(search, peers[0], trackID)
      case Some(t) => t
      case None => FirstHit(search, peers[1..], trackID)
  }

  /** `t` sits in one of the slots `search` looks at in `peer`. */
  ghost predicate InSearchedSlot(search: Search, peer: Peer, t: Track) {
    var aux := peer.auxiliaryTracks.GetOr([]);
    match search
    case VideoSearch => peer.videoTrack == Some(t)
    case AudioSearch => peer.audioTrack == Some(t)
    case AudioAuxiliarySearch => peer.audioTrack == Some(t) || (t in aux && t.kind == Audio)
    case AnySearch => peer.videoTrack == Some(t) || peer.audioTrack == Some(t) || t in aux
  }

  /** The scan returns the hit of the first peer that has one, or nil when no peer has one. */
  lemma {:induction false} FirstHitIsFirst(search: Search, peers: seq<Peer>, trackID: Option<string>)
    ensures (forall j | 0 <= j < |peers| :: Hit(search, peers[j], trackID).None?) ==> FirstHit(search, peers, trackID).None?
    ensures forall k | 0 <= k < |peers| && Hit(search, peers[k], trackID).Some? &&
                       (forall j | 0 <= j < k :: Hit(search, peers[j], trackID).None?) ::
              FirstHit(search, peers, trackID) == Hit(search, peers[k], trackID).value
  {
    if peers != [] {
      FirstHitIsFirst(search, peers[1..], trackID);
      forall k | 0 < k < |peers| && Hit(search, peers[k], trackID).Some? &&
                 (forall j | 0 <= j < k :: Hit(search, peers[j], trackID).None?)
        ensures FirstHit(search, peers, trackID) == Hit(search, peers[k], trackID).value
      {
        assert peers[1..][k - 1] == peers[k];
        assert forall j | 0 <= j < k - 1 :: peers[1..][j] == peers[j + 1];
      }
    }
  }

  /** Peers after a hit are never examined: replacing them changes nothing. */
  lemma {:induction false} FirstHitIgnoresLaterPeers(search: Search, peers: seq<Peer>, trackID: Option<string>,
                                                      k: nat, later: seq<Peer>)
    requires k < |peers| && Hit(search, peers[k], trackID).Some?
    ensures FirstHit(search, peers[..k + 1] + later, trackID) == FirstHit(search, peers, trackID)
  {
    if Hit(search, peers[0], trackID).None? {
      assert (peers[..k + 1] + later)[1..] == peers[1..][..k] + later;
      FirstHitIgnoresLaterPeers(search, peers[1..], trackID, k - 1, later);
    }
  }

  /** A track found carries the requested id and sits in a searched slot of one of the peers. */
  lemma {:induction false} FirstHitIsSound(search: Search, peers: seq<Peer>, trackID: Option<string>)
    ensures FirstHit(search, peers, trackID).Some? ==>
      Some(FirstHit(search, peers, trackID).value.trackId) == trackID &&
      exists k :: 0 <= k < |peers| && InSearchedSlot(search, peers[k], FirstHit(search, peers, trackID).value)
  {
    if peers != [] {
      var t := FirstHit(search, peers, trackID);
      if Hit(search, peers[0], trackID).None? {
        FirstHitIsSound(search, peers[1..], trackID);
        if t.Some? {
          var k :| 0 <= k < |peers[1..]| && InSearchedSlot(search, peers[1..][k], t.value);
          assert peers[k + 1] == peers[1..][k];
        }
      } else if t.Some? {
        assert InSearchedSlot(search, peers[0], t.value);
      }
    }
  }

  /** A track with the requested id in a searched slot of some peer is always
      found: the scan returns some track (not necessarily that one). */
  lemma {:induction false} FirstHitFindsPresentTrack(search: Search, peers: seq<Peer>, k: nat, t: Track)
    requires k < |peers| && InSearchedSlot(search, peers[k], t)
    ensures FirstHit(search, peers, Some(t.trackId)).Some?
  {
    if k > 0 && Hit(search, peers[0], Some(t.trackId)).None? {
      assert peers[1..][k - 1] == peers[k];
      FirstHitFindsPresentTrack(search, peers[1..], k - 1, t);
    }
  }

  /** With a nil id nothing is ever found: a peer with a missing slot stops
      the scan with that (nil) slot, and no present track has a nil id. */
  lemma {:induction false} FirstHitWithNilIdFindsNothing(search: Search, peers: seq<Peer>)
    ensures FirstHit(search, peers, None).None?
  {
    if peers != [] {
      FirstHitWithNilIdFindsNothing(search, peers[1..]);
      var aux := peers[0].auxiliaryTracks.GetOr([]);
      assert FirstAuxiliary(aux, None, true).None? && FirstAuxiliary(aux, None, false).None?;
    }
  }

  /** `getTrackFromTrackId`: video, then audio, then auxiliary tracks, peer by peer. */
  method GetTrackFromTrackId(trackID: Option<string>, remotePeers: Option<seq<Peer>>) returns (r: Option<Track>)
    ensures r == FirstHit(AnySearch, remotePeers.GetOr([]), trackID)
  {
    var peers := remotePeers.GetOr([]);
    for i := 0 to |peers|
      invariant FirstHit(AnySearch, peers[i..], trackID) == FirstHit(AnySearch, peers, trackID)
    {
      var peer := peers[i];
      assert peers[i..][1..] == peers[i + 1..];
      if TrackIdOf(peer.videoTrack) == trackID {
        return peer.videoTrack;
      }
      if TrackIdOf(peer.audioTrack) == trackID {
        return peer.audioTrack;
      }
      var aux := peer.auxiliaryTracks.GetOr([]);
      for j := 0 to |aux|
        invariant FirstAuxiliary(aux[j..], trackID, false) == FirstAuxiliary(aux, trackID, false)
      {
        assert aux[j..][1..] == aux[j + 1..];
        if Some(aux[j].trackId) == trackID {
          return Some(aux[j]);
        }
      }
      assert aux[|aux|..] == [];
    }
    assert peers[|peers|..] == [];
    return None;
  }

  /** `getLocalTrackFromTrackId`: the local peer's video, then audio, then auxiliary tracks. */
  method GetLocalTrackFromTrackId(trackID: Option<string>, localPeer: Option<Peer>) returns (r: Option<Track>)
    ensures r == if localPeer.None? then None else Hit(AnySearch, localPeer.value, trackID).GetOr(None)
  {
    var videoTrack := if localPeer.Some? then localPeer.value.videoTrack else None;
    if TrackIdOf(videoTrack) == trackID {
      return videoTrack;
    }
    var audioTrack := if localPeer.Some? then localPeer.value.audioTrack else None;
    if TrackIdOf(audioTrack) == trackID {
      return audioTrack;
    }
    var aux := if localPeer.Some? then localPeer.value.auxiliaryTracks.GetOr([]) else [];
    for j := 0 to |aux|
      invariant FirstAuxiliary(aux[j..], trackID, false) == FirstAuxiliary(aux, trackID, false)
    {
      assert aux[j..][1..] == aux[j + 1..];
      if Some(aux[j].trackId) == trackID {
        return Some(aux[j]);
      }
    }
    assert aux[|aux|..] == [];
    return None;
  }

  /** A local track found carries the requested id and is one of the local peer's tracks. */
  lemma LocalTrackIsSound(trackID: Option<string>, localPeer: Peer)
    ensures var r := Hit(AnySearch, localPeer, trackID).GetOr(None);
      r.Some? ==> Some(r.value.trackId) == trackID && InSearchedSlot(AnySearch, localPeer, r.value)
  {
  }

  /** `getRemoteAudioTrackFromTrackId`: the first peer whose audio track matches. */
  method GetRemoteAudioTrackFromTrackId(trackID: Option<string>, remotePeers: Option<seq<Peer>>) returns (r: Option<Track>)
    ensures r == FirstHit(AudioSearch, remotePeers.GetOr([]), trackID)
  {
    var peers := remotePeers.GetOr([]);
    for i := 0 to |peers|
      invariant FirstHit(AudioSearch, peers[i..], trackID) == FirstHit(AudioSearch, peers, trackID)
    {
      assert peers[i..][1..] == peers[i + 1..];
      if TrackIdOf(peers[i].audioTrack) == trackID {
        return peers[i].audioTrack;
      }
    }
    assert peers[|peers|..] == [];
    return None;
  }

  /** `getRemoteAudioAuxiliaryTrackFromTrackId`: per peer, the audio track, then
      auxiliary tracks of the audio kind. */
  method GetRemoteAudioAuxiliaryTrackFromTrackId(trackID: Option<string>, remotePeers: Option<seq<Peer>>)
    returns (r: Option<Track>)
    ensures r == FirstHit(AudioAuxiliarySearch, remotePeers.GetOr([]), trackID)
  {
    var peers := remotePeers.GetOr([]);
    for i := 0 to |peers|
      invariant FirstHit(AudioAuxiliarySearch, peers[i..], trackID) == FirstHit(AudioAuxiliarySearch, peers, trackID)
    {
      var peer := peers[i];
      assert peers[i..][1..] == peers[i + 1..];
      if TrackIdOf(peer.audioTrack) == trackID {
        return peer.audioTrack;
      }
      var auxTracks := peer.auxiliaryTracks.GetOr([]);
      for j := 0 to |auxTracks|
        invariant FirstAuxiliary(auxTracks[j..], trackID, true) == FirstAuxiliary(auxTracks, trackID, true)
      {
        assert auxTracks[j..][1..] == auxTracks[j + 1..];
        if auxTracks[j].kind == Audio && Some(auxTracks[j].trackId) == trackID {
          return Some(auxTracks[j]);
        }
      }
      assert auxTracks[|auxTracks|..] == [];
    }
    assert peers[|peers|..] == [];
    return None;
  }

  /** `getRemoteVideoTrackFromTrackId`: the first peer whose video track matches. */
  method GetRemoteVideoTrackFromTrackId(trackID: Option<string>, remotePeers: Option<seq<Peer>>) returns (r: Option<Track>)
    ensures r == FirstHit(VideoSearch, remotePeers.GetOr([]), trackID)
  {
    var peers := remotePeers.GetOr([]);
    for i := 0 to |peers|
      invariant FirstHit(VideoSearch, peers[i..], trackID) == FirstHit(VideoSearch, peers, trackID)
    {
      assert peers[i..][1..] == peers[i + 1..];
      if TrackIdOf(peers[i].videoTrack) == trackID {
        return peers[i].videoTrack;
      }
    }
    assert peers[|peers|..] == [];
    return None;
  }

  // ---------------------------------------------------------------- enumerations

  /** The JavaScript name of a track kind; nil for a nil kind. */
  function GetHmsTrackType(kind: Option<TrackKind>): (r: Option<string>)
    ensures r == Some("VIDEO") <==> kind == Some(Video)
    ensures r == Some("AUDIO") <==> kind == Some(Audio)
    ensures r.None? <==> kind.None?
  {
    match kind
    case Some(Video) => Some("VIDEO")
    case Some(Audio) => Some("AUDIO")
    case None => None
  }

  /** A resolution when both `"width"` and `"height"` are given, else nil. */
  function GetVideoResolution<D>(data: map<string, D>): (r: Option<VideoResolution<D>>)
    ensures r.Some? <==> "width" in data && "height" in data
    ensures r.Some? ==> r.value.width == data["width"] && r.value.height == data["height"]
  {
    if "width" in data && "height" in data then Some(VideoResolution(data["width"], data["height"]))
    else None
  }

  /** `"vp8"` selects VP8; anything else, nil included, falls back to H.264. */
  function GetVideoCodec(codecString: Option<string>): (r: Codec)
    ensures r == VP8 <==> codecString == Some("vp8")
  {
    match codecString
    case Some("h264") => H264
    case Some("vp8") => VP8
    case _ => H264
  }

  /** `"BACK"` selects the back camera; anything else falls back to the front one. */
  function GetCameraFacing(cameraFacing: string): (r: CameraFacing)
    ensures r == Back <==> cameraFacing == "BACK"
  {
    match cameraFacing
    case "FRONT" => Front
    case "BACK" => Back
    case _ => Front
  }
}
