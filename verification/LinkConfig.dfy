/**
 * The peer part of the link's RuntimeConfig: internal/link/config.go, and its rendering in internal/controller/link.go.
 */
module LinkConfig {
  import opened Text
  import Identity
  import Members

  datatype Peer = Peer(slot: int, publicKey: string, endpoint: string, allowedIPs: seq<string>)

  datatype Fault = NoPublicKey(slot: int) | SlotOutOfRange(slot: int) | DuplicateSlot(slot: int)

  ghost predicate SlotsValid(peers: seq<Peer>) {
    && (forall i :: 0 <= i < |peers| ==> peers[i].publicKey != "" && 0 <= peers[i].slot < Identity.SLOT_COUNT)
    && (forall i, j :: 0 <= i < j < |peers| ==> peers[i].slot != peers[j].slot)
  }

  /** RuntimeConfig.validate on the peers: a key each, slots inside one byte and all different. */
  method ValidatePeers(peers: seq<Peer>) returns (fault: Option<Fault>)
    ensures fault.None? <==> SlotsValid(peers)
  {
    var seen: set<int> := {};
    for i := 0 to |peers|
      invariant SlotsValid(peers[..i])
      invariant forall s :: s in seen <==> exists k :: 0 <= k < i && peers[k].slot == s
    {
      var p := peers[i];
      if p.publicKey == "" {
        return Some(NoPublicKey(p.slot));
      }
      if p.slot < 0 || p.slot > 255 {
        return Some(SlotOutOfRange(p.slot));
      }
      if p.slot in seen {
        return Some(DuplicateSlot(p.slot));
      }
      seen := seen + {p.slot};
    }
    assert peers[..|peers|] == peers;
    return None;
  }

  /** fleetLinkPeers: one link peer per member; an address not yet observed leaves the endpoint empty. */
  function FleetLinkPeers(local: bool, listenPort: nat, peers: seq<Members.Peer>): (r: seq<Peer>)
    ensures |r| == |peers| && forall i :: 0 <= i < |peers| ==>
            r[i].slot == peers[i].slot && r[i].publicKey == peers[i].publicKey
  {
    seq(|peers|, i requires 0 <= i < |peers| =>
      Peer(peers[i].slot, peers[i].publicKey,
           if peers[i].externalAddress == "" then "" else peers[i].externalAddress + ":" + Itoa(listenPort),
           if local then ["0.0.0.0/0"] else [peers[i].tunnelAddress + "/32"]))
  }
}
