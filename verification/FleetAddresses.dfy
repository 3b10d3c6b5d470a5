/**
 * Slots turned into tunnel addresses: what distinct slots mean on the wire. internal/controller/gcp_zones.go with
 * gcpmembers' slotAddress.
 */
module FleetAddresses {
  import opened Text
  import opened Members
  import opened MemberSafety
  import opened Addresses

  /**
   * The configuration an accepted Gateway is reconciled with. `parse` stands for net.ParseIP, of which only that it
   * reads back the dotted form is used; the gateway's own address is whatever text the spec gives.
   */
  ghost predicate Accepted(cfg: Config, net: Subnet, link: IP, parse: string -> IP, hosts: seq<nat>) {
    && net.Valid() && link.Valid() && parse(cfg.gatewayAddress).Valid()
    && (forall v: nat :: v < UINT32 ==> parse(Dotted(v)) == V4(v))
    && Reject(net, parse(cfg.gatewayAddress), link).None?
    && cfg.capacity == CapacityOf(net) >= 1
    && LowestFree(net, parse(cfg.gatewayAddress).v, link.v, cfg.capacity - 1, hosts)
    && (forall k :: 0 <= k < |hosts| ==> hosts[k] < UINT32) && cfg.eligible == Texts(hosts)
  }

  lemma AcceptedIsReady(cfg: Config, net: Subnet, link: IP, parse: string -> IP, hosts: seq<nat>)
    requires Accepted(cfg, net, link, parse, hosts)
    ensures AddressesReady(cfg)
  {}

  /** Every slot below capacity has an address, a usable host other than the link's; no two slots share one. */
  lemma SlotAddressesDistinct(cfg: Config, net: Subnet, link: IP, parse: string -> IP, hosts: seq<nat>, s: int, t: int)
    requires Accepted(cfg, net, link, parse, hosts) && 0 <= s < cfg.capacity && 0 <= t < cfg.capacity && s != t
    ensures SlotAddress(cfg, s).Some? && SlotAddress(cfg, t).Some?
    ensures var a, b := parse(SlotAddress(cfg, s).value), parse(SlotAddress(cfg, t).value);
            a.V4? && IsHost(net, a.v) && a != link && a != b
  {
    SlotHost(cfg, net, link, parse, hosts, s);
    SlotHost(cfg, net, link, parse, hosts, t);
  }

  lemma SlotHost(cfg: Config, net: Subnet, link: IP, parse: string -> IP, hosts: seq<nat>, s: int)
    requires Accepted(cfg, net, link, parse, hosts) && 0 <= s < cfg.capacity
    ensures SlotAddress(cfg, s).Some?
    ensures var a, g := parse(SlotAddress(cfg, s).value), parse(cfg.gatewayAddress).v;
            a.V4? && IsHost(net, a.v) && a != link && (if s == 0 then a.v == g else a.v == hosts[s - 1] && a.v != g)
  {
    if s > 0 { assert hosts[s - 1] in hosts; }
  }

  /**
   * In any safe store, so after every write of every pass: owned records hold different usable hosts, none the link's.
   */
  lemma SafeAddresses(cfg: Config, net: Subnet, link: IP, parse: string -> IP, hosts: seq<nat>, store: Store, m: string,
                      n: string)
    requires Accepted(cfg, net, link, parse, hosts) && Safe(cfg, store)
    requires m != n && Find(cfg, store, m).Some? && Find(cfg, store, n).Some?
    ensures var a, b := parse(Find(cfg, store, m).value.tunnelAddress), parse(Find(cfg, store, n).value.tunnelAddress);
            a.V4? && IsHost(net, a.v) && a != link && a != b
  {
    SlotAddressesDistinct(cfg, net, link, parse, hosts, Find(cfg, store, m).value.slot, Find(cfg, store, n).value.slot);
  }
}
