/** The DHCP server's message handling, on the lease table it updates in place. */
module DhcpServer {
  import opened Basics
  import opened Leases

  class DhcpServer {
    const ip: Ip
    const lease: array<Lease>

    ghost predicate Valid()
      reads lease
    {
      lease.Length == MAX_IP
    }

    constructor (ip: Ip)
      ensures Valid() && fresh(lease) && this.ip == ip
      ensures forall i :: 0 <= i < MAX_IP ==> lease[i] == Lease(NoMac(), 0)
    {
      this.ip := ip;
      lease := new Lease[MAX_IP](_ => Lease(NoMac(), 0));
    }

    /** Handle a DISCOVER: the client's own lease, or else the first that is free or expired. */
    method ProcessDiscover(chaddr: Mac, clock: seq<nat>) returns (offer: Option<Ip>)
      requires Valid() && |clock| == MAX_IP
      modifies lease
      ensures var (table, yi) := Discover(old(lease[..]), chaddr, clock);
              && lease[..] == table
              && offer == if yi.Some? && yi.value < MAX_IP then Some(AddressOf(ip, yi.value)) else None
    {
      hide Expired;
      var yi: nat := MAX_IP;
      var i: nat := 0;
      while i < MAX_IP
        invariant i <= MAX_IP && yi <= MAX_IP
        invariant Scan(lease[..], chaddr, clock, i, yi) == Scan(old(lease[..]), chaddr, clock, 0, MAX_IP)
      {
        ghost var table := lease[..];
        if lease[i].mac == chaddr {
          yi := i;
          break;
        }
        if yi == MAX_IP {
          var expiry := lease[i].expiry;
          if lease[i].mac == NoMac() {
            yi := i;
          }
          if Expired(expiry, clock[i]) {
            lease[i] := lease[i].(mac := NoMac());
            yi := i;
            assert lease[..] == table[i := table[i].(mac := NoMac())];
          }
        }
        i := i + 1;
      }
      if yi == MAX_IP {
        return None;
      }
      return Some(AddressOf(ip, yi));
    }

    /** Handle a REQUEST: grant the address if it is this client's or nobody's. */
    method ProcessRequest(chaddr: Mac, requested: Option<Ip>, now: nat) returns (granted: Option<Ip>)
      requires Valid()
      modifies lease
      ensures var (table, yi) := Request(old(lease[..]), ip, chaddr, requested, now);
              && lease[..] == table
              && granted == if yi.Some? && yi.value < MAX_IP then Some(AddressOf(ip, yi.value)) else None
      ensures granted.Some? ==> granted == requested
      ensures granted.None? ==> lease[..] == old(lease[..])
    {
      hide Stamp;
      GrantedIff(lease[..], ip, chaddr, requested, now);
      if requested == None {
        return None;
      }
      var o := requested.value;
      if o[..3] != ip[..3] {
        return None;
      }
      var yi: nat := (o[3] - BASE_IP) % 0x100;
      if yi >= MAX_IP {
        return None;
      }
      if lease[yi].mac == chaddr {
      } else if lease[yi].mac == NoMac() {
        lease[yi] := lease[yi].(mac := chaddr);
      } else {
        return None;
      }
      lease[yi] := lease[yi].(expiry := Stamp(now));
      return Some(AddressOf(ip, yi));
    }
  }
}
