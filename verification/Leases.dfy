/** The DHCP server's lease table: eight addresses, a truncated expiry, and a clock that wraps. */
module Leases {
  import opened Basics

  const MAX_IP := 8
  const BASE_IP := 16
  const MAC_LEN := 6
  const LEASE_MS := 24 * 60 * 60 * 1000
  const WRAP32 := 0x1_0000_0000
  const HALF32 := 0x8000_0000
  const TICK16 := 0x1_0000

  type Mac = m: seq<Byte> | |m| == MAC_LEN witness [0, 0, 0, 0, 0, 0]
  type Ip = a: seq<Byte> | |a| == 4 witness [0, 0, 0, 0]

  datatype Lease = Lease(mac: Mac, expiry: u16)
  type Table = l: seq<Lease> | |l| == MAX_IP witness seq(MAX_IP, _ => Lease([0, 0, 0, 0, 0, 0], 0))

  function NoMac(): Mac {
    [0, 0, 0, 0, 0, 0]
  }

  // ---------------------------------------------------------------- the clock

  /** The 32-bit millisecond counter at an absolute time. */
  function Ticks(t: nat): u32 {
    t % WRAP32
  }

  /** The 16-bit expiry written for a lease granted at time t. */
  function Stamp(t: nat): u16 {
    (Ticks(t) + LEASE_MS) % WRAP32 / TICK16
  }

  /** The server's test: the sign bit of the 32-bit difference between expiry and clock. */
  predicate Expired(expiry: u16, now: nat) {
    (expiry * TICK16 + (TICK16 - 1) - Ticks(now)) % WRAP32 >= HALF32
  }

  /** The last millisecond for which a lease granted at time t is honoured. */
  function End(t: nat): nat {
    (t + LEASE_MS) / TICK16 * TICK16 + (TICK16 - 1)
  }

  lemma StampIsEnd(t: nat)
    ensures (Stamp(t) * TICK16 + (TICK16 - 1)) % WRAP32 == End(t) % WRAP32
  {
    var x := t + LEASE_MS;
    assert (Ticks(t) + LEASE_MS) % WRAP32 == x % WRAP32 by {
      assert t == WRAP32 * (t / WRAP32) + t % WRAP32;
      ModAdd(t % WRAP32 + LEASE_MS, t / WRAP32);
    }
    var q, r := x / WRAP32, x % WRAP32;
    assert x == WRAP32 * q + r;
    assert x / TICK16 == q * TICK16 + r / TICK16;
    ModAdd(r / TICK16 * TICK16 + (TICK16 - 1), q);
  }

  lemma ModAdd(a: int, q: int)
    ensures (a + WRAP32 * q) % WRAP32 == a % WRAP32
  {
  }

  /** Over unbounded time, in spite of the truncation and the wrap: the test passes up to `End`,
      fails for the next 2^31 milliseconds, and then alternates with that period. */
  lemma ExpiredExactly(t: nat, now: nat)
    ensures Expired(Stamp(t), now) <==> (now - End(t) - 1) % WRAP32 < HALF32
    ensures t <= now <= End(t) ==> !Expired(Stamp(t), now)
    ensures End(t) < now <= End(t) + HALF32 ==> Expired(Stamp(t), now)
    ensures t + LEASE_MS <= End(t) < t + LEASE_MS + TICK16
  {
    StampIsEnd(t);
    var e := Stamp(t) * TICK16 + (TICK16 - 1);
    var d := End(t) - now;
    assert (e - Ticks(now)) % WRAP32 == d % WRAP32 by {
      var k := End(t) / WRAP32 - now / WRAP32;
      assert End(t) == e + WRAP32 * (End(t) / WRAP32);
      assert d == e - Ticks(now) + WRAP32 * k;
      ModAdd(e - Ticks(now), k);
    }
    Negated(d);
  }

  lemma Negated(d: int)
    ensures d % WRAP32 >= HALF32 <==> (-d - 1) % WRAP32 < HALF32
  {
  }

  // ---------------------------------------------------------------- DISCOVER

  /** The scan of the table from lease i on, with the candidate found so far (MAX_IP for none). The
      clock is read anew at each lease it tests. */
  function Scan(l: Table, mac: Mac, clock: seq<nat>, i: nat, yi: nat): (r: (Table, nat))
    requires |clock| == MAX_IP && i <= MAX_IP && yi <= MAX_IP
    ensures r.1 <= MAX_IP
    decreases MAX_IP - i
  {
    if i == MAX_IP then (l, yi)
    else if l[i].mac == mac then (l, i)
    else if yi == MAX_IP then
      var expired := Expired(l[i].expiry, clock[i]);
      Scan(if expired then l[i := l[i].(mac := NoMac())] else l, mac, clock, i + 1,
           if l[i].mac == NoMac() || expired then i else MAX_IP)
    else Scan(l, mac, clock, i + 1, yi)
  }

  /** The table after a DISCOVER, and the lease offered. */
  function Discover(l: Table, mac: Mac, clock: seq<nat>): (Table, Option<nat>)
    requires |clock| == MAX_IP
  {
    var (r, yi) := Scan(l, mac, clock, 0, MAX_IP);
    (r, if yi == MAX_IP then None else Some(yi))
  }

  predicate Available(lease: Lease, mac: Mac, now: nat) {
    lease.mac == mac || lease.mac == NoMac() || Expired(lease.expiry, now)
  }

  /** What a scan from i on with the candidate yi does: it clears expired leases and nothing else; it ends on the
      client's own lease if it has one and otherwise on a free one; it finds nothing only when nothing is
      available. */
  ghost predicate Met(l: Table, mac: Mac, clock: seq<nat>, i: nat, yi: nat, r: Table, y: nat)
    requires |clock| == MAX_IP && i <= MAX_IP && yi <= MAX_IP && y <= MAX_IP
  {
    && (forall k :: 0 <= k < MAX_IP ==>
          || r[k] == l[k]
          || (i <= k && r[k] == Lease(NoMac(), l[k].expiry) && Expired(l[k].expiry, clock[k]) && l[k].mac != mac))
    && (y == MAX_IP <==> (yi == MAX_IP && forall k :: i <= k < MAX_IP ==> !Available(l[k], mac, clock[k])))
    && (y < MAX_IP ==> (r[y].mac == mac || r[y].mac == NoMac()))
    && ((exists k :: i <= k < MAX_IP && l[k].mac == mac) ==> (y < MAX_IP && r[y].mac == mac))
  }

  lemma {:induction false} ScanMeets(l: Table, mac: Mac, clock: seq<nat>, i: nat, yi: nat)
    requires |clock| == MAX_IP && i <= MAX_IP && yi <= MAX_IP
    requires yi < MAX_IP ==> yi < i && l[yi].mac == NoMac()
    ensures var (r, y) := Scan(l, mac, clock, i, yi);
            Met(l, mac, clock, i, yi, r, y)
    decreases MAX_IP - i
  {
    hide Expired, Met;
    var (r, y) := Scan(l, mac, clock, i, yi);
    if i == MAX_IP || l[i].mac == mac {
      ScanEnds(l, mac, clock, i, yi);
    } else if yi == MAX_IP {
      var expired := Expired(l[i].expiry, clock[i]);
      var t := if expired then l[i := l[i].(mac := NoMac())] else l;
      ScanMeets(t, mac, clock, i + 1, if l[i].mac == NoMac() || expired then i else MAX_IP);
      ClearedMeets(l, t, mac, clock, i, r, y);
    } else {
      ScanMeets(l, mac, clock, i + 1, yi);
      PassedMeets(l, mac, clock, i, yi, r, y);
    }
  }

  lemma ScanEnds(l: Table, mac: Mac, clock: seq<nat>, i: nat, yi: nat)
    requires |clock| == MAX_IP && i <= MAX_IP && yi <= MAX_IP && (i == MAX_IP || l[i].mac == mac)
    requires yi < MAX_IP ==> yi < i && l[yi].mac == NoMac()
    ensures Met(l, mac, clock, i, yi, l, if i == MAX_IP then yi else i)
  {
    hide Expired;
  }

  lemma ClearedMeets(l: Table, t: Table, mac: Mac, clock: seq<nat>, i: nat, r: Table, y: nat)
    requires |clock| == MAX_IP && i < MAX_IP && y <= MAX_IP && l[i].mac != mac
    requires t == if Expired(l[i].expiry, clock[i]) then l[i := l[i].(mac := NoMac())] else l
    requires Met(t, mac, clock, i + 1,
                 if l[i].mac == NoMac() || Expired(l[i].expiry, clock[i]) then i else MAX_IP, r, y)
    ensures Met(l, mac, clock, i, MAX_IP, r, y)
  {
    hide Expired;
  }

  lemma PassedMeets(l: Table, mac: Mac, clock: seq<nat>, i: nat, yi: nat, r: Table, y: nat)
    requires |clock| == MAX_IP && i < MAX_IP && yi < MAX_IP && y <= MAX_IP && l[i].mac != mac
    requires Met(l, mac, clock, i + 1, yi, r, y)
    ensures Met(l, mac, clock, i, yi, r, y)
  {
    hide Expired;
  }

  /** Of the leases that are available the first is offered, unless the client has one of its own. */
  lemma {:induction false} ScanFirst(l: Table, mac: Mac, clock: seq<nat>, i: nat)
    requires |clock| == MAX_IP && i <= MAX_IP
    requires forall k :: i <= k < MAX_IP ==> l[k].mac != mac
    ensures var y := Scan(l, mac, clock, i, MAX_IP).1;
            && (y < MAX_IP ==> i <= y && Available(l[y], mac, clock[y]))
            && forall k :: i <= k < y ==> !Available(l[k], mac, clock[k])
    decreases MAX_IP - i
  {
    hide Scan, Available, NoMac, Expired;
    if i == MAX_IP {
      ScanNothing(l, mac, clock);
    } else {
      var t := if Expired(l[i].expiry, clock[i]) then l[i := l[i].(mac := NoMac())] else l;
      ScanOne(l, mac, clock, i);
      if Available(l[i], mac, clock[i]) {
        ScanKeeps(t, mac, clock, i + 1, i);
      } else {
        ScanFirst(l, mac, clock, i + 1);
      }
    }
  }

  lemma ScanNothing(l: Table, mac: Mac, clock: seq<nat>)
    requires |clock| == MAX_IP
    ensures Scan(l, mac, clock, MAX_IP, MAX_IP).1 == MAX_IP
  {
  }

  lemma ScanOne(l: Table, mac: Mac, clock: seq<nat>, i: nat)
    requires |clock| == MAX_IP && i < MAX_IP && l[i].mac != mac
    ensures var t := if Expired(l[i].expiry, clock[i]) then l[i := l[i].(mac := NoMac())] else l;
            && Scan(l, mac, clock, i, MAX_IP)
               == Scan(t, mac, clock, i + 1, if Available(l[i], mac, clock[i]) then i else MAX_IP)
            && (!Available(l[i], mac, clock[i]) ==> t == l)
  {
    hide Expired;
  }

  lemma {:induction false} ScanKeeps(l: Table, mac: Mac, clock: seq<nat>, i: nat, yi: nat)
    requires |clock| == MAX_IP && i <= MAX_IP && yi < MAX_IP
    requires forall k :: i <= k < MAX_IP ==> l[k].mac != mac
    ensures Scan(l, mac, clock, i, yi).1 == yi
    decreases MAX_IP - i
  {
    if i < MAX_IP {
      ScanKeeps(l, mac, clock, i + 1, yi);
    }
  }

  // ---------------------------------------------------------------- REQUEST

  /** The lease a requested address names, if it is one of this server's. */
  function Requested(server: Ip, address: Option<Ip>): Option<nat> {
    match address
    case None => None
    case Some(a) =>
      var yi := (a[3] - BASE_IP) % 0x100;
      if a[..3] != server[..3] || yi >= MAX_IP then None else Some(yi)
  }

  predicate Grants(l: Table, mac: Mac, yi: nat)
    requires yi < MAX_IP
  {
    l[yi].mac == mac || l[yi].mac == NoMac()
  }

  /** The table after a REQUEST, and the lease acknowledged. */
  function Request(l: Table, server: Ip, mac: Mac, address: Option<Ip>, now: nat): (Table, Option<nat>) {
    match Requested(server, address)
    case None => (l, None)
    case Some(yi) =>
      if Grants(l, mac, yi) then (l[yi := Lease(mac, Stamp(now))], Some(yi)) else (l, None)
  }

  /** The address of a lease, as written into the reply. */
  function AddressOf(server: Ip, yi: nat): Ip
    requires yi < MAX_IP
  {
    server[3 := BASE_IP + yi]
  }

  /** Which requests are granted, byte by byte: an address of the server's own network, whose last byte is one
      of the eight from 16 on, that is the client's already or nobody's. What is granted is what was asked
      for, in a lease written anew; otherwise the table stays as it is. */
  lemma GrantedIff(l: Table, server: Ip, mac: Mac, address: Option<Ip>, now: nat)
    ensures var (table, granted) := Request(l, server, mac, address, now);
            && (granted.Some? <==>
                  && address.Some?
                  && var a := address.value;
                     && a[0] == server[0] && a[1] == server[1] && a[2] == server[2] && 16 <= a[3] < 16 + 8
                     && (l[a[3] - 16].mac == mac || l[a[3] - 16].mac == [0, 0, 0, 0, 0, 0]))
            && (granted.Some? ==>
                  && granted.value == address.value[3] - 16
                  && AddressOf(server, granted.value) == address.value
                  && table == l[address.value[3] - 16 := Lease(mac, Stamp(now))])
            && (granted.None? ==> table == l)
  {
    hide Stamp;
    if address.Some? {
      var a := address.value;
      assert a[..3] == [a[0], a[1], a[2]] && server[..3] == [server[0], server[1], server[2]];
      assert a == a[..3] + [a[3]] && server == server[..3] + [server[3]];
    }
  }

  /** An offer is kept: the client that asks at once for the address it was offered gets it, and a
      client is ignored exactly when every address is held, unexpired, by another. */
  lemma OfferIsGranted(l: Table, server: Ip, mac: Mac, clock: seq<nat>, now: nat)
    requires |clock| == MAX_IP
    ensures var (r, offer) := Discover(l, mac, clock);
            && (offer.None? <==> forall k :: 0 <= k < MAX_IP ==> !Available(l[k], mac, clock[k]))
            && (offer.Some? ==>
                  (offer.value < MAX_IP && Request(r, server, mac, Some(AddressOf(server, offer.value)), now).1
                   == offer))
  {
    hide Scan, Available, Stamp;
    ScanMeets(l, mac, clock, 0, MAX_IP);
    var (r, y) := Scan(l, mac, clock, 0, MAX_IP);
    if y < MAX_IP {
      var a := AddressOf(server, y);
      assert a[..3] == server[..3];
      assert Requested(server, Some(a)) == Some(y);
    }
  }

  // ---------------------------------------------------------------- runs

  datatype Event =
    | DiscoverEvent(mac: Mac, clock: seq<nat>)
    | RequestEvent(mac: Mac, address: Option<Ip>, now: nat)
  {
    /** The event's clock readings are in order, no earlier than t. */
    predicate From(t: nat) {
      match this
      case DiscoverEvent(_, clock) =>
        |clock| == MAX_IP && t <= clock[0] && forall i, j :: 0 <= i <= j < MAX_IP ==> clock[i] <= clock[j]
      case RequestEvent(_, _, now) => t <= now
    }

    function Finish(): nat
      requires From(0)
    {
      if DiscoverEvent? then clock[MAX_IP - 1] else now
    }
  }

  /** An acknowledgement: which lease, the address given, to whom, when. */
  datatype Ack = Ack(yi: nat, address: Ip, mac: Mac, time: nat)

  predicate Ordered(events: seq<Event>, t: nat)
    decreases events
  {
    events != [] ==> events[0].From(t) && Ordered(events[1..], events[0].Finish())
  }

  function Step(l: Table, server: Ip, e: Event): (Table, seq<Ack>)
    requires e.From(0)
  {
    match e
    case DiscoverEvent(mac, clock) => (Discover(l, mac, clock).0, [])
    case RequestEvent(mac, address, now) =>
      var (r, granted) := Request(l, server, mac, address, now);
      (r, if granted.Some? then [Ack(granted.value, AddressOf(server, granted.value), mac, now)] else [])
  }

  /** The acknowledgements sent over a run of events from time t on. */
  function Acks(l: Table, server: Ip, events: seq<Event>, t: nat): seq<Ack>
    requires Ordered(events, t)
    decreases events
  {
    if events == [] then [] else
      var (r, acks) := Step(l, server, events[0]);
      acks + Acks(r, server, events[1..], events[0].Finish())
  }

  /** Every acknowledgement of a run gives a client the very address it asked for. */
  lemma {:induction false} AckedIsRequested(l: Table, server: Ip, events: seq<Event>, t: nat)
    requires Ordered(events, t)
    ensures forall a :: a in Acks(l, server, events, t) ==>
              && a.yi < MAX_IP && a.address == AddressOf(server, a.yi)
              && RequestEvent(a.mac, Some(a.address), a.time) in events
    decreases events
  {
    hide Discover, Request, AddressOf;
    if events != [] {
      var e := events[0];
      AckedIsRequested(Step(l, server, e).0, server, events[1..], e.Finish());
      if e.RequestEvent? {
        GrantedIff(l, server, e.mac, e.address, e.now);
      }
    }
  }

  lemma AddressesDiffer(server: Ip, i: nat, j: nat)
    requires i < MAX_IP && j < MAX_IP
    ensures AddressOf(server, i) == AddressOf(server, j) <==> i == j
  {
    assert AddressOf(server, i)[3] == BASE_IP + i && AddressOf(server, j)[3] == BASE_IP + j;
  }

  // ---------------------------------------------------------------- exclusivity

  /** Lease yi is held by a client whose latest acknowledgement was at time u. */
  predicate Held(l: Table, yi: nat, mac: Mac, u: nat) {
    yi < MAX_IP && mac != NoMac() && l[yi] == Lease(mac, Stamp(u))
  }

  lemma DiscoverKeepsHeld(l: Table, e: Event, yi: nat, holder: Mac, u: nat)
    requires e.DiscoverEvent? && e.From(u) && Held(l, yi, holder, u) && e.Finish() <= End(u)
    ensures Held(Discover(l, e.mac, e.clock).0, yi, holder, u)
  {
    hide Scan, Expired, Stamp, End;
    ScanMeets(l, e.mac, e.clock, 0, MAX_IP);
    ExpiredExactly(u, e.clock[yi]);
  }

  lemma {:induction false} AcksFrom(l: Table, server: Ip, events: seq<Event>, t: nat)
    requires Ordered(events, t)
    ensures forall a :: a in Acks(l, server, events, t) ==> a.time >= t
    decreases events
  {
    hide Discover, Request;
    if events != [] {
      var e := events[0];
      AcksFrom(Step(l, server, e).0, server, events[1..], e.Finish());
      assert e.Finish() >= t;
    }
  }

  lemma EndMonotone(u: nat, v: nat)
    requires u <= v
    ensures End(u) <= End(v)
  {
  }

  lemma {:induction false} HeldIsExclusive(l: Table, server: Ip, events: seq<Event>, t: nat, yi: nat, holder: Mac,
                                           u: nat)
    requires Ordered(events, t) && u <= t && Held(l, yi, holder, u)
    ensures forall a :: a in Acks(l, server, events, t) && a.yi == yi && a.time <= End(u) ==> a.mac == holder
    decreases events
  {
    hide Discover, Stamp, End;
    if events != [] {
      var e, rest := events[0], events[1..];
      var (r, acks) := Step(l, server, e);
      AcksFrom(r, server, rest, e.Finish());
      if e.Finish() <= End(u) {
        if e.DiscoverEvent? {
          DiscoverKeepsHeld(l, e, yi, holder, u);
          HeldIsExclusive(r, server, rest, e.Finish(), yi, holder, u);
        } else if Requested(server, e.address) == Some(yi) && e.mac == holder {
          EndMonotone(u, e.now);
          HeldIsExclusive(r, server, rest, e.now, yi, holder, e.now);
        } else {
          assert Held(r, yi, holder, u);
          HeldIsExclusive(r, server, rest, e.now, yi, holder, u);
        }
      }
    }
  }

  /** Lease exclusivity over unbounded time: an address acknowledged to a client is acknowledged to
      no other before `End`, which is the full lease time later. */
  lemma {:induction false} LeaseExclusive(l: Table, server: Ip, events: seq<Event>, t: nat, i: nat, j: nat)
    requires Ordered(events, t) && i < j < |Acks(l, server, events, t)|
    ensures var a, b := Acks(l, server, events, t)[i], Acks(l, server, events, t)[j];
            && (a.yi == b.yi && a.mac != NoMac() && b.time <= End(a.time) ==> b.mac == a.mac)
            && a.time + LEASE_MS <= End(a.time)
    decreases events
  {
    hide Discover, Stamp, End;
    ExpiredExactly(Acks(l, server, events, t)[i].time, 0);
    var e, rest := events[0], events[1..];
    var (r, acks) := Step(l, server, e);
    var later := Acks(r, server, rest, e.Finish());
    if i >= |acks| {
      LeaseExclusive(r, server, rest, e.Finish(), i - |acks|, j - |acks|);
    } else {
      var a := acks[0];
      assert later[j - 1] in later;
      if a.mac != NoMac() {
        HeldIsExclusive(r, server, rest, e.Finish(), a.yi, a.mac, a.time);
      }
    }
  }

  /** In terms of addresses: no two clients are given one address within 24 hours, and each is given what it
      asked for. */
  lemma AddressExclusive(l: Table, server: Ip, events: seq<Event>, t: nat, i: nat, j: nat)
    requires Ordered(events, t) && i < j < |Acks(l, server, events, t)|
    ensures var a, b := Acks(l, server, events, t)[i], Acks(l, server, events, t)[j];
            && RequestEvent(a.mac, Some(a.address), a.time) in events
            && RequestEvent(b.mac, Some(b.address), b.time) in events
            && (a.address == b.address && a.mac != NoMac() && b.time <= End(a.time) ==> b.mac == a.mac)
            && a.time + 86_400_000 <= End(a.time)
  {
    hide Acks, End, AddressOf;
    AckedIsRequested(l, server, events, t);
    LeaseExclusive(l, server, events, t, i, j);
    var a, b := Acks(l, server, events, t)[i], Acks(l, server, events, t)[j];
    AddressesDiffer(server, a.yi, b.yi);
  }
}
