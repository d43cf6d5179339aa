/** The NAT table as a value: buckets in insertion order, each with its flows, newest first.
    What one packet or one cleaning pass does to it, and what holds over any run. */
module NatSpec {
  import opened Timing

  type Ip = bv32     // an address as it lies in memory
  type Key = bv32    // the key bytes of a bucket
  type Port = bv16   // a port in host order; 0 for protocols without ports

  const TCP_PROTO: nat := 0x06
  const UDP_PROTO: nat := 0x11
  const NAT_CLEAN_TIME: int := 20   // seconds; what clean_nat_table compares against

  /** The part of an IPv4 packet that NAT reads and rewrites. */
  datatype Packet = Packet(proto: nat, saddr: Ip, sport: Port, daddr: Ip, dport: Port)

  datatype Error = BucketNotFound | EntryNotFound
  datatype Result<+T> = Ok(value: T) | Err(error: Error)

  /** One translated connection: the internal endpoint and the gateway endpoint standing in for it. */
  datatype Flow = Flow(proto: nat, intIP: Ip, intPort: Port, gateIP: Ip, gatePort: Port, lastUsed: Timespec)

  datatype Bucket = Bucket(key: Key, flows: seq<Flow>)

  type Table = seq<Bucket>

  function Widen(port: Port): bv32 {
    port as bv32
  }

  /** The key of an external endpoint. */
  function BucketKey(ip: Ip, port: Port): Key {
    ip ^ Widen(port)
  }

  /** Ports exist for TCP and UDP only. */
  function WithSource(p: Packet, ip: Ip, port: Port): Packet {
    if p.proto == TCP_PROTO || p.proto == UDP_PROTO then p.(saddr := ip, sport := port) else p.(saddr := ip)
  }

  function WithDest(p: Packet, ip: Ip, port: Port): Packet {
    if p.proto == TCP_PROTO || p.proto == UDP_PROTO then p.(daddr := ip, dport := port) else p.(daddr := ip)
  }

  predicate Internal(f: Flow, proto: nat, ip: Ip, port: Port) {
    f.proto == proto && f.intPort == port && f.intIP == ip
  }

  predicate External(f: Flow, proto: nat, ip: Ip, port: Port) {
    f.proto == proto && f.gatePort == port && f.gateIP == ip
  }

  /** First position with that key, that internal, that gateway endpoint; the length if none. */
  function FindBucket(t: Table, key: Key): (i: nat)
    ensures i <= |t| && (i < |t| ==> t[i].key == key)
    ensures forall j :: 0 <= j < i ==> t[j].key != key
  {
    if t == [] || t[0].key == key then 0 else 1 + FindBucket(t[1..], key)
  }

  function FindInternal(fs: seq<Flow>, proto: nat, ip: Ip, port: Port): (i: nat)
    ensures i <= |fs| && (i < |fs| ==> Internal(fs[i], proto, ip, port))
    ensures forall j :: 0 <= j < i ==> !Internal(fs[j], proto, ip, port)
  {
    if fs == [] || Internal(fs[0], proto, ip, port) then 0 else 1 + FindInternal(fs[1..], proto, ip, port)
  }

  function FindExternal(fs: seq<Flow>, proto: nat, ip: Ip, port: Port): (i: nat)
    ensures i <= |fs| && (i < |fs| ==> External(fs[i], proto, ip, port))
    ensures forall j :: 0 <= j < i ==> !External(fs[j], proto, ip, port)
  {
    if fs == [] || External(fs[0], proto, ip, port) then 0 else 1 + FindExternal(fs[1..], proto, ip, port)
  }

  function Touch(fs: seq<Flow>, i: nat, now: Timespec): seq<Flow>
    requires i < |fs|
  {
    fs[i := fs[i].(lastUsed := now)]
  }

  function WithBucket(t: Table, key: Key): (r: Table)
    ensures FindBucket(t, key) < |r|
  {
    if FindBucket(t, key) < |t| then t else t + [Bucket(key, [])]
  }

  function WithFlow(fs: seq<Flow>, p: Packet, now: Timespec, gateIP: Ip): (r: seq<Flow>)
    ensures FindInternal(r, p.proto, p.saddr, p.sport) < |r|
  {
    if FindInternal(fs, p.proto, p.saddr, p.sport) < |fs| then fs
    else [Flow(p.proto, p.saddr, p.sport, gateIP, p.sport, now)] + fs
  }

  /** The b-th bucket finds or creates the packet's flow and marks it used; the packet takes the
      flow's gateway endpoint as its source. */
  function Translated(t: Table, b: nat, p: Packet, now: Timespec, gateIP: Ip): (Table, Packet)
    requires b < |t|
  {
    var fs := WithFlow(t[b].flows, p, now, gateIP);
    var i := FindInternal(fs, p.proto, p.saddr, p.sport);
    (t[b := t[b].(flows := Touch(fs, i, now))], WithSource(p, fs[i].gateIP, fs[i].gatePort))
  }

  /** do_nat_outbound_rewrite: the table afterwards and the rewritten packet. */
  function Outbound(t: Table, p: Packet, now: Timespec, gateIP: Ip): (Table, Packet) {
    var key := BucketKey(p.daddr, p.dport);
    Translated(WithBucket(t, key), FindBucket(t, key), p, now, gateIP)
  }

  /** do_nat_inbound_rewrite: an error leaves the table as it is. */
  function Inbound(t: Table, p: Packet, now: Timespec): Result<(Table, Packet)> {
    var b := FindBucket(t, BucketKey(p.saddr, p.sport));
    if b == |t| then Err(BucketNotFound)
    else
      var fs := t[b].flows;
      var i := FindExternal(fs, p.proto, p.daddr, p.dport);
      if i == |fs| then Err(EntryNotFound)
      else Ok((t[b := t[b].(flows := Touch(fs, i, now))], WithDest(p, fs[i].intIP, fs[i].intPort)))
  }

  predicate Expired(f: Flow, now: Timespec) {
    TimeOffset(f.lastUsed, now) > NAT_CLEAN_TIME * 1000
  }

  function Fresh(fs: seq<Flow>, now: Timespec): seq<Flow> {
    if fs == [] then [] else (if Expired(fs[0], now) then [] else [fs[0]]) + Fresh(fs[1..], now)
  }

  /** clean_nat_table: the flows that are not expired, in the buckets that keep any. */
  function Cleaned(t: Table, now: Timespec): Table {
    if t == [] then []
    else
      var fs := Fresh(t[0].flows, now);
      (if fs == [] then [] else [t[0].(flows := fs)]) + Cleaned(t[1..], now)
  }

  datatype Event = Out(p: Packet, now: Timespec, gateIP: Ip) | In(p: Packet, now: Timespec) | Clean(now: Timespec)

  function Apply(t: Table, e: Event): Table {
    match e
    case Out(p, now, gateIP) => Outbound(t, p, now, gateIP).0
    case In(p, now) => (match Inbound(t, p, now) case Ok(r) => r.0 case Err(_) => t)
    case Clean(now) => Cleaned(t, now)
  }

  function ApplyAll(t: Table, es: seq<Event>): Table {
    if es == [] then t else Apply(ApplyAll(t, es[..|es| - 1]), es[|es| - 1])
  }

  ghost predicate UniqueKeys(t: Table) {
    forall i, j :: 0 <= i < j < |t| ==> t[i].key != t[j].key
  }

  ghost predicate UniqueFlows(fs: seq<Flow>) {
    forall i, j :: 0 <= i < j < |fs| ==> !Internal(fs[j], fs[i].proto, fs[i].intIP, fs[i].intPort)
  }

  /** In every reachable table keys are unique, no bucket is empty, flows are unique in their
      bucket, and the gateway port is the internal port. */
  ghost predicate WellFormed(t: Table) {
    && UniqueKeys(t)
    && (forall b :: b in t ==>
        b.flows != [] && UniqueFlows(b.flows) && forall f :: f in b.flows ==> f.gatePort == f.intPort)
  }
}
