/** Device discovery on the local network (service/discovery_service.go): which interfaces and
    addresses a broadcast is sent from, the IPv4 broadcast address, and how replies become a list
    of devices reported once per address and port. Sockets are not modelled: the replies, merged
    across interfaces in arrival order, are a parameter. Addresses are byte sequences. */
module Discovery {
  import opened Wrappers
  import opened Text
  import opened Types
  import opened Seqs

  type Bytes = seq<bv8>

  // ----- getBroadcastAddress -----

  /** `IP.To4`: a 4-byte address as it is, an IPv4-mapped 16-byte address as its last four
      bytes, and nothing for any other address. */
  function To4(ip: Bytes): (r: Option<Bytes>)
    ensures r.Some? ==> |ip| >= 4 && |r.value| == 4 && r.value == ip[|ip| - 4..]
    ensures |ip| == 4 ==> r == Some(ip)
    ensures |ip| != 4 && |ip| != 16 ==> r.None?
  {
    if |ip| == 4 then Some(ip)
    else if |ip| == 16 && (forall i :: 0 <= i < 10 ==> ip[i] == 0) && ip[10] == 0xff && ip[11] == 0xff then Some(ip[12..])
    else None
  }

  /** `getBroadcastAddress`: nothing unless the address is IPv4 and the mask has exactly four
      bytes; otherwise each byte keeps the address's network bits and sets every host bit. */
  function BroadcastAddress(ip: Bytes, mask: Bytes): (r: Option<Bytes>)
    ensures r.Some? <==> To4(ip).Some? && |mask| == 4
    ensures r.Some? ==> (|r.value| == 4 &&
      forall i :: 0 <= i < 4 ==> r.value[i] & mask[i] == To4(ip).value[i] & mask[i] && r.value[i] | mask[i] == 0xff)
  {
    match To4(ip)
    case None => None
    case Some(v4) =>
      if |mask| != 4 then None
      else Some(seq(4, i requires 0 <= i < 4 => v4[i] | !mask[i]))
  }

  /** The broadcast address is the only address with the network bits of `ip` and all host
      bits set. */
  lemma BroadcastUnique(ip: Bytes, mask: Bytes, b: Bytes)
    requires BroadcastAddress(ip, mask).Some? && |b| == 4
    requires forall i :: 0 <= i < 4 ==> b[i] & mask[i] == To4(ip).value[i] & mask[i] && b[i] | mask[i] == 0xff
    ensures b == BroadcastAddress(ip, mask).value
  {
    var r := BroadcastAddress(ip, mask).value;
    forall i | 0 <= i < 4
      ensures b[i] == r[i]
    {
      ByteFromParts(b[i], r[i], mask[i]);
    }
  }

  /** A byte is determined by its bits inside a mask and its bits outside it. */
  lemma ByteFromParts(x: bv8, y: bv8, m: bv8)
    requires x & m == y & m && x | m == y | m
    ensures x == y
  {
  }

  // ----- Interfaces and addresses -----

  /** An interface address: an IP network (address and mask) or some other kind of address. */
  datatype Addr = IpNet(ip: Bytes, mask: Bytes) | OtherAddr

  /** A network interface: its flags, and its addresses (None when they cannot be read). */
  datatype Interface = Interface(name: string, up: bool, loopback: bool, broadcast: bool, addrs: Option<seq<Addr>>)

  /** The interfaces a broadcast is sent on: up, not loopback, broadcast-capable. */
  predicate UsableInterface(iface: Interface) {
    iface.up && !iface.loopback && iface.broadcast
  }

  /** The IPv4 loopback test on a 4-byte address. */
  predicate IsLoopback4(v4: Bytes)
    requires |v4| == 4
  {
    v4[0] == 127
  }

  /** The broadcast address an address sends to, if it sends at all. */
  function SendsTo(a: Addr): Option<Bytes> {
    if !a.IpNet? || To4(a.ip).None? || IsLoopback4(To4(a.ip).value) then None
    else BroadcastAddress(a.ip, a.mask)
  }

  /** An address sends exactly when it is an IPv4, non-loopback network address whose broadcast
      address can be computed, and then it sends to that broadcast address. */
  lemma SendsToIff(a: Addr)
    ensures SendsTo(a).Some? <==> a.IpNet? && To4(a.ip).Some? && !IsLoopback4(To4(a.ip).value) &&
                                  |a.mask| == 4
    ensures SendsTo(a).Some? ==> SendsTo(a) == BroadcastAddress(a.ip, a.mask)
  {
  }

  /** Some address of the list sends to `b`. */
  predicate SentFrom(addrs: seq<Addr>, b: Bytes) {
    exists k :: 0 <= k < |addrs| && SendsTo(addrs[k]) == Some(b)
  }

  lemma SentFromCons(addrs: seq<Addr>, b: Bytes)
    requires |addrs| > 0
    ensures SentFrom(addrs, b) <==> SendsTo(addrs[0]) == Some(b) || SentFrom(addrs[1..], b)
  {
    var tail := addrs[1..];
    assert forall k :: 1 <= k < |addrs| ==> addrs[k] == tail[k - 1];
    if SentFrom(addrs, b) && SendsTo(addrs[0]) != Some(b) {
      var k :| 0 <= k < |addrs| && SendsTo(addrs[k]) == Some(b);
      assert SendsTo(tail[k - 1]) == Some(b);
    }
    if SentFrom(tail, b) {
      var k :| 0 <= k < |tail| && SendsTo(tail[k]) == Some(b);
      assert SendsTo(addrs[k + 1]) == Some(b);
    }
  }

  /** The broadcast addresses of one interface's addresses, in order. */
  function AddrTargets(addrs: seq<Addr>): (r: seq<Bytes>)
    ensures forall b :: b in r <==> SentFrom(addrs, b)
  {
    if |addrs| == 0 then []
    else
      var rest := AddrTargets(addrs[1..]);
      var head := if SendsTo(addrs[0]).Some? then [SendsTo(addrs[0]).value] else [];
      AddrTargetsCons(addrs, head, rest);
      head + rest
  }

  lemma AddrTargetsCons(addrs: seq<Addr>, head: seq<Bytes>, rest: seq<Bytes>)
    requires |addrs| > 0 && head == if SendsTo(addrs[0]).Some? then [SendsTo(addrs[0]).value] else []
    requires forall b :: b in rest <==> SentFrom(addrs[1..], b)
    ensures forall b :: b in head + rest <==> SentFrom(addrs, b)
  {
    forall b ensures b in head + rest <==> SentFrom(addrs, b) {
      SentFromCons(addrs, b);
    }
  }

  /** Some usable interface whose addresses can be read sends to `b`. */
  predicate SentOn(ifaces: seq<Interface>, b: Bytes) {
    exists k :: 0 <= k < |ifaces| && UsableInterface(ifaces[k]) && ifaces[k].addrs.Some? &&
                b in AddrTargets(ifaces[k].addrs.value)
  }

  lemma SentOnCons(ifaces: seq<Interface>, b: Bytes)
    requires |ifaces| > 0
    ensures SentOn(ifaces, b) <==>
      (UsableInterface(ifaces[0]) && ifaces[0].addrs.Some? && b in AddrTargets(ifaces[0].addrs.value)) ||
      SentOn(ifaces[1..], b)
  {
    if SentOn(ifaces[1..], b) {
      var k :| 0 <= k < |ifaces[1..]| && UsableInterface(ifaces[1..][k]) && ifaces[1..][k].addrs.Some? &&
               b in AddrTargets(ifaces[1..][k].addrs.value);
      assert ifaces[k + 1] == ifaces[1..][k];
    }
    if SentOn(ifaces, b) {
      var k :| 0 <= k < |ifaces| && UsableInterface(ifaces[k]) && ifaces[k].addrs.Some? &&
               b in AddrTargets(ifaces[k].addrs.value);
      if k > 0 {
        assert ifaces[1..][k - 1] == ifaces[k];
      }
    }
  }

  /** Every address a broadcast is sent to, over the usable interfaces whose addresses can be
      read. */
  function BroadcastTargets(ifaces: seq<Interface>): (r: seq<Bytes>)
    ensures forall b :: b in r <==> SentOn(ifaces, b)
  {
    if |ifaces| == 0 then []
    else
      var rest := BroadcastTargets(ifaces[1..]);
      forall b
        ensures SentOn(ifaces, b) <==>
          (UsableInterface(ifaces[0]) && ifaces[0].addrs.Some? && b in AddrTargets(ifaces[0].addrs.value)) ||
          SentOn(ifaces[1..], b)
      {
        SentOnCons(ifaces, b);
      }
      if UsableInterface(ifaces[0]) && ifaces[0].addrs.Some? then AddrTargets(ifaces[0].addrs.value) + rest
      else rest
  }

  // ----- Replies and de-duplication -----

  /** A reply: the 4-byte address it came from, and its payload decoded as a device (None when it
      does not decode). */
  datatype Reply = Reply(from: Bytes, device: Option<ZimaOSDevice>)

  /** The dotted-decimal text of a 4-byte address. */
  function Dotted(b: Bytes): (s: string)
    requires |b| == 4
    ensures ':' !in s && '?' !in s && '&' !in s && '/' !in s
  {
    NatToString(b[0] as nat) + "." + NatToString(b[1] as nat) + "." + NatToString(b[2] as nat) + "." +
    NatToString(b[3] as nat)
  }

  /** The key a device is remembered under: the responder's address and the port it reports. */
  function DeviceKey(ip: string, port: int): (k: string)
    ensures |k| > |ip| && k[..|ip|] == ip && k[|ip|] == ':'
    ensures MinInt64 <= port <= MaxInt64 ==> Atoi(k[|ip| + 1..]) == Some(port)
  {
    var k := ip + ":" + IntToString(port);
    assert k[|ip| + 1..] == IntToString(port);
    if MinInt64 <= port <= MaxInt64 then AtoiIntToString(port); k else k
  }

  /** Distinct keys mean distinct responders or ports: an address text holds no `:`, so the key
      splits back into both parts. */
  lemma DeviceKeyInjective(ip1: string, port1: int, ip2: string, port2: int)
    requires ':' !in ip1 && ':' !in ip2
    requires MinInt64 <= port1 <= MaxInt64 && MinInt64 <= port2 <= MaxInt64
    requires DeviceKey(ip1, port1) == DeviceKey(ip2, port2)
    ensures ip1 == ip2 && port1 == port2
  {
    var k := DeviceKey(ip1, port1);
    var p1 := IntToString(port1);
    var p2 := IntToString(port2);
    assert forall i :: 0 <= i < |ip1| ==> k[i] == ip1[i];
    assert forall i :: 0 <= i < |ip2| ==> k[i] == ip2[i];
    assert k[|ip1|] == ':' && k[|ip2|] == ':';
    assert ip1 == k[..|ip1|] == ip2;
    assert p1 == k[|ip1| + 1..] == p2;
    AtoiIntToString(port1);
    AtoiIntToString(port2);
  }

  /** The device image URL at the responder's address and reported port. */
  function ImageUrl(ip: string, port: int, model: string): (u: string)
    ensures StartsWith(u, "http://" + DeviceKey(ip, port) + "/")
  {
    var origin := "http://" + DeviceKey(ip, port) + "/";
    var u := origin + ("v2/zimaos/device/image?model=" + model + "&type=client");
    assert u[..|origin|] == origin;
    u
  }

  /** The device reported for a reply: the payload with the responder's address as its `ip`
      and the image URL built from it. */
  function Reported(from: Bytes, d: ZimaOSDevice): (r: ZimaOSDevice)
    requires |from| == 4
    ensures r.ip == Dotted(from) && r.imageUrl == ImageUrl(Dotted(from), d.port, d.deviceModel)
    ensures r.port == d.port && r.deviceModel == d.deviceModel && r.deviceName == d.deviceName
  {
    d.(ip := Dotted(from), imageUrl := ImageUrl(Dotted(from), d.port, d.deviceModel))
  }

  function KeyOf(d: ZimaOSDevice): string {
    DeviceKey(d.ip, d.port)
  }

  /** The key a decodable reply is remembered under. */
  function ReplyKey(rp: Reply): string
    requires |rp.from| == 4 && rp.device.Some?
  {
    DeviceKey(Dotted(rp.from), rp.device.value.port)
  }

  predicate FromIPv4(replies: seq<Reply>) {
    forall k :: 0 <= k < |replies| ==> |replies[k].from| == 4
  }

  /** The reply loop with the shared `seen` set: undecodable replies are skipped, a reply whose
      key was seen before is dropped, and any other reply is reported and its key remembered.
      Returns the devices in order and the final seen set. */
  function Dedupe(replies: seq<Reply>, seen: set<string>): (r: (seq<ZimaOSDevice>, set<string>))
    requires FromIPv4(replies)
    ensures seen <= r.1
    ensures |r.0| <= |replies|
  {
    if |replies| == 0 then ([], seen)
    else
      var rp := replies[0];
      assert FromIPv4(replies[1..]) by {
        assert forall k :: 0 <= k < |replies[1..]| ==> replies[1..][k] == replies[k + 1];
      }
      if rp.device.None? || ReplyKey(rp) in seen then Dedupe(replies[1..], seen)
      else
        var rest := Dedupe(replies[1..], seen + {ReplyKey(rp)});
        ([Reported(rp.from, rp.device.value)] + rest.0, rest.1)
  }

  lemma TailFromIPv4(replies: seq<Reply>)
    requires FromIPv4(replies) && |replies| > 0
    ensures FromIPv4(replies[1..])
  {
    assert forall k :: 0 <= k < |replies[1..]| ==> replies[1..][k] == replies[k + 1];
  }

  /** The keys of a list of devices, in order. */
  function Keys(devices: seq<ZimaOSDevice>): (keys: seq<string>)
    ensures |keys| == |devices| && forall i :: 0 <= i < |devices| ==> keys[i] == KeyOf(devices[i])
  {
    Map(devices, KeyOf)
  }

  lemma KeysCons(d: ZimaOSDevice, rest: seq<ZimaOSDevice>)
    ensures Keys([d] + rest) == [KeyOf(d)] + Keys(rest)
  {
    MapCons(d, rest, KeyOf);
  }

  lemma KeyReportedCons(d: ZimaOSDevice, rest: seq<ZimaOSDevice>, key: string)
    ensures KeyReported([d] + rest, key) <==> key == KeyOf(d) || KeyReported(rest, key)
  {
    KeysCons(d, rest);
  }

  /** The keys are pairwise distinct, none was in `seen`, and all are in `seen'`. */
  predicate DistinctFresh(keys: seq<string>, seen: set<string>, seen': set<string>) {
    (forall i, j :: 0 <= i < j < |keys| ==> keys[i] != keys[j]) &&
    (forall i :: 0 <= i < |keys| ==> keys[i] !in seen && keys[i] in seen')
  }

  /** The reported keys are pairwise distinct, none was in `seen`, and all are in `seen'`. */
  predicate KeysOnce(devices: seq<ZimaOSDevice>, seen: set<string>, seen': set<string>) {
    DistinctFresh(Keys(devices), seen, seen')
  }

  /** No key is reported twice, and none that was already seen. */
  lemma {:induction false} DedupeReportsOnce(replies: seq<Reply>, seen: set<string>)
    requires FromIPv4(replies)
    ensures KeysOnce(Dedupe(replies, seen).0, seen, Dedupe(replies, seen).1)
  {
    if |replies| > 0 {
      var rp := replies[0];
      TailFromIPv4(replies);
      if rp.device.None? || ReplyKey(rp) in seen {
        assert Dedupe(replies, seen) == Dedupe(replies[1..], seen);
        DedupeReportsOnce(replies[1..], seen);
      } else {
        var key := ReplyKey(rp);
        DedupeReportsOnce(replies[1..], seen + {key});
        var rest := Dedupe(replies[1..], seen + {key});
        var d := Reported(rp.from, rp.device.value);
        assert KeyOf(d) == key;
        assert Dedupe(replies, seen) == ([d] + rest.0, rest.1);
        ConsKeysOnce(d, rest.0, seen, key, rest.1);
      }
    }
  }

  /** A device with a new key in front of devices reported after remembering that key. */
  lemma ConsKeysOnce(d: ZimaOSDevice, rest: seq<ZimaOSDevice>, seen: set<string>, key: string, seen': set<string>)
    requires KeysOnce(rest, seen + {key}, seen') && KeyOf(d) == key && key !in seen && key in seen'
    ensures KeysOnce([d] + rest, seen, seen')
  {
    KeysCons(d, rest);
    ConsDistinct(key, Keys(rest), seen, seen');
  }

  /** The same fact about the keys alone. */
  lemma ConsDistinct(key: string, keys: seq<string>, seen: set<string>, seen': set<string>)
    requires DistinctFresh(keys, seen + {key}, seen') && key !in seen && key in seen'
    ensures DistinctFresh([key] + keys, seen, seen')
  {
    var all := [key] + keys;
    assert forall i :: 1 <= i < |all| ==> all[i] == keys[i - 1];
  }

  /** Some reported device carries the key. */
  predicate KeyReported(devices: seq<ZimaOSDevice>, key: string) {
    key in Keys(devices)
  }

  /** Nothing decodable is lost: every decodable reply's key ends up seen, and it was either
      seen before or belongs to a reported device. */
  lemma DedupeComplete(replies: seq<Reply>, seen: set<string>, k: nat)
    requires FromIPv4(replies) && k < |replies| && replies[k].device.Some?
    ensures ReplyKey(replies[k]) in Dedupe(replies, seen).1
    ensures ReplyKey(replies[k]) in seen || KeyReported(Dedupe(replies, seen).0, ReplyKey(replies[k]))
  {
    DedupeFollowsKeys(replies, seen);
    assert ReplyKeys(replies)[k] == Some(ReplyKey(replies[k]));
    FirstSightingsComplete(ReplyKeys(replies), seen, k);
  }

  /** The key each reply contributes to the loop: none for an undecodable one. */
  function ReplyKeys(replies: seq<Reply>): (keys: seq<Option<string>>)
    requires FromIPv4(replies)
    ensures |keys| == |replies|
    ensures forall i :: 0 <= i < |replies| ==>
      keys[i] == if replies[i].device.Some? then Some(ReplyKey(replies[i])) else None
  {
    seq(|replies|, i requires 0 <= i < |replies| =>
      if replies[i].device.Some? then Some(ReplyKey(replies[i])) else None)
  }

  /** The seen-set loop on keys alone: the keys kept, in order, and the final seen set. */
  function FirstSightings<K>(keys: seq<Option<K>>, seen: set<K>): (r: (seq<K>, set<K>))
    ensures seen <= r.1
  {
    if |keys| == 0 then ([], seen)
    else if keys[0].None? || keys[0].value in seen then FirstSightings(keys[1..], seen)
    else
      var rest := FirstSightings(keys[1..], seen + {keys[0].value});
      ([keys[0].value] + rest.0, rest.1)
  }

  /** Every key offered ends up seen, and it was either seen before or kept. */
  lemma {:induction false} FirstSightingsComplete<K>(keys: seq<Option<K>>, seen: set<K>, k: nat)
    requires k < |keys| && keys[k].Some?
    ensures keys[k].value in FirstSightings(keys, seen).1
    ensures keys[k].value in seen || keys[k].value in FirstSightings(keys, seen).0
  {
    var tail := keys[1..];
    if k > 0 {
      assert keys[k] == tail[k - 1];
    }
    if keys[0].None? || keys[0].value in seen {
      if k > 0 {
        FirstSightingsComplete(tail, seen, k - 1);
      }
    } else if k > 0 {
      FirstSightingsComplete(tail, seen + {keys[0].value}, k - 1);
    }
  }

  /** The reply loop keeps exactly what the seen-set loop on the replies' keys keeps. */
  lemma {:induction false} DedupeFollowsKeys(replies: seq<Reply>, seen: set<string>)
    requires FromIPv4(replies)
    ensures Keys(Dedupe(replies, seen).0) == FirstSightings(ReplyKeys(replies), seen).0
    ensures Dedupe(replies, seen).1 == FirstSightings(ReplyKeys(replies), seen).1
  {
    if |replies| > 0 {
      var rp := replies[0];
      var tail := replies[1..];
      TailFromIPv4(replies);
      assert ReplyKeys(replies)[1..] == ReplyKeys(tail);
      if rp.device.None? || ReplyKey(rp) in seen {
        SkipStep(replies, seen);
        DedupeFollowsKeys(tail, seen);
      } else {
        var key := ReplyKey(rp);
        var rest := Dedupe(tail, seen + {key});
        var d := Reported(rp.from, rp.device.value);
        ReportStep(replies, seen);
        KeysCons(d, rest.0);
        DedupeFollowsKeys(tail, seen + {key});
      }
    }
  }

  /** One step of the loop over a reply it skips or drops. */
  lemma SkipStep(replies: seq<Reply>, seen: set<string>)
    requires FromIPv4(replies) && |replies| > 0
    requires replies[0].device.None? || ReplyKey(replies[0]) in seen
    ensures FromIPv4(replies[1..]) && Dedupe(replies, seen) == Dedupe(replies[1..], seen)
  {
    TailFromIPv4(replies);
  }

  /** One step of the loop over a reply it reports. */
  lemma ReportStep(replies: seq<Reply>, seen: set<string>)
    requires FromIPv4(replies) && |replies| > 0
    requires replies[0].device.Some? && ReplyKey(replies[0]) !in seen
    ensures FromIPv4(replies[1..])
    ensures var rp := replies[0];
      var rest := Dedupe(replies[1..], seen + {ReplyKey(rp)});
      var d := Reported(rp.from, rp.device.value);
      KeyOf(d) == ReplyKey(rp) && Dedupe(replies, seen) == ([d] + rest.0, rest.1)
  {
    TailFromIPv4(replies);
  }

  /** The device is what some decodable reply of the list reports. */
  predicate ReportedFrom(replies: seq<Reply>, device: ZimaOSDevice) {
    exists k :: 0 <= k < |replies| && |replies[k].from| == 4 && replies[k].device.Some? &&
                device == Reported(replies[k].from, replies[k].device.value)
  }

  lemma ReportedFromTail(replies: seq<Reply>, device: ZimaOSDevice)
    requires |replies| > 0 && ReportedFrom(replies[1..], device)
    ensures ReportedFrom(replies, device)
  {
    var tail := replies[1..];
    var k :| 0 <= k < |tail| && |tail[k].from| == 4 && tail[k].device.Some? &&
             device == Reported(tail[k].from, tail[k].device.value);
    assert replies[k + 1] == tail[k];
  }

  /** Every reported device is a decodable reply, stamped with its responder's address. */
  lemma {:induction false} DedupeSound(replies: seq<Reply>, seen: set<string>, i: nat)
    requires FromIPv4(replies) && i < |Dedupe(replies, seen).0|
    ensures ReportedFrom(replies, Dedupe(replies, seen).0[i])
  {
    var rp := replies[0];
    var tail := replies[1..];
    TailFromIPv4(replies);
    if rp.device.None? || ReplyKey(rp) in seen {
      assert Dedupe(replies, seen) == Dedupe(tail, seen);
      DedupeSound(tail, seen, i);
      ReportedFromTail(replies, Dedupe(tail, seen).0[i]);
    } else {
      var rest := Dedupe(tail, seen + {ReplyKey(rp)});
      var devices := [Reported(rp.from, rp.device.value)] + rest.0;
      assert Dedupe(replies, seen).0 == devices;
      if i > 0 {
        DedupeSound(tail, seen + {ReplyKey(rp)}, i - 1);
        assert devices[i] == rest.0[i - 1];
        ReportedFromTail(replies, rest.0[i - 1]);
      } else {
        assert |replies[0].from| == 4;
      }
    }
  }

  /** A responder answering twice with the same port is reported once. */
  lemma RepeatedReplyReportedOnce(rp: Reply)
    requires |rp.from| == 4 && rp.device.Some?
    ensures |Dedupe([rp, rp], {}).0| == 1
  {
    assert [rp, rp][1..] == [rp];
    assert [rp][1..] == [];
    assert FromIPv4([rp]) && FromIPv4([]);
    assert Dedupe([], {ReplyKey(rp)}).0 == [];
    assert Dedupe([rp], {ReplyKey(rp)}) == Dedupe([], {ReplyKey(rp)});
  }
}
