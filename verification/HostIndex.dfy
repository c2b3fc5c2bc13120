/** svcreqollect's host map: every address of the node file is added to its host, and a lookup by address
    returns the position of a host. */
module HostIndex {
  import opened CText

  datatype Host = Host(host: string, ips: seq<string>)

  /** An address without the length of its network. */
  function Strip(ip: string): string { CutAt(ip, '/') }

  lemma StripCuts(address: string, length: string)
    requires '/' !in address
    ensures Strip(address) == address && Strip(address + "/" + length) == address
  {
    FindConcat(address, '/', length);
    assert address + ['/'] + length == address + "/" + length;
    FindIsFirst(address, '/');
    assert address[..|address|] == address;
  }

  // ----- the map as a value -----

  /** The first host of that name, or the number of hosts. */
  function IndexOf(hosts: seq<Host>, name: string, from: nat): (i: nat)
    requires from <= |hosts|
    ensures from <= i <= |hosts| && (i < |hosts| ==> hosts[i].host == name)
    ensures forall k :: from <= k < i ==> hosts[k].host != name
    decreases |hosts| - from
  {
    if from == |hosts| || hosts[from].host == name then from else IndexOf(hosts, name, from + 1)
  }

  function AddTo(hosts: seq<Host>, name: string, ip: string): seq<Host> {
    var i := IndexOf(hosts, name, 0);
    if i < |hosts| then hosts[i := Host(name, hosts[i].ips + [Strip(ip)])] else hosts + [Host(name, [Strip(ip)])]
  }

  /** The first host from `from` on with that address; None is UINT_MAX. */
  function FindIn(hosts: seq<Host>, ip: string, from: nat): (r: Option<nat>)
    requires from <= |hosts|
    ensures r.Some? ==> from <= r.value < |hosts| && ip in hosts[r.value].ips
    ensures forall k :: from <= k < (if r.Some? then r.value else |hosts|) ==> ip !in hosts[k].ips
    decreases |hosts| - from
  {
    if from == |hosts| then None else if ip in hosts[from].ips then Some(from) else FindIn(hosts, ip, from + 1)
  }

  // ----- the program -----

  class HostMap {
    var hosts: seq<Host>

    constructor ()
      ensures hosts == []
    {
      hosts := [];
    }

    /** add_ip_to_host. */
    method AddIpToHost(hostname: string, origIp: string)
      modifies this
      ensures hosts == AddTo(old(hosts), hostname, origIp)
    {
      var i := 0;
      while i < |hosts|
        invariant i <= |hosts| && IndexOf(hosts, hostname, 0) == IndexOf(hosts, hostname, i)
      {
        if hosts[i].host == hostname {
          break;
        }
        i := i + 1;
      }
      if i >= |hosts| {
        hosts := hosts + [Host(hostname, [])];
      }
      var ip := origIp;
      var slash := Find(ip, '/');
      if slash < |ip| {
        ip := ip[..slash];
      }
      hosts := hosts[i := Host(hosts[i].host, hosts[i].ips + [ip])];
      assert [] + [ip] == [ip];
      assert ip == Strip(origIp);
      assert i == IndexOf(old(hosts), hostname, 0);
    }

    /** find_host. */
    method FindHost(ip: string) returns (r: Option<nat>)
      ensures r == FindIn(hosts, ip, 0)
    {
      for i := 0 to |hosts|
        invariant FindIn(hosts, ip, 0) == FindIn(hosts, ip, i)
      {
        for j := 0 to |hosts[i].ips|
          invariant ip !in hosts[i].ips[..j]
        {
          if hosts[i].ips[j] == ip {
            return Some(i);
          }
        }
        assert hosts[i].ips[..|hosts[i].ips|] == hosts[i].ips;
      }
      return None;
    }
  }

  // ----- the history of additions -----

  datatype Addition = Addition(name: string, ip: string)

  /** The map after a history of additions. */
  function MapOf(h: seq<Addition>): seq<Host> {
    if h == [] then [] else AddTo(MapOf(h[..|h| - 1]), h[|h| - 1].name, h[|h| - 1].ip)
  }

  /** All additions, one after the other. */
  method AddAll(h: seq<Addition>) returns (m: HostMap)
    ensures fresh(m) && m.hosts == MapOf(h)
  {
    m := new HostMap();
    for n := 0 to |h|
      invariant fresh(m) && m.hosts == MapOf(h[..n])
    {
      m.AddIpToHost(h[n].name, h[n].ip);
      assert h[..n + 1][..n] == h[..n];
    }
    assert h[..|h|] == h;
  }

  /** The names in the order in which they were first used. */
  function Names(h: seq<Addition>): seq<string> {
    if h == [] then []
    else
      var before, name := Names(h[..|h| - 1]), h[|h| - 1].name;
      if name in before then before else before + [name]
  }

  /** The addresses added under a name, in order. */
  function Ips(h: seq<Addition>, name: string): seq<string> {
    if h == [] then []
    else Ips(h[..|h| - 1], name) + if h[|h| - 1].name == name then [Strip(h[|h| - 1].ip)] else []
  }

  predicate Distinct(s: seq<string>) { forall i, j :: 0 <= i < j < |s| ==> s[i] != s[j] }

  function Table(h: seq<Addition>, names: seq<string>): seq<Host> {
    seq(|names|, i requires 0 <= i < |names| => Host(names[i], Ips(h, names[i])))
  }

  lemma {:induction false} NamesAreDistinct(h: seq<Addition>)
    ensures Distinct(Names(h))
    ensures forall k :: 0 <= k < |h| ==> h[k].name in Names(h)
  {
    if h != [] {
      NamesAreDistinct(h[..|h| - 1]);
      forall k | 0 <= k < |h| ensures h[k].name in Names(h) {
        if k < |h| - 1 { assert h[k] == h[..|h| - 1][k]; }
      }
    }
  }

  lemma {:induction false} UnusedNameHasNoIps(h: seq<Addition>, name: string)
    requires name !in Names(h)
    ensures Ips(h, name) == []
  {
    if h != [] { UnusedNameHasNoIps(h[..|h| - 1], name); }
  }

  lemma KnownNameIsGrouped(before: seq<Addition>, last: Addition, names: seq<string>, i: nat)
    requires Distinct(names) && i < |names| && names[i] == last.name
    ensures AddTo(Table(before, names), last.name, last.ip) == Table(before + [last], names)
  {
    var m, h := Table(before, names), before + [last];
    assert h[..|h| - 1] == before;
    assert m[i].host == last.name;
    assert IndexOf(m, last.name, 0) == i;
    forall j | 0 <= j < |names| ensures AddTo(m, last.name, last.ip)[j] == Table(h, names)[j] {
      assert names[j] == last.name <==> j == i;
      assert Ips(h, names[j]) == Ips(before, names[j]) + if j == i then [Strip(last.ip)] else [];
    }
  }

  lemma OtherNamesKeepIps(before: seq<Addition>, last: Addition, names: seq<string>)
    requires last.name !in names
    ensures Table(before + [last], names) == Table(before, names)
  {
    var h := before + [last];
    assert h[..|h| - 1] == before;
    forall j | 0 <= j < |names| ensures Ips(h, names[j]) == Ips(before, names[j]) {
      assert names[j] in names;
    }
  }

  lemma NewNameIsLast(before: seq<Addition>, names: seq<string>, name: string)
    requires name !in names
    ensures IndexOf(Table(before, names), name, 0) == |names|
  {
    var m := Table(before, names);
    assert forall k :: 0 <= k < |m| ==> m[k].host == names[k];
  }

  lemma TableAppend(h: seq<Addition>, names: seq<string>, name: string)
    ensures Table(h, names + [name]) == Table(h, names) + [Host(name, Ips(h, name))]
  {
  }

  lemma NewNameIsGrouped(before: seq<Addition>, last: Addition, names: seq<string>)
    requires last.name !in names && Ips(before, last.name) == []
    ensures AddTo(Table(before, names), last.name, last.ip) == Table(before + [last], names + [last.name])
  {
    assert (before + [last])[..|before|] == before;
    assert [] + [Strip(last.ip)] == [Strip(last.ip)];
    NewNameIsLast(before, names, last.name);
    OtherNamesKeepIps(before, last, names);
    TableAppend(before + [last], names, last.name);
  }

  /** The map groups the history by name: one host for every name ever used, in order of first use, with
      the addresses added under it. */
  lemma {:induction false} MapIsGrouped(h: seq<Addition>)
    ensures MapOf(h) == Table(h, Names(h))
  {
    if h != [] {
      var before, last := h[..|h| - 1], h[|h| - 1];
      var names := Names(before);
      MapIsGrouped(before);
      assert h == before + [last];
      if last.name in names {
        NamesAreDistinct(before);
        var i :| 0 <= i < |names| && names[i] == last.name;
        KnownNameIsGrouped(before, last, names, i);
      } else {
        UnusedNameHasNoIps(before, last.name);
        NewNameIsGrouped(before, last, names);
      }
    }
  }

  /** An address is listed under a name exactly if it was added under it. */
  lemma {:induction false} ListedIffAdded(h: seq<Addition>, name: string, ip: string)
    ensures ip in Ips(h, name) <==> exists k :: 0 <= k < |h| && h[k].name == name && Strip(h[k].ip) == ip
  {
    if h != [] {
      var before := h[..|h| - 1];
      ListedIffAdded(before, name, ip);
      assert forall k :: 0 <= k < |before| ==> before[k] == h[k];
      if ip in Ips(before, name) {
        var k :| 0 <= k < |before| && before[k].name == name && Strip(before[k].ip) == ip;
        assert h[k].name == name;
      }
    }
  }

  /** The first addition under a name. */
  function FirstUse(h: seq<Addition>, name: string): (k: nat)
    ensures k <= |h|
  {
    if h == [] then 0
    else if FirstUse(h[..|h| - 1], name) < |h| - 1 then FirstUse(h[..|h| - 1], name)
    else if h[|h| - 1].name == name then |h| - 1
    else |h|
  }

  lemma {:induction false} FirstUseIsFirst(h: seq<Addition>, name: string)
    ensures var k := FirstUse(h, name);
            && (k < |h| ==> h[k].name == name)
            && (k < |h| <==> name in Names(h))
            && forall j :: 0 <= j < k ==> h[j].name != name
  {
    if h != [] {
      FirstUseIsFirst(h[..|h| - 1], name);
      assert forall j :: 0 <= j < |h| - 1 ==> h[..|h| - 1][j] == h[j];
    }
  }

  /** Hosts are numbered by first use. */
  lemma {:induction false} NamesInOrder(h: seq<Addition>, i: nat, j: nat)
    requires i < j < |Names(h)|
    ensures FirstUse(h, Names(h)[i]) < FirstUse(h, Names(h)[j])
  {
    var before := h[..|h| - 1];
    FirstUseIsFirst(before, Names(h)[i]);
    FirstUseIsFirst(h, Names(h)[j]);
    if j < |Names(before)| {
      FirstUseIsFirst(before, Names(h)[j]);
      NamesInOrder(before, i, j);
    } else {
      FirstUseIsFirst(before, Names(h)[j]);
    }
  }

  /** A lookup fails exactly if the address was never added; otherwise it returns the host that was
      introduced first among all hosts the address was added to. */
  lemma FindIsEarliest(h: seq<Addition>, ip: string)
    ensures var r := FindIn(MapOf(h), ip, 0);
            && |MapOf(h)| == |Names(h)|
            && (r == None <==> forall k :: 0 <= k < |h| ==> Strip(h[k].ip) != ip)
            && (r.Some? ==>
                 && (exists k :: 0 <= k < |h| && h[k].name == Names(h)[r.value] && Strip(h[k].ip) == ip)
                 && (forall k :: 0 <= k < |h| && Strip(h[k].ip) == ip ==>
                      FirstUse(h, Names(h)[r.value]) <= FirstUse(h, h[k].name)))
  {
    MapIsGrouped(h);
    NamesAreDistinct(h);
    var m, names, r := MapOf(h), Names(h), FindIn(MapOf(h), ip, 0);
    if r.Some? {
      ListedIffAdded(h, names[r.value], ip);
    }
    forall k | 0 <= k < |h| && Strip(h[k].ip) == ip
      ensures r.Some? && FirstUse(h, names[r.value]) <= FirstUse(h, h[k].name)
    {
      var i :| 0 <= i < |names| && names[i] == h[k].name;
      ListedIffAdded(h, names[i], ip);
      assert ip in m[i].ips;
      if r.value < i { NamesInOrder(h, r.value, i); }
    }
  }

  /** After any additions, an address is found exactly if it was added, alone or with the length of its network. */
  lemma AddressIsFoundIff(h: seq<Addition>, ip: string)
    requires '/' !in ip
    ensures FindIn(MapOf(h), ip, 0) != None <==>
              exists k :: 0 <= k < |h| && (h[k].ip == ip || (|h[k].ip| > |ip| && h[k].ip[..|ip| + 1] == ip + "/"))
  {
    FindIsEarliest(h, ip);
    forall k | 0 <= k < |h|
      ensures Strip(h[k].ip) == ip <==> h[k].ip == ip || (|h[k].ip| > |ip| && h[k].ip[..|ip| + 1] == ip + "/")
    {
      StripIff(h[k].ip, ip);
    }
  }

  lemma WhatIsStripped(address: string)
    ensures address == Strip(address)
            || (|address| > |Strip(address)| && address[..|Strip(address)| + 1] == Strip(address) + "/")
  {
    FindIsFirst(address, '/');
    assert address[..|address|] == address;
  }

  lemma StripIff(address: string, ip: string)
    requires '/' !in ip
    ensures Strip(address) == ip <==> address == ip || (|address| > |ip| && address[..|ip| + 1] == ip + "/")
  {
    WhatIsStripped(address);
    if address == ip {
      StripCuts(ip, "");
    } else if |address| > |ip| && address[..|ip| + 1] == ip + "/" {
      StripCuts(ip, address[|ip| + 1..]);
      assert address == ip + "/" + address[|ip| + 1..];
    }
  }
}
