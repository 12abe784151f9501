/** The client's bypass list: internal/client/route.go. */
module ClientRoute {
  import opened Bytes
  import opened RouteTable
  import opened Route

  /** Each address once, in the order of first occurrence. */
  function FirstOccurrences(ips: seq<IPv4>): (r: seq<IPv4>)
    ensures Distinct(r) && forall ip :: ip in r <==> ip in ips
  {
    if ips == [] then []
    else
      var r, last := FirstOccurrences(ips[..|ips| - 1]), ips[|ips| - 1];
      assert ips == ips[..|ips| - 1] + [last];
      if last in r then r else r + [last]
  }

  /** Where an address comes first. */
  function FirstIndex(ips: seq<IPv4>, ip: IPv4): (i: nat)
    requires ip in ips
    ensures i < |ips| && ips[i] == ip && ip !in ips[..i]
  {
    if ip in ips[..|ips| - 1] then
      var i := FirstIndex(ips[..|ips| - 1], ip);
      assert ips[..|ips| - 1][..i] == ips[..i];
      i
    else |ips| - 1
  }

  /** The order of the list is the order of first occurrence. */
  lemma {:induction false} OccurrencesInOrder(ips: seq<IPv4>, i: nat, j: nat)
    requires i < j < |FirstOccurrences(ips)|
    ensures FirstIndex(ips, FirstOccurrences(ips)[i]) < FirstIndex(ips, FirstOccurrences(ips)[j])
  {
    var prefix := ips[..|ips| - 1];
    var r := FirstOccurrences(prefix);
    if j < |r| {
      OccurrencesInOrder(prefix, i, j);
    }
    assert r[i] in prefix;
  }

  /** The addresses of the /32 CIDRs; None is a failed detection, which counts as an empty list. */
  method DetectSSHClientCIDRs(remotes: Option<seq<IPv4>>) returns (result: seq<IPv4>, ok: bool)
    ensures ok == remotes.Some? && result == if ok then FirstOccurrences(remotes.value) else []
  {
    if remotes.None? {
      return [], false;
    }
    result := [];
    var seen: set<IPv4> := {};
    for i := 0 to |remotes.value|
      invariant result == FirstOccurrences(remotes.value[..i]) && forall ip :: ip in seen <==> ip in result
    {
      var ip := remotes.value[i];
      assert remotes.value[..i + 1][..i] == remotes.value[..i];
      if ip !in seen {
        seen := seen + {ip};
        result := result + [ip];
      }
    }
    assert remotes.value[..|remotes.value|] == remotes.value;
    return result, true;
  }

  function Bypass(server: IPv4, remotes: Option<seq<IPv4>>): seq<IPv4>
  {
    [server] + FirstOccurrences(remotes.GetOr([]))
  }

  method BuildBypassCIDRs(server: IPv4, remotes: Option<seq<IPv4>>) returns (bypass: seq<IPv4>)
    ensures bypass == Bypass(server, remotes)
  {
    bypass := [server];
    var ssh, ok := DetectSSHClientCIDRs(remotes);
    if ok {
      bypass := bypass + ssh;
    }
  }

  /** The SSH clients are compared with each other, never with the server. */
  lemma BypassDistinctIff(server: IPv4, remotes: Option<seq<IPv4>>)
    ensures Distinct(Bypass(server, remotes)) <==> server !in remotes.GetOr([])
  {
    var ssh, all := FirstOccurrences(remotes.GetOr([])), Bypass(server, remotes);
    assert forall i :: 0 <= i < |ssh| ==> all[i + 1] == ssh[i];
    if server in ssh {
      var i :| 0 <= i < |ssh| && ssh[i] == server;
      assert all[0] == all[i + 1];
    } else {
      forall i, j | 0 <= i < j < |all| ensures all[i] != all[j] {
        assert all[j] == ssh[j - 1] && (i > 0 ==> all[i] == ssh[i - 1]);
      }
    }
  }

  /** Without faults the client's routes can be applied exactly when nobody has an SSH session from the VPN server's own
      address and none of the addresses has a host route yet. */
  lemma ClientRouteAppliesIff(k: Kernel, p: Plan, server: IPv4, remotes: Option<seq<IPv4>>)
    requires NoFaults(k) && p.bypass == Bypass(server, remotes)
    ensures Apply(k, p).1 == [] <==>
            && server !in remotes.GetOr([])
            && server !in k.table.hosts && forall ip :: ip in remotes.GetOr([]) ==> ip !in k.table.hosts
  {
    hide Apply;
    BypassDistinctIff(server, remotes);
    ApplySucceedsIff(k, p);
    assert forall ip :: ip in p.bypass <==> ip == server || ip in remotes.GetOr([]);
  }

  /** Once the routes are applied, the VPN server and everybody with an SSH session are reached through the old gateway,
      and every address without a host route of its own through the tunnel. */
  lemma TunnelSparesServer(k: Kernel, p: Plan, server: IPv4, remotes: Option<seq<IPv4>>, ip: IPv4)
    requires p.bypass == Bypass(server, remotes) && Apply(k, p).1 == []
    ensures
      Lookup(Apply(k, p).0.table, ip) ==
      if ip == server || ip in remotes.GetOr([]) then Some(Via(p.gateway, p.gatewayIndex))
      else if ip in k.table.hosts then Some(k.table.hosts[ip])
      else Some(Dev(p.tunnelIndex))
  {
    hide Apply;
    ApplyForwards(k, p, ip);
    assert ip in p.bypass <==> ip == server || ip in FirstOccurrences(remotes.GetOr([]));
  }

  /** The input: an SSH session from the server's address. No table makes the client start. */
  lemma ServerOverSSHFails(k: Kernel, p: Plan, server: IPv4)
    requires NoFaults(k) && p.bypass == Bypass(server, Some([server]))
    ensures p.bypass == [server, server] && Apply(k, p).1 != [] && Apply(k, p).0.table == k.table
  {
    hide Apply;
    ClientRouteAppliesIff(k, p, server, Some([server]));
    ApplySucceedsIff(k, p);
    assert [server][..0] == [] && FirstOccurrences([server][..0]) == [];
    assert FirstOccurrences([server]) == [server];
  }
}
