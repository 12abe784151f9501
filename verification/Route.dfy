/** Transactional routing: internal/vpn/route.go over a model of the kernel's table. */
module RouteTable {
  import opened Bytes

  type IPv4 = uint32

  /** Where packets go: through a gateway on an interface, or straight out of an interface. */
  datatype NextHop = Via(gateway: IPv4, ifIndex: int) | Dev(ifIndex: int)

  /** The host (/32) routes and the default route of the main table. */
  datatype Table = Table(hosts: map<IPv4, NextHop>, default: Option<NextHop>)

  /** The table, the faults still to come (one entry a request; none left means no fault), and every
      table there has been since. A request that fails leaves the table as it is. */
  datatype Kernel = Kernel(table: Table, faults: seq<bool>, trace: seq<Table>)

  predicate Faulty(k: Kernel)
  {
    k.faults != [] && k.faults[0]
  }

  function Settle(k: Kernel, table: Table): Kernel
  {
    Kernel(table, if k.faults == [] then [] else k.faults[1..], k.trace + [table])
  }

  /** RTM_NEWROUTE with NLM_F_CREATE and NLM_F_EXCL: refused when the destination has a route. */
  function AddHost(k: Kernel, ip: IPv4, hop: NextHop): (Kernel, bool)
  {
    if Faulty(k) || ip in k.table.hosts then (Settle(k, k.table), false)
    else (Settle(k, k.table.(hosts := k.table.hosts[ip := hop])), true)
  }

  /** RTM_DELROUTE: refused when there is no such route. */
  function DelHost(k: Kernel, ip: IPv4, hop: NextHop): (Kernel, bool)
  {
    if Faulty(k) || ip !in k.table.hosts || k.table.hosts[ip] != hop then (Settle(k, k.table), false)
    else (Settle(k, k.table.(hosts := k.table.hosts - {ip})), true)
  }

  /** RTM_NEWROUTE with NLM_F_CREATE and NLM_F_REPLACE on the default route. */
  function SetDefault(k: Kernel, hop: NextHop): (Kernel, bool)
  {
    if Faulty(k) then (Settle(k, k.table), false)
    else (Settle(k, k.table.(default := Some(hop))), true)
  }
}

module Route {
  import opened Bytes
  import opened RouteTable

  datatype RouteError = ResolveFailed | AddFailed(ip: IPv4) | DeleteFailed(ip: IPv4) | ReplaceFailed | RestoreFailed

  /** A Route after resolve: all its host routes use one next hop. */
  datatype Plan = Plan(gateway: IPv4, gatewayIndex: int, tunnelIndex: int, bypass: seq<IPv4>)

  function Hop(p: Plan): NextHop
  {
    Via(p.gateway, p.gatewayIndex)
  }

  /** deleteHostRoutes: last route first, carrying on past failures. */
  function DeleteRoutes(k: Kernel, ips: seq<IPv4>, hop: NextHop): (r: (Kernel, seq<RouteError>))
    decreases |ips|
  {
    if ips == [] then (k, [])
    else
      var ip := ips[|ips| - 1];
      var (k1, ok) := DelHost(k, ip, hop);
      var (k2, errors) := DeleteRoutes(k1, ips[..|ips| - 1], hop);
      (k2, (if ok then [] else [DeleteFailed(ip)]) + errors)
  }

  lemma DeleteRoutesUnfold(k: Kernel, ips: seq<IPv4>, i: nat, hop: NextHop)
    requires 0 < i <= |ips|
    ensures
      var (k1, ok) := DelHost(k, ips[i - 1], hop);
      var (k2, errors) := DeleteRoutes(k1, ips[..i - 1], hop);
      DeleteRoutes(k, ips[..i], hop) == (k2, (if ok then [] else [DeleteFailed(ips[i - 1])]) + errors)
  {
    assert ips[..i][..i - 1] == ips[..i - 1];
  }

  /** Adding routes in order, up to the first refusal. */
  function AddRoutes(k: Kernel, ips: seq<IPv4>, hop: NextHop): (r: (Kernel, nat))
    ensures r.1 <= |ips|
  {
    if ips == [] then (k, 0)
    else
      var (k1, n) := AddRoutes(k, ips[..|ips| - 1], hop);
      if n < |ips| - 1 then (k1, n)
      else
        var (k2, ok) := AddHost(k1, ips[|ips| - 1], hop);
        (k2, if ok then |ips| else |ips| - 1)
  }

  function Apply(k: Kernel, p: Plan): (Kernel, seq<RouteError>)
  {
    var (k1, n) := AddRoutes(k, p.bypass, Hop(p));
    if n < |p.bypass| then
      var (k2, errors) := DeleteRoutes(k1, p.bypass[..n], Hop(p));
      (k2, [AddFailed(p.bypass[n])] + errors)
    else
      var (k2, ok) := SetDefault(k1, Dev(p.tunnelIndex));
      if ok then (k2, [])
      else
        var (k3, errors) := DeleteRoutes(k2, p.bypass, Hop(p));
        (k3, [ReplaceFailed] + errors)
  }

  function Cleanup(k: Kernel, p: Plan): (Kernel, seq<RouteError>)
  {
    var (k1, ok) := SetDefault(k, Hop(p));
    if !ok then (k1, [RestoreFailed])
    else DeleteRoutes(k1, p.bypass, Hop(p))
  }

  // ---- What the loops do to the table ----

  predicate Distinct(ips: seq<IPv4>)
  {
    forall i, j :: 0 <= i < j < |ips| ==> ips[i] != ips[j]
  }

  function Members(ips: seq<IPv4>): set<IPv4>
  {
    set ip | ip in ips
  }

  /** A table with these host routes added. */
  function WithHosts(t: Table, ips: set<IPv4>, hop: NextHop): Table
  {
    t.(hosts := map ip | ip in t.hosts.Keys + ips :: if ip in ips then hop else t.hosts[ip])
  }

  /** The routes a list of errors says could not be deleted. */
  function Reported(errors: seq<RouteError>): set<IPv4>
  {
    set e | e in errors && e.DeleteFailed? :: e.ip
  }

  lemma WithOneMore(t: Table, ips: set<IPv4>, ip: IPv4, hop: NextHop)
    requires ip !in ips
    ensures WithHosts(t, ips + {ip}, hop) == WithHosts(t, ips, hop).(hosts := WithHosts(t, ips, hop).hosts[ip := hop])
    ensures ip !in t.hosts ==> WithHosts(t, ips, hop).hosts == WithHosts(t, ips + {ip}, hop).hosts - {ip}
  {
  }

  lemma MembersOfSnoc(prefix: seq<IPv4>, last: IPv4)
    ensures Members(prefix + [last]) == Members(prefix) + {last}
    ensures Distinct(prefix + [last]) <==> Distinct(prefix) && last !in prefix
  {
    var ips := prefix + [last];
    assert forall i :: 0 <= i < |prefix| ==> ips[i] == prefix[i];
    assert ips[|prefix|] == last;
    if last in prefix {
      var i :| 0 <= i < |prefix| && prefix[i] == last;
      assert ips[i] == ips[|prefix|];
    }
  }

  /** Adding routes: what was accepted is a prefix of distinct, previously absent destinations, now all routed. */
  lemma {:induction false} AddRoutesAdds(k: Kernel, ips: seq<IPv4>, hop: NextHop)
    ensures
      var (k1, n) := AddRoutes(k, ips, hop);
      && k1.table == WithHosts(k.table, Members(ips[..n]), hop)
      && Distinct(ips[..n]) && (forall ip :: ip in ips[..n] ==> ip !in k.table.hosts)
  {
    if ips == [] {
      assert k.table == WithHosts(k.table, {}, hop);
    } else {
      var prefix, last := ips[..|ips| - 1], ips[|ips| - 1];
      AddRoutesAdds(k, prefix, hop);
      var (k1, n) := AddRoutes(k, prefix, hop);
      var (k2, m) := AddRoutes(k, ips, hop);
      assert prefix[..n] == ips[..n];
      if m == |ips| {
        assert ips[..m] == prefix + [last] && prefix[..n] == prefix;
        MembersOfSnoc(prefix, last);
        assert last !in prefix by {
          assert last in prefix ==> last in Members(prefix);
        }
        WithOneMore(k.table, Members(prefix), last, hop);
      }
    }
  }

  /** After the first refusal the rest of the list makes no difference. */
  lemma {:induction false} AddRoutesStops(k: Kernel, ips: seq<IPv4>, i: nat, hop: NextHop)
    requires 0 < i <= |ips| && AddRoutes(k, ips[..i], hop).1 < i
    ensures AddRoutes(k, ips, hop) == AddRoutes(k, ips[..i], hop)
  {
    if i < |ips| {
      var prefix := ips[..|ips| - 1];
      assert prefix[..i] == ips[..i];
      AddRoutesStops(k, prefix, i, hop);
    } else {
      assert ips[..i] == ips;
    }
  }

  /** Deleting freshly added routes leaves exactly those whose deletion is reported as failed. */
  lemma {:induction false} DeleteRoutesDeletes(k: Kernel, t: Table, ips: seq<IPv4>, hop: NextHop, left: set<IPv4>)
    requires Distinct(ips) && (forall ip :: ip in ips ==> ip !in t.hosts && ip !in left)
    requires k.table == WithHosts(t, Members(ips) + left, hop)
    ensures
      var (k1, errors) := DeleteRoutes(k, ips, hop);
      && k1.table == WithHosts(t, Reported(errors) + left, hop)
      && Reported(errors) <= Members(ips)
      && (forall e :: e in errors ==> e.DeleteFailed?)
    decreases |ips|
  {
    if ips == [] {
      assert Members(ips) == {} && Reported([]) == {};
    } else {
      hide WithHosts, Reported, Members, DelHost, Distinct;
      var prefix, last := ips[..|ips| - 1], ips[|ips| - 1];
      var (k1, ok) := DelHost(k, last, hop);
      var rest := if ok then left else left + {last};
      assert ips == prefix + [last];
      MembersOfSnoc(prefix, last);
      assert Members(prefix) + left + {last} == Members(ips) + left == Members(prefix) + (left + {last});
      assert last !in Members(prefix) by { NotMember(prefix, last); }
      DelHostDeletes(k, t, Members(prefix) + left, last, hop);
      DeleteRoutesDeletes(k1, t, prefix, hop, rest);
      var errors := DeleteRoutes(k1, prefix, hop).1;
      ReportedOneMore(last, errors);
      assert [] + errors == errors && Reported(errors) + {last} + left == Reported(errors) + (left + {last});
    }
  }

  lemma NotMember(ips: seq<IPv4>, ip: IPv4)
    requires ip !in ips
    ensures ip !in Members(ips)
  {
  }

  lemma DelHostDeletes(k: Kernel, t: Table, ips: set<IPv4>, ip: IPv4, hop: NextHop)
    requires ip !in ips && ip !in t.hosts && k.table == WithHosts(t, ips + {ip}, hop)
    ensures
      var (k1, ok) := DelHost(k, ip, hop);
      k1.table == WithHosts(t, if ok then ips else ips + {ip}, hop)
  {
    WithOneMore(t, ips, ip, hop);
  }

  lemma ReportedOneMore(ip: IPv4, errors: seq<RouteError>)
    ensures Reported([DeleteFailed(ip)] + errors) == Reported(errors) + {ip}
  {
    var all := [DeleteFailed(ip)] + errors;
    assert all[0] == DeleteFailed(ip);
    forall e | e in errors ensures e in all {
    }
  }

  lemma WithNoHosts(t: Table, hop: NextHop)
    ensures WithHosts(t, {}, hop) == t
  {
  }

  // ---- Transactionality ----

  /** A failed Apply leaves the original table plus exactly the host routes whose rollback was reported as
      failed; a successful one leaves the original plus every bypass route, with the default on the tunnel. */
  lemma ApplyIsTransactional(k: Kernel, p: Plan)
    ensures
      var (k1, errors) := Apply(k, p);
      && (errors == [] ==>
            k1.table == WithHosts(k.table, Members(p.bypass), Hop(p)).(default := Some(Dev(p.tunnelIndex))))
      && (errors != [] ==>
            k1.table == WithHosts(k.table, Reported(errors), Hop(p)) && Reported(errors) <= Members(p.bypass))
  {
    AddRoutesAdds(k, p.bypass, Hop(p));
    var (k1, n) := AddRoutes(k, p.bypass, Hop(p));
    var added := p.bypass[..n];
    if n < |p.bypass| {
      assert Members(added) + {} == Members(added);
      DeleteRoutesDeletes(k1, k.table, added, Hop(p), {});
      var (k2, errors) := DeleteRoutes(k1, added, Hop(p));
      assert Reported(errors) + {} == Reported(errors)
        && Reported([AddFailed(p.bypass[n])] + errors) == Reported(errors);
      assert Members(added) <= Members(p.bypass);
    } else {
      assert added == p.bypass;
      var (k2, ok) := SetDefault(k1, Dev(p.tunnelIndex));
      if !ok {
        assert Members(p.bypass) + {} == Members(p.bypass);
        DeleteRoutesDeletes(k2, k.table, p.bypass, Hop(p), {});
        var (k3, errors) := DeleteRoutes(k2, p.bypass, Hop(p));
        assert Reported(errors) + {} == Reported(errors) && Reported([ReplaceFailed] + errors) == Reported(errors);
      }
    }
  }

  predicate NoFaults(k: Kernel)
  {
    forall i :: 0 <= i < |k.faults| ==> !k.faults[i]
  }

  /** Without faults, Apply succeeds exactly when no bypass address is repeated or already routed:
      a list with a duplicate always fails, and rolls back completely. */
  lemma ApplySucceedsIff(k: Kernel, p: Plan)
    requires NoFaults(k)
    ensures Apply(k, p).1 == [] <==> Distinct(p.bypass) && (forall ip :: ip in p.bypass ==> ip !in k.table.hosts)
    ensures Apply(k, p).1 != [] ==> Apply(k, p).0.table == k.table
  {
    AddRoutesAdds(k, p.bypass, Hop(p));
    AddRoutesCalm(k, p.bypass, Hop(p));
    var (k1, n) := AddRoutes(k, p.bypass, Hop(p));
    assert n == |p.bypass| ==> p.bypass[..n] == p.bypass;
    ApplyIsTransactional(k, p);
    if n < |p.bypass| {
      var added := p.bypass[..n];
      assert p.bypass[n] in p.bypass;
      assert k1.table == WithHosts(k.table, Members(added) + {}, Hop(p)) by {
        assert Members(added) + {} == Members(added);
      }
      DeleteRoutesCalm(k1, k.table, added, Hop(p));
      assert Reported([AddFailed(p.bypass[n])] + []) == {};
      WithNoHosts(k.table, Hop(p));
    }
  }

  // ---- Where packets go ----

  /** A host route wins over the default route. */
  function Lookup(t: Table, ip: IPv4): Option<NextHop>
  {
    if ip in t.hosts then Some(t.hosts[ip]) else t.default
  }

  /** After a successful Apply the bypass addresses go through the remembered gateway and everything without a route of
      its own into the tunnel. After a failed one every address goes where it went before, except those whose rollback
      is reported as failed: they stay on the gateway. */
  lemma ApplyForwards(k: Kernel, p: Plan, ip: IPv4)
    ensures
      var (k1, errors) := Apply(k, p);
      Lookup(k1.table, ip) ==
      if errors == [] then
        if ip in p.bypass then Some(Via(p.gateway, p.gatewayIndex))
        else if ip in k.table.hosts then Some(k.table.hosts[ip])
        else Some(Dev(p.tunnelIndex))
      else if DeleteFailed(ip) in errors then Some(Via(p.gateway, p.gatewayIndex))
      else Lookup(k.table, ip)
  {
    hide Apply;
    ApplyIsTransactional(k, p);
    var errors := Apply(k, p).1;
    assert ip in Reported(errors) <==> DeleteFailed(ip) in errors;
  }

  /** After Cleanup everything without a route of its own goes through the gateway again. */
  lemma CleanupForwards(k: Kernel, p: Plan, k1: Kernel, ip: IPv4)
    requires Apply(k, p).1 == [] && k1.table == Apply(k, p).0.table
    ensures
      var (k2, errors) := Cleanup(k1, p);
      Lookup(k2.table, ip) ==
      if RestoreFailed in errors then Lookup(k1.table, ip)
      else if ip in k.table.hosts then Some(k.table.hosts[ip])
      else Some(Via(p.gateway, p.gatewayIndex))
  {
    hide Apply, Cleanup;
    CleanupAfterApply(k, p, k1);
    RoutedApart(k, p);
  }

  /** What could be added had no route before. */
  lemma RoutedApart(k: Kernel, p: Plan)
    requires Apply(k, p).1 == []
    ensures forall ip :: ip in p.bypass ==> ip !in k.table.hosts
  {
    AddRoutesAdds(k, p.bypass, Hop(p));
    assert p.bypass[..|p.bypass|] == p.bypass;
  }

  lemma {:induction false} AddRoutesCalm(k: Kernel, ips: seq<IPv4>, hop: NextHop)
    requires NoFaults(k)
    ensures
      var (k1, n) := AddRoutes(k, ips, hop);
      && NoFaults(k1)
      && (n < |ips| ==> ips[n] in ips[..n] || ips[n] in k.table.hosts)
  {
    if ips != [] {
      var prefix, last := ips[..|ips| - 1], ips[|ips| - 1];
      AddRoutesCalm(k, prefix, hop);
      AddRoutesAdds(k, prefix, hop);
      var (k1, n) := AddRoutes(k, prefix, hop);
      assert prefix[..n] == ips[..n];
    }
  }

  lemma {:induction false} DeleteRoutesCalm(k: Kernel, t: Table, ips: seq<IPv4>, hop: NextHop)
    requires NoFaults(k) && Distinct(ips) && (forall ip :: ip in ips ==> ip !in t.hosts)
    requires k.table == WithHosts(t, Members(ips), hop)
    ensures
      var (k1, errors) := DeleteRoutes(k, ips, hop);
      NoFaults(k1) && errors == [] && k1.table == t
    decreases |ips|
  {
    if ips == [] {
      assert Members(ips) == {};
      WithNoHosts(t, hop);
    } else {
      var prefix, last := ips[..|ips| - 1], ips[|ips| - 1];
      var (k1, ok) := DelHost(k, last, hop);
      assert ips == prefix + [last];
      MembersOfSnoc(prefix, last);
      WithOneMore(t, Members(prefix), last, hop);
      DeleteRoutesCalm(k1, t, prefix, hop);
    }
  }

  /** Applied and then cleaned up without faults, the table is the original one exactly when the
      original default route was the gateway that the plan remembers. */
  lemma CleanupUndoesApply(k: Kernel, p: Plan)
    requires NoFaults(k) && Apply(k, p).1 == []
    ensures Cleanup(Apply(k, p).0, p).1 == []
    ensures Cleanup(Apply(k, p).0, p).0.table == k.table <==> k.table.default == Some(Hop(p))
  {
    ApplySucceedsIff(k, p);
    AddRoutesCalm(k, p.bypass, Hop(p));
    ApplyIsTransactional(k, p);
    var applied := Apply(k, p).0;
    var (restored, ok) := SetDefault(applied, Hop(p));
    var t := k.table.(default := Some(Hop(p)));
    assert restored.table == WithHosts(t, Members(p.bypass), Hop(p));
    DeleteRoutesCalm(restored, t, p.bypass, Hop(p));
  }

  /** Cleanup after a successful Apply, whatever fails in either: if the default cannot be restored nothing changes
      and that is the error; otherwise the gateway is the default again and exactly the host routes that are
      reported stay behind. */
  lemma CleanupAfterApply(k: Kernel, p: Plan, k1: Kernel)
    requires Apply(k, p).1 == [] && k1.table == Apply(k, p).0.table
    ensures
      var (k2, errors) := Cleanup(k1, p);
      if RestoreFailed in errors then errors == [RestoreFailed] && k2.table == k1.table
      else
        && k2.table == WithHosts(k.table.(default := Some(Hop(p))), Reported(errors), Hop(p))
        && Reported(errors) <= Members(p.bypass)
  {
    AddRoutesAdds(k, p.bypass, Hop(p));
    ApplyIsTransactional(k, p);
    var (k2, ok) := SetDefault(k1, Hop(p));
    if ok {
      assert p.bypass[..|p.bypass|] == p.bypass;
      assert Members(p.bypass) + {} == Members(p.bypass);
      var t := k.table.(default := Some(Hop(p)));
      assert k2.table == WithHosts(t, Members(p.bypass) + {}, Hop(p));
      DeleteRoutesDeletes(k2, t, p.bypass, Hop(p), {});
      var errors := DeleteRoutes(k2, p.bypass, Hop(p)).1;
      assert Reported(errors) + {} == Reported(errors);
    }
  }

  /** Cleaning up once more changes nothing: the default is replaced by itself and every delete is refused. */
  lemma CleanupAgain(k: Kernel, p: Plan)
    requires k.table.default == Some(Hop(p)) && forall ip :: ip in p.bypass ==> ip !in k.table.hosts
    ensures Cleanup(k, p).0.table == k.table
  {
    DeleteAbsent(SetDefault(k, Hop(p)).0, p.bypass, Hop(p));
  }

  lemma {:induction false} DeleteAbsent(k: Kernel, ips: seq<IPv4>, hop: NextHop)
    requires forall ip :: ip in ips ==> ip !in k.table.hosts
    ensures DeleteRoutes(k, ips, hop).0.table == k.table
    ensures |DeleteRoutes(k, ips, hop).1| == |ips|
    decreases |ips|
  {
    if ips != [] {
      DeleteAbsent(DelHost(k, ips[|ips| - 1], hop).0, ips[..|ips| - 1], hop);
    }
  }

  // ---- Safety of every intermediate table ----

  /** The default route does not lead into the tunnel while a bypass host route is missing. */
  predicate Safe(t: Table, p: Plan)
  {
    t.default == Some(Dev(p.tunnelIndex)) ==> forall ip :: ip in p.bypass ==> ip in t.hosts
  }

  ghost predicate SafeSince(k: Kernel, k1: Kernel, p: Plan)
  {
    k.trace <= k1.trace && forall i :: |k.trace| <= i < |k1.trace| ==> Safe(k1.trace[i], p)
  }

  lemma SafeTrans(a: Kernel, b: Kernel, c: Kernel, p: Plan)
    requires SafeSince(a, b, p) && SafeSince(b, c, p)
    ensures SafeSince(a, c, p)
  {
    forall i | |a.trace| <= i < |c.trace| ensures Safe(c.trace[i], p) {
      if i < |b.trace| {
        assert c.trace[i] == b.trace[i];
      }
    }
  }

  lemma {:induction false} AddingIsSafe(k: Kernel, ips: seq<IPv4>, p: Plan)
    requires Safe(k.table, p)
    ensures SafeSince(k, AddRoutes(k, ips, Hop(p)).0, p) && Safe(AddRoutes(k, ips, Hop(p)).0.table, p)
    ensures AddRoutes(k, ips, Hop(p)).0.table.default == k.table.default
  {
    if ips != [] {
      AddingIsSafe(k, ips[..|ips| - 1], p);
      var (k1, n) := AddRoutes(k, ips[..|ips| - 1], Hop(p));
      if n == |ips| - 1 {
        SafeTrans(k, k1, AddHost(k1, ips[|ips| - 1], Hop(p)).0, p);
      }
    }
  }

  lemma {:induction false} DeletingIsSafe(k: Kernel, ips: seq<IPv4>, p: Plan)
    requires k.table.default != Some(Dev(p.tunnelIndex))
    ensures SafeSince(k, DeleteRoutes(k, ips, Hop(p)).0, p)
    decreases |ips|
  {
    if ips != [] {
      var k1 := DelHost(k, ips[|ips| - 1], Hop(p)).0;
      DeletingIsSafe(k1, ips[..|ips| - 1], p);
      SafeTrans(k, k1, DeleteRoutes(k1, ips[..|ips| - 1], Hop(p)).0, p);
    }
  }

  /** Whatever fails and when, no table on the way through Apply and its rollback sends the default into the
      tunnel with a bypass route missing. */
  lemma ApplyIsSafe(k: Kernel, p: Plan)
    requires Safe(k.table, p)
    ensures SafeSince(k, Apply(k, p).0, p)
  {
    AddingIsSafe(k, p.bypass, p);
    AddRoutesAdds(k, p.bypass, Hop(p));
    var (k1, n) := AddRoutes(k, p.bypass, Hop(p));
    if k.table.default == Some(Dev(p.tunnelIndex)) {
      AlreadyTunnelled(k, p);
    } else if n < |p.bypass| {
      DeletingIsSafe(k1, p.bypass[..n], p);
      SafeTrans(k, k1, Apply(k, p).0, p);
    } else {
      assert p.bypass[..n] == p.bypass;
      var (k2, ok) := SetDefault(k1, Dev(p.tunnelIndex));
      SafeTrans(k, k1, k2, p);
      if !ok {
        DeletingIsSafe(k2, p.bypass, p);
        SafeTrans(k, k2, Apply(k, p).0, p);
      }
    }
  }

  lemma {:induction false} NothingToAdd(k: Kernel, ips: seq<IPv4>, hop: NextHop)
    requires forall ip :: ip in ips ==> ip in k.table.hosts
    ensures AddRoutes(k, ips, hop).1 == 0
    ensures ips == [] ==> AddRoutes(k, ips, hop).0 == k
  {
    if ips != [] {
      NothingToAdd(k, ips[..|ips| - 1], hop);
    }
  }

  /** On a table that already tunnels safely every bypass route is there, so nothing is added and
      nothing rolled back. */
  lemma AlreadyTunnelled(k: Kernel, p: Plan)
    requires Safe(k.table, p) && k.table.default == Some(Dev(p.tunnelIndex))
    ensures SafeSince(k, Apply(k, p).0, p)
  {
    AddingIsSafe(k, p.bypass, p);
    AddRoutesAdds(k, p.bypass, Hop(p));
    var (k1, n) := AddRoutes(k, p.bypass, Hop(p));
    NothingToAdd(k, p.bypass, Hop(p));
    assert p.bypass[..0] == [];
    if p.bypass == [] {
      SafeTrans(k, k1, SetDefault(k1, Dev(p.tunnelIndex)).0, p);
    }
  }

  /** The same for Cleanup, from any safe table. */
  lemma CleanupIsSafe(k: Kernel, p: Plan)
    requires Safe(k.table, p)
    ensures SafeSince(k, Cleanup(k, p).0, p)
  {
    var (k1, ok) := SetDefault(k, Hop(p));
    if ok {
      DeletingIsSafe(k1, p.bypass, p);
      SafeTrans(k, k1, Cleanup(k, p).0, p);
    }
  }

  // ---- The component itself ----

  /** A bypass CIDR after net.ParseCIDR: the address if it is IPv4, and the prefix length. */
  datatype Cidr = Unparsable | Parsed(ip: Option<IPv4>, ones: nat)

  predicate HostCidr(c: Cidr)
  {
    c.Parsed? && c.ip.Some? && c.ones == 32
  }

  function Addresses(cidrs: seq<Cidr>): (ips: seq<IPv4>)
    requires forall i :: 0 <= i < |cidrs| ==> HostCidr(cidrs[i])
    ensures |ips| == |cidrs| && forall i :: 0 <= i < |ips| ==> HostCidr(cidrs[i]) && ips[i] == cidrs[i].ip.value
  {
    if cidrs == [] then []
    else
      assert HostCidr(cidrs[|cidrs| - 1]);
      Addresses(cidrs[..|cidrs| - 1]) + [cidrs[|cidrs| - 1].ip.value]
  }

  class RouteComponent {
    const specGateway: Option<IPv4>
    const bypassCIDRs: seq<Cidr>
    var gateway: IPv4
    var gatewayInterfaceIdx: int
    var tunnelInterfaceIdx: int
    var bypassIPs: seq<IPv4>
    var kernel: Kernel

    constructor (specGateway: Option<IPv4>, bypassCIDRs: seq<Cidr>, kernel: Kernel)
      ensures this.specGateway == specGateway && this.bypassCIDRs == bypassCIDRs && this.kernel == kernel
    {
      this.specGateway, this.bypassCIDRs, this.kernel := specGateway, bypassCIDRs, kernel;
      gateway, gatewayInterfaceIdx, tunnelInterfaceIdx, bypassIPs := 0, 0, 0, [];
    }

    function PlanNow(): Plan
      reads this
    {
      Plan(gateway, gatewayInterfaceIdx, tunnelInterfaceIdx, bypassIPs)
    }

    /** The two interface lookups are inputs: None is an unknown name. */
    method Resolve(gatewayIfa: Option<int>, tunnelIfa: Option<int>) returns (ok: bool)
      modifies this
      ensures kernel == old(kernel)
      ensures ok <==>
                specGateway.Some?
                && gatewayIfa.Some? && gatewayIfa.value >= 0
                && tunnelIfa.Some? && tunnelIfa.value >= 0
                && forall i :: 0 <= i < |bypassCIDRs| ==> HostCidr(bypassCIDRs[i])
      ensures ok ==> PlanNow() == Plan(specGateway.value, gatewayIfa.value, tunnelIfa.value, Addresses(bypassCIDRs))
    {
      if specGateway.None? {
        return false;
      }
      gateway := specGateway.value;
      if gatewayIfa.None? || gatewayIfa.value < 0 {
        return false;
      }
      gatewayInterfaceIdx := gatewayIfa.value;
      if tunnelIfa.None? || tunnelIfa.value < 0 {
        return false;
      }
      tunnelInterfaceIdx := tunnelIfa.value;
      bypassIPs := [];
      for i := 0 to |bypassCIDRs|
        invariant kernel == old(kernel)
        invariant gateway == specGateway.value && gatewayInterfaceIdx == gatewayIfa.value
                  && tunnelInterfaceIdx == tunnelIfa.value
        invariant forall j :: 0 <= j < i ==> HostCidr(bypassCIDRs[j])
        invariant bypassIPs == Addresses(bypassCIDRs[..i])
      {
        var cidr := bypassCIDRs[i];
        if cidr.Unparsable? || cidr.ip.None? || cidr.ones != 32 {
          return false;
        }
        bypassIPs := bypassIPs + [cidr.ip.value];
        assert bypassCIDRs[..i + 1][..i] == bypassCIDRs[..i];
      }
      assert bypassCIDRs[..|bypassCIDRs|] == bypassCIDRs;
      return true;
    }

    method DeleteHostRoutes(count: nat) returns (errors: seq<RouteError>)
      requires count <= |bypassIPs|
      modifies this`kernel
      ensures (kernel, errors) == DeleteRoutes(old(kernel), bypassIPs[..count], Hop(PlanNow()))
    {
      hide DelHost;
      errors := [];
      var i := count;
      ghost var ips := bypassIPs;
      ghost var hop := Hop(PlanNow());
      ghost var all := DeleteRoutes(kernel, ips[..count], hop);
      while i > 0
        invariant 0 <= i <= count && bypassIPs == ips && Hop(PlanNow()) == hop
        invariant DeleteRoutes(kernel, ips[..i], hop).0 == all.0
        invariant errors + DeleteRoutes(kernel, ips[..i], hop).1 == all.1
      {
        DeleteRoutesUnfold(kernel, ips, i, hop);
        i := i - 1;
        var (k, ok) := DelHost(kernel, bypassIPs[i], Via(gateway, gatewayInterfaceIdx));
        ghost var was, rest := errors, DeleteRoutes(k, ips[..i], hop).1;
        kernel := k;
        if !ok {
          errors := errors + [DeleteFailed(bypassIPs[i])];
          assert was + ([DeleteFailed(ips[i])] + rest) == errors + rest;
        } else {
          assert was + ([] + rest) == errors + rest;
        }
      }
      assert errors + [] == errors;
    }

    method ApplyRoutes(gatewayIfa: Option<int>, tunnelIfa: Option<int>)
      returns (resolved: bool, errors: seq<RouteError>)
      modifies this
      ensures !resolved ==> errors == [ResolveFailed] && kernel == old(kernel)
      ensures resolved ==> (kernel, errors) == Apply(old(kernel), PlanNow())
    {
      resolved := Resolve(gatewayIfa, tunnelIfa);
      if !resolved {
        return false, [ResolveFailed];
      }
      var i := 0;
      ghost var plan := PlanNow();
      while i < |bypassIPs|
        invariant i <= |bypassIPs| && PlanNow() == plan
        invariant AddRoutes(old(kernel), bypassIPs[..i], Hop(PlanNow())) == (kernel, i)
      {
        var (k, added) := AddHost(kernel, bypassIPs[i], Via(gateway, gatewayInterfaceIdx));
        kernel := k;
        assert bypassIPs[..i + 1][..i] == bypassIPs[..i];
        if !added {
          AddRoutesStops(old(kernel), bypassIPs, i + 1, Hop(plan));
          var rollback := DeleteHostRoutes(i);
          return true, [AddFailed(bypassIPs[i])] + rollback;
        }
        i := i + 1;
      }
      assert bypassIPs[..|bypassIPs|] == bypassIPs;
      var (k, replaced) := SetDefault(kernel, Dev(tunnelInterfaceIdx));
      kernel := k;
      if !replaced {
        var rollback := DeleteHostRoutes(|bypassIPs|);
        return true, [ReplaceFailed] + rollback;
      }
      return true, [];
    }

    method CleanupRoutes() returns (errors: seq<RouteError>)
      modifies this`kernel
      ensures (kernel, errors) == Cleanup(old(kernel), PlanNow())
    {
      var (k, ok) := SetDefault(kernel, Via(gateway, gatewayInterfaceIdx));
      kernel := k;
      if !ok {
        return [RestoreFailed];
      }
      errors := DeleteHostRoutes(|bypassIPs|);
      assert bypassIPs[..|bypassIPs|] == bypassIPs;
    }
  }
}

/** A Route among the manager's components: they share a world of which the Route only touches the kernel, and
    the others only the rest. Any request may fail at any time. */
module RouteInManager {
  import opened Bytes
  import opened RouteTable
  import opened Route
  import opened Manager

  datatype World<T> = World(rest: T, kernel: Kernel)

  /** Apply from its first line on: nothing is requested when resolve fails. */
  function ResolveAndApply(k: Kernel, resolved: bool, p: Plan): (Kernel, seq<RouteError>)
  {
    if resolved then Apply(k, p) else (k, [ResolveFailed])
  }

  function RouteOf<T>(resolved: bool, p: Plan): Component<World<T>>
  {
    Component(
      (w: World<T>) => (var (k, errors) := ResolveAndApply(w.kernel, resolved, p); (w.(kernel := k), errors == [])),
      (w: World<T>) => w.(kernel := Cleanup(w.kernel, p).0))
  }

  function Other<T>(c: Component<T>): Component<World<T>>
  {
    Component(
      (w: World<T>) => (var (rest, ok) := c.apply(w.rest); (w.(rest := rest), ok)),
      (w: World<T>) => w.(rest := c.cleanup(w.rest)))
  }

  function Others<T>(cs: seq<Component<T>>): (r: seq<Component<World<T>>>)
    ensures |r| == |cs| && forall i :: 0 <= i < |cs| ==> r[i] == Other(cs[i])
  {
    seq(|cs|, i requires 0 <= i < |cs| => Other(cs[i]))
  }

  /** The components around one Route, as ApplyAll gets them. */
  function Around<T>(before: seq<Component<T>>, resolved: bool, p: Plan, after: seq<Component<T>>)
    : seq<Component<World<T>>>
  {
    Others(before) + [RouteOf(resolved, p)] + Others(after)
  }

  /** The same list as the rest of the world sees it: the Route does nothing but succeed or fail. */
  function RestOf<T>(before: seq<Component<T>>, ok: bool, after: seq<Component<T>>): seq<Component<T>>
  {
    before + [Component((r: T) => (r, ok), (r: T) => r)] + after
  }

  predicate Applies(k: Kernel, resolved: bool, p: Plan)
  {
    ResolveAndApply(k, resolved, p).1 == []
  }

  lemma {:induction false} BeforeSplits<T>(w: World<T>, before: seq<Component<T>>, resolved: bool, p: Plan,
                                           after: seq<Component<T>>, i: nat)
    requires i <= |before| + 1 + |after|
    ensures Before(w, Around(before, resolved, p, after), i)
            == World(Before(w.rest, RestOf(before, Applies(w.kernel, resolved, p), after), i),
                     if i <= |before| then w.kernel else ResolveAndApply(w.kernel, resolved, p).0)
  {
    hide ResolveAndApply;
    if i > 0 {
      BeforeSplits(w, before, resolved, p, after, i - 1);
    }
  }

  lemma {:induction false} TeardownSplits<T>(w: World<T>, before: seq<Component<T>>, resolved: bool, p: Plan,
                                             after: seq<Component<T>>, ok: bool, n: nat)
    requires n <= |before| + 1 + |after|
    ensures TeardownAll(w, Around(before, resolved, p, after)[..n])
            == World(TeardownAll(w.rest, RestOf(before, ok, after)[..n]),
                     if n <= |before| then w.kernel else Cleanup(w.kernel, p).0)
    decreases n
  {
    hide Cleanup;
    if n > 0 {
      var cs, rs := Around(before, resolved, p, after), RestOf(before, ok, after);
      assert cs[..n][..n - 1] == cs[..n - 1] && rs[..n][..n - 1] == rs[..n - 1];
      TeardownSplits(cs[n - 1].cleanup(w), before, resolved, p, after, ok, n - 1);
    }
  }

  lemma SameOutcome<T>(w: World<T>, before: seq<Component<T>>, resolved: bool, p: Plan, after: seq<Component<T>>,
                       i: nat)
    requires i < |before| + 1 + |after|
    ensures
      var cs, rs := Around(before, resolved, p, after), RestOf(before, Applies(w.kernel, resolved, p), after);
      cs[i].apply(Before(w, cs, i)).1 == rs[i].apply(Before(w.rest, rs, i)).1
  {
    hide ResolveAndApply;
    BeforeSplits(w, before, resolved, p, after, i);
  }

  /** Who fails first does not depend on the point of view. */
  lemma FailureSplits<T>(w: World<T>, before: seq<Component<T>>, resolved: bool, p: Plan, after: seq<Component<T>>)
    ensures FirstFailure(w, Around(before, resolved, p, after)) ==
            FirstFailure(w.rest, RestOf(before, Applies(w.kernel, resolved, p), after))
  {
    hide ResolveAndApply, ApplyPrefix, Around, RestOf;
    Sizes(before, resolved, p, after, Applies(w.kernel, resolved, p));
    var cs, rs := Around(before, resolved, p, after), RestOf(before, Applies(w.kernel, resolved, p), after);
    forall i: nat | i < |cs| ensures cs[i].apply(Before(w, cs, i)).1 == rs[i].apply(Before(w.rest, rs, i)).1 {
      SameOutcome(w, before, resolved, p, after, i);
    }
    ApplyPrefixReaches(w, cs);
    ApplyPrefixReaches(w.rest, rs);
  }

  /** What a failed ApplyAll leaves in the kernel, whatever fails: an earlier failure leaves it alone; if the Route
      fails, the original plus the host routes whose rollback was reported as failed; if a later component fails,
      what CleanupAfterApply says. The rest of the world is restored as the manager promises. */
  lemma FailedApplyAllAroundRoute<T>(w: World<T>, before: seq<Component<T>>, resolved: bool, p: Plan,
                                     after: seq<Component<T>>)
    requires
      var rs, n := RestOf(before, Applies(w.kernel, resolved, p), after),
        FirstFailure(w, Around(before, resolved, p, after));
      && n < |rs| && FailsAtomically(w.rest, rs, n) && Undoes(w.rest, rs, n)
    ensures
      var n, v := FirstFailure(w, Around(before, resolved, p, after)),
        AfterApplyAll(w, [], Around(before, resolved, p, after));
      && v.rest == w.rest
      && (n < |before| || (n == |before| && !resolved) ==> v.kernel == w.kernel)
      && (n == |before| ==>
            v.kernel.table ==
            WithHosts(w.kernel.table, Reported(ResolveAndApply(w.kernel, resolved, p).1), Hop(p)))
      && (n > |before| ==>
            var applied := ResolveAndApply(w.kernel, resolved, p).0;
            var errors := Cleanup(applied, p).1;
            v.kernel.table == if RestoreFailed in errors then applied.table
                              else WithHosts(w.kernel.table.(default := Some(Hop(p))), Reported(errors), Hop(p)))
  {
    hide ResolveAndApply, Cleanup, Around, RestOf, AfterApplyAll, ApplyPrefix, FailsAtomically, Undoes, Applies,
         LeftKernel;
    var rs := RestOf(before, Applies(w.kernel, resolved, p), after);
    Sizes(before, resolved, p, after, Applies(w.kernel, resolved, p));
    AfterSplits(w, before, resolved, p, after);
    FailedApplyAllRollsBack(w.rest, rs);
    RouteFailsAt(w, before, resolved, p, after);
    LeftTable(w.kernel, resolved, p, FirstFailure(w, Around(before, resolved, p, after)), |before|);
  }

  /** The kernel when component n of the list is the first to fail and the Route is component m. */
  function LeftKernel(k: Kernel, resolved: bool, p: Plan, n: nat, m: nat): Kernel
  {
    if n < m then k
    else if n == m then ResolveAndApply(k, resolved, p).0
    else Cleanup(ResolveAndApply(k, resolved, p).0, p).0
  }

  lemma LeftTable(k: Kernel, resolved: bool, p: Plan, n: nat, m: nat)
    requires (n == m ==> !Applies(k, resolved, p)) && (n > m ==> Applies(k, resolved, p))
    ensures
      var left := LeftKernel(k, resolved, p, n, m);
      && (n < m || (n == m && !resolved) ==> left == k)
      && (n == m ==> left.table == WithHosts(k.table, Reported(ResolveAndApply(k, resolved, p).1), Hop(p)))
      && (n > m ==>
            var applied := ResolveAndApply(k, resolved, p).0;
            var errors := Cleanup(applied, p).1;
            left.table == if RestoreFailed in errors then applied.table
                          else WithHosts(k.table.(default := Some(Hop(p))), Reported(errors), Hop(p)))
  {
    hide Cleanup, Apply;
    ResolvedIsTransactional(k, resolved, p);
    if n > m {
      CleanupAfterApply(k, p, Apply(k, p).0);
    }
  }

  lemma ResolvedIsTransactional(k: Kernel, resolved: bool, p: Plan)
    ensures
      var (k1, errors) := ResolveAndApply(k, resolved, p);
      errors != [] ==> k1.table == WithHosts(k.table, Reported(errors), Hop(p))
  {
    ApplyIsTransactional(k, p);
    if !resolved {
      assert Reported([ResolveFailed]) == {};
      WithNoHosts(k.table, Hop(p));
    }
  }

  lemma OnlyResolvedApplies(k: Kernel, resolved: bool, p: Plan)
    requires Applies(k, resolved, p)
    ensures resolved && ResolveAndApply(k, resolved, p) == Apply(k, p)
  {
  }

  lemma AfterSplits<T>(w: World<T>, before: seq<Component<T>>, resolved: bool, p: Plan, after: seq<Component<T>>)
    requires FirstFailure(w, Around(before, resolved, p, after)) < |before| + 1 + |after|
    ensures
      var rs, n := RestOf(before, Applies(w.kernel, resolved, p), after),
        FirstFailure(w, Around(before, resolved, p, after));
      && FirstFailure(w.rest, rs) == n
      && AfterApplyAll(w, [], Around(before, resolved, p, after))
         == World(AfterApplyAll(w.rest, [], rs),
                  LeftKernel(w.kernel, resolved, p, n, |before|))
  {
    hide ResolveAndApply, Cleanup, Around, RestOf, ApplyPrefix;
    var cs, rs := Around(before, resolved, p, after), RestOf(before, Applies(w.kernel, resolved, p), after);
    Sizes(before, resolved, p, after, Applies(w.kernel, resolved, p));
    PrefixSplits(w, before, resolved, p, after);
    var (x, n) := ApplyPrefix(w, cs);
    TeardownSplits(x, before, resolved, p, after, Applies(w.kernel, resolved, p), n);
    assert [] + cs[..n] == cs[..n] && [] + rs[..n] == rs[..n];
  }

  lemma Sizes<T>(before: seq<Component<T>>, resolved: bool, p: Plan, after: seq<Component<T>>, ok: bool)
    ensures |Around(before, resolved, p, after)| == |RestOf(before, ok, after)| == |before| + 1 + |after|
  {
  }

  lemma PrefixSplits<T>(w: World<T>, before: seq<Component<T>>, resolved: bool, p: Plan, after: seq<Component<T>>)
    requires FirstFailure(w, Around(before, resolved, p, after)) < |before| + 1 + |after|
    ensures
      var (x, n) := ApplyPrefix(w, Around(before, resolved, p, after));
      && ApplyPrefix(w.rest, RestOf(before, Applies(w.kernel, resolved, p), after)) == (x.rest, n)
      && x.kernel == if n < |before| then w.kernel else ResolveAndApply(w.kernel, resolved, p).0
  {
    hide ResolveAndApply, ApplyPrefix;
    FailureSplits(w, before, resolved, p, after);
    var cs, rs := Around(before, resolved, p, after), RestOf(before, Applies(w.kernel, resolved, p), after);
    var n := FirstFailure(w, cs);
    ApplyPrefixReaches(w, cs);
    ApplyPrefixReaches(w.rest, rs);
    BeforeSplits(w, before, resolved, p, after, n);
  }

  /** The Route is the first to fail exactly when it does fail and is reached. */
  lemma RouteFailsAt<T>(w: World<T>, before: seq<Component<T>>, resolved: bool, p: Plan, after: seq<Component<T>>)
    ensures
      var n := FirstFailure(w, Around(before, resolved, p, after));
      && (n == |before| ==> !Applies(w.kernel, resolved, p))
      && (n > |before| ==> Applies(w.kernel, resolved, p))
  {
    hide ResolveAndApply;
    var cs := Around(before, resolved, p, after);
    ApplyPrefixReaches(w, cs);
    BeforeSplits(w, before, resolved, p, after, |before|);
    assert cs[|before|] == RouteOf(resolved, p);
  }

  /** When no request fails and the remembered gateway was the default route, the table is the original one again,
      and stays so through the second, deferred Teardown, in which any request may fail. */
  lemma RouteRollsBack<T>(w: World<T>, before: seq<Component<T>>, resolved: bool, p: Plan, after: seq<Component<T>>,
                          faults: seq<bool>)
    requires
      var rs, n := RestOf(before, Applies(w.kernel, resolved, p), after),
        FirstFailure(w, Around(before, resolved, p, after));
      && n < |rs| && FailsAtomically(w.rest, rs, n) && Undoes(w.rest, rs, n)
      && forall i :: 0 <= i < n ==> rs[i].cleanup(w.rest) == w.rest
    requires NoFaults(w.kernel) && w.kernel.table.default == Some(Hop(p))
    ensures
      var cs := Around(before, resolved, p, after);
      var n, v := FirstFailure(w, cs), AfterApplyAll(w, [], cs);
      var again := TeardownAll(v.(kernel := v.kernel.(faults := faults)), cs[..n]);
      && v.rest == w.rest && v.kernel.table == w.kernel.table
      && again.rest == w.rest && again.kernel.table == w.kernel.table
  {
    hide ResolveAndApply, Cleanup;
    var cs, rs := Around(before, resolved, p, after), RestOf(before, Applies(w.kernel, resolved, p), after);
    var n, v := FirstFailure(w, cs), AfterApplyAll(w, [], cs);
    AfterSplits(w, before, resolved, p, after);
    FailedApplyAllRollsBack(w.rest, rs);
    SecondTeardownStays(w.rest, rs);
    RouteFailsAt(w, before, resolved, p, after);
    CalmRoute(w.kernel, resolved, p);
    var later := v.(kernel := v.kernel.(faults := faults));
    TeardownSplits(later, before, resolved, p, after, Applies(w.kernel, resolved, p), n);
    if n > |before| {
      OnlyResolvedApplies(w.kernel, resolved, p);
      ApplySucceedsIff(w.kernel, p);
      CleanupUndoesApply(w.kernel, p);
      CleanupAgain(later.kernel, p);
    }
  }

  lemma CalmRoute(k: Kernel, resolved: bool, p: Plan)
    requires NoFaults(k)
    ensures !Applies(k, resolved, p) ==> ResolveAndApply(k, resolved, p).0.table == k.table
  {
    ApplySucceedsIff(k, p);
  }
}
