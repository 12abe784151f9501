/** The order of a Route's requests, as the sequence of tables that they leave. */
module RouteOrder {
  import opened Bytes
  import opened RouteTable
  import opened Route

  /** The tables while host routes are added, first to last. */
  function Growing(t: Table, ips: seq<IPv4>, hop: NextHop): seq<Table>
  {
    if ips == [] then []
    else Growing(t, ips[..|ips| - 1], hop) + [WithHosts(t, Members(ips), hop)]
  }

  /** The tables while they are deleted, last to first. */
  function Shrinking(t: Table, ips: seq<IPv4>, hop: NextHop): seq<Table>
  {
    if ips == [] then []
    else [WithHosts(t, Members(ips[..|ips| - 1]), hop)] + Shrinking(t, ips[..|ips| - 1], hop)
  }

  lemma {:induction false} AddedInOrder(k: Kernel, ips: seq<IPv4>, hop: NextHop)
    requires NoFaults(k) && AddRoutes(k, ips, hop).1 == |ips|
    ensures AddRoutes(k, ips, hop).0.trace == k.trace + Growing(k.table, ips, hop)
  {
    hide WithHosts, Members, Distinct;
    if ips != [] {
      AddedInOrder(k, ips[..|ips| - 1], hop);
      AddRoutesAdds(k, ips, hop);
      assert ips[..|ips|] == ips;
    }
  }

  lemma {:induction false} DeletedInReverse(k: Kernel, t: Table, ips: seq<IPv4>, hop: NextHop)
    requires NoFaults(k) && Distinct(ips) && (forall ip :: ip in ips ==> ip !in t.hosts)
    requires k.table == WithHosts(t, Members(ips), hop)
    ensures DeleteRoutes(k, ips, hop).0.trace == k.trace + Shrinking(t, ips, hop)
    decreases |ips|
  {
    hide WithHosts, Members, DelHost, Distinct, NoFaults;
    if ips != [] {
      var prefix, last := ips[..|ips| - 1], ips[|ips| - 1];
      assert ips == prefix + [last];
      DeletesLast(k, t, prefix, last, hop);
      var k1 := DelHost(k, last, hop).0;
      DeletedInReverse(k1, t, prefix, hop);
      Associates(k.trace, [k1.table], Shrinking(t, prefix, hop));
    }
  }

  lemma Associates(a: seq<Table>, b: seq<Table>, c: seq<Table>)
    ensures (a + b) + c == a + (b + c)
  {
  }

  lemma DeletesLast(k: Kernel, t: Table, prefix: seq<IPv4>, last: IPv4, hop: NextHop)
    requires NoFaults(k) && Distinct(prefix + [last]) && last !in t.hosts
    requires k.table == WithHosts(t, Members(prefix + [last]), hop)
    ensures
      var (k1, ok) := DelHost(k, last, hop);
      && ok && NoFaults(k1) && k1.table == WithHosts(t, Members(prefix), hop)
      && k1.trace == k.trace + [k1.table] && Distinct(prefix)
  {
    MembersOfSnoc(prefix, last);
    WithOneMore(t, Members(prefix), last, hop);
  }

  /** A refused request leaves one more copy of the table. */
  lemma {:induction false} RefusedOnce(k: Kernel, ips: seq<IPv4>, hop: NextHop)
    requires AddRoutes(k, ips, hop).1 < |ips|
    ensures
      var (k1, n) := AddRoutes(k, ips, hop);
      var (k0, m) := AddRoutes(k, ips[..n], hop);
      m == n && k1 == Settle(k0, k0.table)
  {
    var prefix := ips[..|ips| - 1];
    var n := AddRoutes(k, prefix, hop).1;
    if n < |ips| - 1 {
      RefusedOnce(k, prefix, hop);
      assert prefix[..n] == ips[..n];
    } else {
      assert prefix == ips[..n];
    }
  }

  lemma CalmDefault(k: Kernel, hop: NextHop)
    requires NoFaults(k)
    ensures SetDefault(k, hop) == (Settle(k, k.table.(default := Some(hop))), true)
  {
  }

  /** Every table of an Apply without faults, in order: the bypass routes come one by one, first to last. Then the
      default moves; or, at a refused destination, the table stays once and the routes go again one by one, last to
      first. */
  lemma ApplyInOrder(k: Kernel, p: Plan)
    requires NoFaults(k)
    ensures
      var n := AddRoutes(k, p.bypass, Hop(p)).1;
      var added := p.bypass[..n];
      var full := WithHosts(k.table, Members(added), Hop(p));
      Apply(k, p).0.trace ==
      k.trace + Growing(k.table, added, Hop(p))
      + if n == |p.bypass| then [full.(default := Some(Dev(p.tunnelIndex)))]
        else [full] + Shrinking(k.table, added, Hop(p))
  {
    var (k1, n) := AddRoutes(k, p.bypass, Hop(p));
    var added := p.bypass[..n];
    AddRoutesAdds(k, p.bypass, Hop(p));
    AddRoutesCalm(k, p.bypass, Hop(p));
    hide WithHosts, Members, Distinct, NoFaults, AddRoutes, DeleteRoutes, Growing, Shrinking;
    if n == |p.bypass| {
      assert added == p.bypass;
      AddedInOrder(k, p.bypass, Hop(p));
      CalmDefault(k1, Dev(p.tunnelIndex));
    } else {
      RefusedOnce(k, p.bypass, Hop(p));
      AddedInOrder(k, added, Hop(p));
      DeletedInReverse(k1, k.table, added, Hop(p));
      Associates(k.trace + Growing(k.table, added, Hop(p)), [k1.table], Shrinking(k.table, added, Hop(p)));
    }
  }

  /** Every table of a Cleanup without faults after an Apply: the default first, then the routes, last to first. */
  lemma CleanupInOrder(k: Kernel, p: Plan)
    requires NoFaults(k) && Apply(k, p).1 == []
    ensures
      var k1 := Apply(k, p).0;
      var t := k.table.(default := Some(Hop(p)));
      Cleanup(k1, p).0.trace ==
      k1.trace + [WithHosts(t, Members(p.bypass), Hop(p))] + Shrinking(t, p.bypass, Hop(p))
  {
    ApplySucceedsIff(k, p);
    AddRoutesCalm(k, p.bypass, Hop(p));
    ApplyIsTransactional(k, p);
    var (k2, ok) := SetDefault(Apply(k, p).0, Hop(p));
    var t := k.table.(default := Some(Hop(p)));
    assert k2.table == WithHosts(t, Members(p.bypass), Hop(p));
    DeletedInReverse(k2, t, p.bypass, Hop(p));
  }
}
