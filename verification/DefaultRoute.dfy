/** Reading the default route from a routing-table dump: internal/netlink/link.go. */
module DefaultRoute {
  import opened Bytes
  import opened Netlink

  /** Length of the receive buffer, which keeps the bytes of earlier datagrams. */
  const BUFFER: nat := 65536

  /** net.InterfaceByIndex, as a table. */
  datatype Interface = Interface(index: int, name: string)
  type Interfaces = map<uint32, Interface>

  /** The fields collected so far; the gateway is a slice of the receive buffer. */
  datatype Found = Found(gateway: Option<(nat, nat)>, index: int, name: string)

  /** How a walk ends: it runs off the datagram, returns a route, returns an error, repeats one
      iteration for ever, or indexes past the buffer. */
  datatype Walk = More(found: Found) | Done(found: Found) | Failed | Loops | Panics

  function Complete(f: Found): Walk
  {
    if f.index == 0 || f.name == "" then Failed
    else if f.gateway.None? || f.gateway.value.1 - f.gateway.value.0 < 4 then Failed
    else Done(f)
  }

  predicate InBuffer(buf: seq<byte>, f: Found)
  {
    f.gateway.Some? ==> f.gateway.value.0 <= f.gateway.value.1 <= |buf|
  }

  // ---- The two loops, round by round ----

  /** Where a loop stands: about to test its guard at pos, or ended. */
  datatype Place = On(pos: nat, found: Found) | Over(walk: Walk)

  /** One round of the inner loop, guard included; `continue` leaves pos as it is. */
  function InnerRound(buf: seq<byte>, end: nat, ifaces: Interfaces, p: Place): (r: Place)
    ensures p.On? && r.On? ==> p.pos <= r.pos && p.pos < end && (r.pos == p.pos ==> r == p)
    ensures p.On? && r.Over? ==> r.walk == More(p.found) || r.walk == Panics
    ensures p.On? && r.On? && InBuffer(buf, p.found) ==> InBuffer(buf, r.found)
  {
    match p
    case Over(_) => p
    case On(pos, f) =>
      if pos + 4 > end then Over(More(f))
      else if pos + 4 > |buf| then Over(Panics)
      else
        var length := ReadNative16(buf[pos..pos + 2]);
        var kind := ReadNative16(buf[pos + 2..pos + 4]);
        if length < 4 || pos + length > end then Over(More(f))
        else if pos + length > |buf| then Over(Panics)
        else
          var value := buf[pos + 4..pos + length];
          if kind == RTA_OIF && |value| < 4 then p
          else if kind == RTA_OIF && ReadNative32(value[0..4]) !in ifaces then p
          else if kind == RTA_GATEWAY && |value| < 4 then p
          else
            var found :=
              if kind == RTA_OIF then
                var i := ifaces[ReadNative32(value[0..4])];
                f.(index := i.index, name := i.name)
              else if kind == RTA_GATEWAY then f.(gateway := Some((pos + 4, pos + length)))
              else f;
            On(pos + Align4(length), found)
  }

  /** Where the rounds of the inner loop lead: a round that leaves everything as it was will do so for ever. */
  function AttrLoop(buf: seq<byte>, pos: nat, end: nat, f: Found, ifaces: Interfaces): (w: Walk)
    ensures InBuffer(buf, f) && w.More? ==> InBuffer(buf, w.found)
    ensures !w.Done? && !w.Failed?
    ensures pos + 4 > end ==> w == More(f)
    decreases end - pos
  {
    match InnerRound(buf, end, ifaces, On(pos, f))
    case Over(w) => w
    case On(next, g) => if next == pos then Loops else AttrLoop(buf, next, end, g, ifaces)
  }

  /** One round of the loop over messages; the inner loop in it ends as AttrLoop says. */
  function OuterRound(buf: seq<byte>, n: nat, want: uint32, ifaces: Interfaces, p: Place): (r: Place)
    requires n <= |buf|
    ensures p.On? && r.On? ==> p.pos <= r.pos && p.pos < n && (r.pos == p.pos ==> r == p)
    ensures p.On? && r.On? && InBuffer(buf, p.found) ==> InBuffer(buf, r.found)
    ensures p.On? && r.Over? && InBuffer(buf, p.found) && (r.walk.More? || r.walk.Done?) ==> InBuffer(buf, r.walk.found)
  {
    match p
    case Over(_) => p
    case On(pos, f) =>
      if pos + HDRLEN > n then Over(More(f))
      else
        var length := ReadNative32(buf[pos..pos + 4]);
        var kind := ReadNative16(buf[pos + 4..pos + 6]);
        var sequence := ReadNative32(buf[pos + 8..pos + 12]);
        var next := pos + Align4(length);
        if sequence != want then On(next, f)
        else if kind == NLMSG_DONE then Over(Complete(f))
        else if kind == NLMSG_ERROR then Over(Failed)
        else if kind != RTM_NEWROUTE then On(next, f)
        else if pos + 20 >= |buf| then Over(Panics)
        else if buf[pos + 17] != 0 || buf[pos + 20] != RT_TABLE_MAIN then On(next, f)
        else
          var r := AttrLoop(buf, pos + 28, pos + length, f, ifaces);
          if r.More? then On(next, r.found) else Over(r)
  }

  /** Where the rounds over the n bytes just received lead. */
  function WalkDatagram(buf: seq<byte>, n: nat, pos: nat, want: uint32, f: Found, ifaces: Interfaces): (w: Walk)
    requires n <= |buf|
    ensures InBuffer(buf, f) && (w.More? || w.Done?) ==> InBuffer(buf, w.found)
    decreases n - pos
  {
    match OuterRound(buf, n, want, ifaces, On(pos, f))
    case Over(w) => w
    case On(next, g) => if next == pos then Loops else WalkDatagram(buf, n, next, want, g, ifaces)
  }

  lemma AttrLoopIs(buf: seq<byte>, pos: nat, end: nat, f: Found, ifaces: Interfaces)
    ensures
      var p, w := InnerRound(buf, end, ifaces, On(pos, f)), AttrLoop(buf, pos, end, f, ifaces);
      if p.Over? then w == p.walk
      else if p.pos == pos then w == Loops
      else w == AttrLoop(buf, p.pos, end, p.found, ifaces)
  {
    hide InnerRound;
  }

  lemma WalkDatagramIs(buf: seq<byte>, n: nat, pos: nat, want: uint32, f: Found, ifaces: Interfaces)
    requires n <= |buf|
    ensures
      var p, w := OuterRound(buf, n, want, ifaces, On(pos, f)), WalkDatagram(buf, n, pos, want, f, ifaces);
      if p.Over? then w == p.walk
      else if p.pos == pos then w == Loops
      else w == WalkDatagram(buf, n, p.pos, want, p.found, ifaces)
  {
    hide OuterRound;
  }

  // ---- Rounds without end ----

  function InnerStep(buf: seq<byte>, end: nat, ifaces: Interfaces): Place -> Place
  {
    p => InnerRound(buf, end, ifaces, p)
  }

  function OuterStep(buf: seq<byte>, n: nat, want: uint32, ifaces: Interfaces): Place -> Place
    requires n <= |buf|
  {
    p => OuterRound(buf, n, want, ifaces, p)
  }

  function Iterate(step: Place -> Place, n: nat, p: Place): Place
  {
    if n == 0 then p else Iterate(step, n - 1, step(p))
  }

  /** A loop that has ended stays ended. */
  ghost predicate Stays(step: Place -> Place)
  {
    forall w :: step(Over(w)) == Over(w)
  }

  lemma {:induction false} IterateAdds(step: Place -> Place, m: nat, n: nat, p: Place)
    ensures Iterate(step, m + n, p) == Iterate(step, n, Iterate(step, m, p))
  {
    if m > 0 {
      IterateAdds(step, m - 1, n, step(p));
    }
  }

  lemma {:induction false} FixedForEver(step: Place -> Place, n: nat, p: Place)
    requires step(p) == p
    ensures Iterate(step, n, p) == p
  {
    if n > 0 {
      FixedForEver(step, n - 1, p);
    }
  }

  /** The end of a loop, if it has one, is the same however long one waits. */
  lemma EndsOnce(step: Place -> Place, p: Place, m: nat, n: nat)
    requires Stays(step) && Iterate(step, m, p).Over? && m <= n
    ensures Iterate(step, n, p) == Iterate(step, m, p)
  {
    IterateAdds(step, m, n - m, p);
    FixedForEver(step, n - m, Iterate(step, m, p));
  }

  /** The loop really runs for ever: after any number of rounds its guard is about to be tested again. */
  ghost predicate Forever(step: Place -> Place, p: Place)
  {
    forall n: nat :: Iterate(step, n, p).On?
  }

  ghost predicate EndsAs(step: Place -> Place, p: Place, w: Walk)
  {
    exists n: nat :: Iterate(step, n, p) == Over(w)
  }

  lemma ReachesEnd(step: Place -> Place, p: Place, n: nat, w: Walk)
    requires Stays(step) && Iterate(step, n, p) == Over(w)
    ensures !Forever(step, p) && forall x :: EndsAs(step, p, x) <==> x == w
  {
    forall x | EndsAs(step, p, x) ensures x == w {
      var m: nat :| Iterate(step, m, p) == Over(x);
      EndsOnce(step, p, if m <= n then m else n, if m <= n then n else m);
    }
  }

  lemma ReachesFixpoint(step: Place -> Place, p: Place, n: nat)
    requires Stays(step) && Iterate(step, n, p).On? && step(Iterate(step, n, p)) == Iterate(step, n, p)
    ensures Forever(step, p) && forall x :: !EndsAs(step, p, x)
  {
    forall m: nat ensures Iterate(step, m, p).On? {
      if m <= n {
        if Iterate(step, m, p).Over? {
          EndsOnce(step, p, m, n);
        }
      } else {
        IterateAdds(step, n, m - n, p);
        FixedForEver(step, m - n, Iterate(step, n, p));
      }
    }
  }

  /** AttrLoop is where the rounds of the inner loop lead: Loops exactly when there is no end to them, anything
      else exactly when that is how they end. */
  lemma InnerLoopEnds(buf: seq<byte>, pos: nat, end: nat, f: Found, ifaces: Interfaces)
    ensures
      var step, w := InnerStep(buf, end, ifaces), AttrLoop(buf, pos, end, f, ifaces);
      && (w == Loops <==> Forever(step, On(pos, f)))
      && (forall x :: EndsAs(step, On(pos, f), x) <==> x == w && w != Loops)
  {
    hide AttrLoop;
    var step := InnerStep(buf, end, ifaces);
    var n := InnerRuns(buf, pos, end, f, ifaces);
    if AttrLoop(buf, pos, end, f, ifaces) == Loops {
      ReachesFixpoint(step, On(pos, f), n);
    } else {
      ReachesEnd(step, On(pos, f), n, AttrLoop(buf, pos, end, f, ifaces));
    }
  }

  lemma {:induction false} InnerRuns(buf: seq<byte>, pos: nat, end: nat, f: Found, ifaces: Interfaces) returns (n: nat)
    ensures
      var step, w := InnerStep(buf, end, ifaces), AttrLoop(buf, pos, end, f, ifaces);
      var p := Iterate(step, n, On(pos, f));
      if w == Loops then p.On? && step(p) == p else p == Over(w)
    decreases end - pos
  {
    hide InnerRound;
    var p := InnerRound(buf, end, ifaces, On(pos, f));
    if p.Over? {
      n := 1;
      assert Iterate(InnerStep(buf, end, ifaces), 0, p) == p;
    } else if p.pos == pos {
      n := 0;
    } else {
      var m := InnerRuns(buf, p.pos, end, p.found, ifaces);
      n := m + 1;
    }
  }

  /** WalkDatagram is where the rounds of the loop over messages lead. It reports Loops when there is no end to them,
      or when the inner loop of one of them has none; OuterForeverIff and InnerForeverIff say on which bytes. */
  lemma OuterLoopEnds(buf: seq<byte>, n: nat, pos: nat, want: uint32, f: Found, ifaces: Interfaces)
    requires n <= |buf|
    ensures
      var step, w := OuterStep(buf, n, want, ifaces), WalkDatagram(buf, n, pos, want, f, ifaces);
      && (w == Loops <==> Forever(step, On(pos, f)) || EndsAs(step, On(pos, f), Loops))
      && (forall x :: x != Loops ==> (EndsAs(step, On(pos, f), x) <==> x == w))
  {
    hide WalkDatagram, OuterRound;
    var step, w := OuterStep(buf, n, want, ifaces), WalkDatagram(buf, n, pos, want, f, ifaces);
    OuterStays(buf, n, want, ifaces);
    var rounds := OuterRuns(buf, n, pos, want, f, ifaces);
    if Iterate(step, rounds, On(pos, f)).On? {
      ReachesFixpoint(step, On(pos, f), rounds);
    } else {
      ReachesEnd(step, On(pos, f), rounds, w);
    }
  }

  lemma OuterStays(buf: seq<byte>, n: nat, want: uint32, ifaces: Interfaces)
    requires n <= |buf|
    ensures Stays(OuterStep(buf, n, want, ifaces))
  {
  }

  lemma {:induction false} OuterRuns(buf: seq<byte>, n: nat, pos: nat, want: uint32, f: Found, ifaces: Interfaces)
    returns (rounds: nat)
    requires n <= |buf|
    ensures
      var step, w := OuterStep(buf, n, want, ifaces), WalkDatagram(buf, n, pos, want, f, ifaces);
      var p := Iterate(step, rounds, On(pos, f));
      if p.On? then w == Loops && step(p) == p else p == Over(w)
    decreases n - pos
  {
    hide OuterRound;
    var p := OuterRound(buf, n, want, ifaces, On(pos, f));
    if p.Over? {
      rounds := 1;
      assert Iterate(OuterStep(buf, n, want, ifaces), 0, p) == p;
    } else if p.pos == pos {
      rounds := 0;
    } else {
      var m := OuterRuns(buf, n, p.pos, want, p.found, ifaces);
      rounds := m + 1;
    }
  }

  // ---- Which bytes do it ----

  /** At pos stands a message of length 0 on which the loop neither ends nor indexes past the buffer. */
  predicate Stalls(buf: seq<byte>, n: nat, want: uint32, pos: nat)
    requires n <= |buf|
  {
    && pos + HDRLEN <= n && ReadNative32(buf[pos..pos + 4]) == 0
    && (ReadNative32(buf[pos + 8..pos + 12]) == want ==>
          var kind := ReadNative16(buf[pos + 4..pos + 6]);
          kind != NLMSG_DONE && kind != NLMSG_ERROR && (kind == RTM_NEWROUTE ==> pos + 20 < |buf|))
  }

  /** A round over messages leaves every variable as it was exactly on such a message. */
  lemma StallsIff(buf: seq<byte>, n: nat, want: uint32, pos: nat, f: Found, ifaces: Interfaces)
    requires n <= |buf|
    ensures OuterRound(buf, n, want, ifaces, On(pos, f)) == On(pos, f) <==> Stalls(buf, n, want, pos)
  {
    hide ReadNative16, ReadNative32, AttrLoop;
  }

  /** The loop over messages has no end exactly when it comes to such a message. */
  lemma OuterForeverIff(buf: seq<byte>, n: nat, pos: nat, want: uint32, f: Found, ifaces: Interfaces)
    requires n <= |buf|
    ensures
      var step := OuterStep(buf, n, want, ifaces);
      Forever(step, On(pos, f))
      <==> exists k: nat :: Iterate(step, k, On(pos, f)).On? && Stalls(buf, n, want, Iterate(step, k, On(pos, f)).pos)
  {
    hide OuterRound, Stalls, WalkDatagram;
    var step, p := OuterStep(buf, n, want, ifaces), On(pos, f);
    OuterStays(buf, n, want, ifaces);
    if Forever(step, p) {
      var k := OuterRuns(buf, n, pos, want, f, ifaces);
      var q := Iterate(step, k, p);
      StallsIff(buf, n, want, q.pos, q.found, ifaces);
    }
    forall k: nat | Iterate(step, k, p).On? && Stalls(buf, n, want, Iterate(step, k, p).pos) ensures Forever(step, p) {
      var q := Iterate(step, k, p);
      StallsIff(buf, n, want, q.pos, q.found, ifaces);
      ReachesFixpoint(step, p, k);
    }
  }

  /** At pos stands an attribute inside buffer and message that the inner loop cannot use. */
  predicate Sticks(buf: seq<byte>, end: nat, ifaces: Interfaces, pos: nat)
  {
    && pos + 4 <= end && pos + 4 <= |buf|
    && var length := ReadNative16(buf[pos..pos + 2]);
    && 4 <= length && pos + length <= end && pos + length <= |buf|
    && Unusable(Attr(ReadNative16(buf[pos + 2..pos + 4]), buf[pos + 4..pos + length]), ifaces)
  }

  lemma SticksIff(buf: seq<byte>, end: nat, ifaces: Interfaces, pos: nat, f: Found)
    ensures InnerRound(buf, end, ifaces, On(pos, f)) == On(pos, f) <==> Sticks(buf, end, ifaces, pos)
  {
    hide ReadNative16, ReadNative32;
  }

  /** Whatever the bytes, the inner loop has no end exactly when it comes to such an attribute. */
  lemma InnerForeverIff(buf: seq<byte>, pos: nat, end: nat, f: Found, ifaces: Interfaces)
    ensures
      var step := InnerStep(buf, end, ifaces);
      Forever(step, On(pos, f))
      <==> exists k: nat ::
             Iterate(step, k, On(pos, f)).On? && Sticks(buf, end, ifaces, Iterate(step, k, On(pos, f)).pos)
  {
    hide InnerRound, Sticks, AttrLoop;
    var step, p := InnerStep(buf, end, ifaces), On(pos, f);
    InnerStays(buf, end, ifaces);
    if Forever(step, p) {
      var k := InnerRuns(buf, pos, end, f, ifaces);
      var q := Iterate(step, k, p);
      SticksIff(buf, end, ifaces, q.pos, q.found);
    }
    forall k: nat | Iterate(step, k, p).On? && Sticks(buf, end, ifaces, Iterate(step, k, p).pos)
      ensures Forever(step, p)
    {
      var q := Iterate(step, k, p);
      SticksIff(buf, end, ifaces, q.pos, q.found);
      ReachesFixpoint(step, p, k);
    }
  }

  /** At pos the inner loop indexes past the buffer: with the header of an attribute, or with its value. */
  predicate Overruns(buf: seq<byte>, end: nat, pos: nat)
  {
    && pos + 4 <= end
    && (pos + 4 <= |buf| ==>
          var length := ReadNative16(buf[pos..pos + 2]);
          4 <= length && pos + length <= end && pos + length > |buf|)
  }

  lemma OverrunsIff(buf: seq<byte>, end: nat, pos: nat, f: Found, ifaces: Interfaces)
    ensures InnerRound(buf, end, ifaces, On(pos, f)) == Over(Panics) <==> Overruns(buf, end, pos)
  {
    hide ReadNative16, ReadNative32;
  }

  /** The inner loop panics exactly when it comes to such a place. */
  lemma InnerPanicsIff(buf: seq<byte>, pos: nat, end: nat, f: Found, ifaces: Interfaces)
    ensures
      var step := InnerStep(buf, end, ifaces);
      AttrLoop(buf, pos, end, f, ifaces) == Panics
      <==> exists k: nat :: Iterate(step, k, On(pos, f)).On? && Overruns(buf, end, Iterate(step, k, On(pos, f)).pos)
  {
    hide AttrLoop, Overruns, InnerRound;
    var step, p := InnerStep(buf, end, ifaces), On(pos, f);
    InnerStays(buf, end, ifaces);
    InnerLoopEnds(buf, pos, end, f, ifaces);
    if AttrLoop(buf, pos, end, f, ifaces) == Panics {
      assert EndsAs(step, p, Panics);
      var m: nat :| Iterate(step, m, p) == Over(Panics);
      var k := LastRound(step, p, m);
      var q := Iterate(step, k, p);
      OverrunsIff(buf, end, q.pos, q.found, ifaces);
    }
    forall k: nat | Iterate(step, k, p).On? && Overruns(buf, end, Iterate(step, k, p).pos)
      ensures AttrLoop(buf, pos, end, f, ifaces) == Panics
    {
      var q := Iterate(step, k, p);
      OverrunsIff(buf, end, q.pos, q.found, ifaces);
      OneRoundMore(step, p, k);
      assert EndsAs(step, p, Panics);
    }
  }

  lemma InnerStays(buf: seq<byte>, end: nat, ifaces: Interfaces)
    ensures Stays(InnerStep(buf, end, ifaces))
  {
  }

  lemma OneRoundMore(step: Place -> Place, p: Place, k: nat)
    ensures Iterate(step, k + 1, p) == step(Iterate(step, k, p))
  {
    IterateAdds(step, k, 1, p);
    assert Iterate(step, 0, step(Iterate(step, k, p))) == step(Iterate(step, k, p));
  }

  /** The round that ended a loop. */
  lemma {:induction false} LastRound(step: Place -> Place, p: Place, m: nat) returns (k: nat)
    requires p.On? && Iterate(step, m, p).Over?
    ensures k < m && Iterate(step, k, p).On? && step(Iterate(step, k, p)).Over?
    ensures Stays(step) ==> step(Iterate(step, k, p)) == Iterate(step, m, p)
    decreases m
  {
    OneRoundMore(step, p, m - 1);
    if Iterate(step, m - 1, p).On? {
      k := m - 1;
    } else {
      k := LastRound(step, p, m - 1);
    }
  }

  /** A round over messages panics exactly on a wanted route message at the very end of the buffer, or on a default
      route whose attributes make the inner loop panic. */
  lemma OuterPanicsIff(buf: seq<byte>, n: nat, want: uint32, pos: nat, f: Found, ifaces: Interfaces)
    requires n <= |buf|
    ensures
      OuterRound(buf, n, want, ifaces, On(pos, f)) == Over(Panics)
      <==>
        && pos + HDRLEN <= n
        && ReadNative32(buf[pos + 8..pos + 12]) == want && ReadNative16(buf[pos + 4..pos + 6]) == RTM_NEWROUTE
        && (pos + 20 < |buf| ==>
              && buf[pos + 17] == 0 && buf[pos + 20] == RT_TABLE_MAIN
              && AttrLoop(buf, pos + 28, pos + ReadNative32(buf[pos..pos + 4]), f, ifaces) == Panics)
  {
    hide ReadNative16, ReadNative32, AttrLoop;
  }

  /** Whatever the bytes, the loop over messages ends this way exactly when some round does. */
  lemma WalkEndsIff(buf: seq<byte>, n: nat, pos: nat, want: uint32, f: Found, ifaces: Interfaces, w: Walk)
    requires n <= |buf| && w != Loops
    ensures
      var step := OuterStep(buf, n, want, ifaces);
      WalkDatagram(buf, n, pos, want, f, ifaces) == w
      <==> exists k: nat :: Iterate(step, k, On(pos, f)).On? && step(Iterate(step, k, On(pos, f))) == Over(w)
  {
    hide WalkDatagram, OuterRound;
    var step, p := OuterStep(buf, n, want, ifaces), On(pos, f);
    OuterStays(buf, n, want, ifaces);
    OuterLoopEnds(buf, n, pos, want, f, ifaces);
    if WalkDatagram(buf, n, pos, want, f, ifaces) == w {
      assert EndsAs(step, p, w);
      var m: nat :| Iterate(step, m, p) == Over(w);
      var k := LastRound(step, p, m);
    }
    forall k: nat | Iterate(step, k, p).On? && step(Iterate(step, k, p)) == Over(w)
      ensures WalkDatagram(buf, n, pos, want, f, ifaces) == w
    {
      OneRoundMore(step, p, k);
      assert EndsAs(step, p, w);
    }
  }

  // ---- The same at the level of messages and attributes ----

  datatype Fields = Fields(gateway: Option<seq<byte>>, index: int, name: string)

  /** None: the walk would never get past this attribute. */
  function TakeAttr(a: Attr, f: Fields, ifaces: Interfaces): Option<Fields>
  {
    if a.kind == RTA_OIF then
      if |a.value| < 4 || ReadNative32(a.value[0..4]) !in ifaces then None
      else
        var i := ifaces[ReadNative32(a.value[0..4])];
        Some(f.(index := i.index, name := i.name))
    else if a.kind == RTA_GATEWAY then
      if |a.value| < 4 then None else Some(f.(gateway := Some(a.value)))
    else Some(f)
  }

  function TakeAttrs(attrs: seq<Attr>, f: Fields, ifaces: Interfaces): Option<Fields>
  {
    if attrs == [] then Some(f)
    else match TakeAttr(attrs[0], f, ifaces)
      case None => None
      case Some(g) => TakeAttrs(attrs[1..], g, ifaces)
  }

  /** An attribute that makes the inner loop `continue` without advancing. */
  predicate Unusable(a: Attr, ifaces: Interfaces)
  {
    || (a.kind == RTA_OIF && (|a.value| < 4 || ReadNative32(a.value[0..4]) !in ifaces))
    || (a.kind == RTA_GATEWAY && |a.value| < 4)
  }

  /** The walk over a list of attributes gets stuck exactly when one of them is unusable. */
  lemma {:induction false} StuckIff(attrs: seq<Attr>, f: Fields, ifaces: Interfaces)
    ensures TakeAttrs(attrs, f, ifaces).None? <==> exists i :: 0 <= i < |attrs| && Unusable(attrs[i], ifaces)
  {
    hide ReadNative32;
    if attrs != [] {
      var g := TakeAttr(attrs[0], f, ifaces);
      if g.Some? {
        StuckIff(attrs[1..], g.value, ifaces);
        assert forall i :: 1 <= i < |attrs| ==> attrs[i] == attrs[1..][i - 1];
      }
    }
  }

  datatype Outcome = Going(fields: Fields) | Returned(fields: Fields) | Error | Stuck

  function Finish(f: Fields): Outcome
  {
    if f.index == 0 || f.name == "" || f.gateway.None? || |f.gateway.value| < 4 then Error else Returned(f)
  }

  /** A route message long enough to hold its 12-byte header. */
  predicate Proper(m: Msg, want: uint32)
  {
    m.sequence == want && m.kind == RTM_NEWROUTE ==> |m.payload| >= 12
  }

  predicate AllProper(messages: seq<Msg>, want: uint32)
  {
    forall i :: 0 <= i < |messages| ==> Proper(messages[i], want)
  }

  function TakeRoute(m: Msg, want: uint32, f: Fields, ifaces: Interfaces): Outcome
    requires Proper(m, want)
  {
    if m.sequence != want then Going(f)
    else if m.kind == NLMSG_DONE then Finish(f)
    else if m.kind == NLMSG_ERROR then Error
    else if m.kind == RTM_NEWROUTE && m.payload[1] == 0 && m.payload[4] == RT_TABLE_MAIN then
      match TakeAttrs(WalkAttrs(m.payload[12..]), f, ifaces)
      case None => Stuck
      case Some(g) => Going(g)
    else Going(f)
  }

  function TakeRoutes(messages: seq<Msg>, want: uint32, f: Fields, ifaces: Interfaces): Outcome
    requires AllProper(messages, want)
  {
    if messages == [] then Going(f)
    else
      var r := TakeRoute(messages[0], want, f, ifaces);
      if r.Going? then TakeRoutes(messages[1..], want, r.fields, ifaces) else r
  }

  /** What the collected slices say while the buffer holds these bytes. */
  function Read(buf: seq<byte>, f: Found): Fields
    requires InBuffer(buf, f)
  {
    Fields(if f.gateway.Some? then Some(buf[f.gateway.value.0..f.gateway.value.1]) else None, f.index, f.name)
  }

  ghost predicate SameEnd(buf: seq<byte>, w: Walk, o: Outcome)
  {
    match w
    case More(f) => InBuffer(buf, f) && o == Going(Read(buf, f))
    case Done(f) => InBuffer(buf, f) && o == Returned(Read(buf, f))
    case Failed => o == Error
    case Loops => o == Stuck
    case Panics => false
  }

  lemma SubSlice(buf: seq<byte>, pos: nat, end: nat, i: nat, j: nat)
    requires pos <= end <= |buf| && i <= j <= end - pos
    ensures buf[pos..end][i..j] == buf[pos + i..pos + j]
  {
    assert forall k :: 0 <= k < j - i ==> buf[pos..end][i..j][k] == buf[pos + i..pos + j][k];
  }

  /** The inner loop after the attribute at pos. */
  function NextFound(pos: nat, length: nat, kind: uint16, f: Found, g: Fields): Found
  {
    if kind == RTA_OIF then f.(index := g.index, name := g.name)
    else if kind == RTA_GATEWAY then f.(gateway := Some((pos + 4, pos + length)))
    else f
  }

  /** The attribute at the front of what the inner loop still has to read. */
  lemma AttrAt(buf: seq<byte>, pos: nat, end: nat)
    requires pos + 4 <= end <= |buf|
    ensures
      var b := buf[pos..end];
      && AttrLength(b) == ReadNative16(buf[pos..pos + 2]) && AttrKind(b) == ReadNative16(buf[pos + 2..pos + 4])
      && (4 <= AttrLength(b) <= |b| ==> b[4..AttrLength(b)] == buf[pos + 4..pos + AttrLength(b)])
      && (8 <= AttrLength(b) <= |b| ==> b[4..AttrLength(b)][0..4] == buf[pos + 4..pos + 8])
  {
    hide ReadNative16;
    var b := buf[pos..end];
    SubSlice(buf, pos, end, 0, 2);
    SubSlice(buf, pos, end, 2, 4);
    var length := AttrLength(b);
    if 4 <= length <= |b| {
      SubSlice(buf, pos, end, 4, length);
      if 8 <= length {
        SubSlice(buf, pos + 4, pos + length, 0, 4);
      }
    }
  }

  /** A round over an attribute that fits leaves every variable as it was exactly when the attribute is unusable. */
  lemma RepeatsIff(buf: seq<byte>, pos: nat, end: nat, f: Found, ifaces: Interfaces)
    requires pos + 4 <= end <= |buf| && 4 <= AttrLength(buf[pos..end]) <= end - pos
    ensures
      var b, p := buf[pos..end], On(pos, f);
      InnerRound(buf, end, ifaces, p) == p <==> Unusable(Attr(AttrKind(b), b[4..AttrLength(b)]), ifaces)
  {
    hide ReadNative16, ReadNative32;
    AttrAt(buf, pos, end);
  }

  /** One round of the inner loop takes the attribute at pos. */
  lemma RoundTakes(buf: seq<byte>, pos: nat, end: nat, f: Found, ifaces: Interfaces)
    requires pos + 4 <= end <= |buf| && InBuffer(buf, f) && 4 <= AttrLength(buf[pos..end]) <= end - pos
    ensures
      var b := buf[pos..end];
      var length := AttrLength(b);
      var g := TakeAttr(Attr(AttrKind(b), b[4..length]), Read(buf, f), ifaces);
      && (g.None? ==> InnerRound(buf, end, ifaces, On(pos, f)) == On(pos, f))
      && (g.Some? ==> var f1 := NextFound(pos, length, AttrKind(b), f, g.value);
                      InBuffer(buf, f1) && Read(buf, f1) == g.value
                      && InnerRound(buf, end, ifaces, On(pos, f)) == On(pos + Align4(length), f1))
  {
    hide ReadNative16, ReadNative32;
    AttrAt(buf, pos, end);
  }

  lemma AttrStep(buf: seq<byte>, pos: nat, end: nat, f: Found, ifaces: Interfaces)
    requires pos + 4 <= end <= |buf| && InBuffer(buf, f)
    requires 4 <= AttrLength(buf[pos..end]) <= end - pos
    ensures
      var b := buf[pos..end];
      var length := AttrLength(b);
      var g := TakeAttr(Attr(AttrKind(b), b[4..length]), Read(buf, f), ifaces);
      var w := AttrLoop(buf, pos, end, f, ifaces);
      && (g.None? ==> w == Loops)
      && (g.Some? ==> var f1 := NextFound(pos, length, AttrKind(b), f, g.value);
                      InBuffer(buf, f1) && Read(buf, f1) == g.value
                      && w == AttrLoop(buf, pos + Align4(length), end, f1, ifaces))
  {
    hide ReadNative16, ReadNative32, AttrLoop, InnerRound, TakeAttr, Read, NextFound, AttrLength, AttrKind;
    AttrLoopIs(buf, pos, end, f, ifaces);
    RoundTakes(buf, pos, end, f, ifaces);
  }

  /** Inside the buffer the rounds of the inner loop never index out of range; they go on for ever exactly when the
      attribute list holds an unusable attribute, and otherwise end with every attribute taken in order. */
  lemma InnerLoopForeverIff(buf: seq<byte>, pos: nat, end: nat, f: Found, ifaces: Interfaces)
    requires pos <= end <= |buf| && InBuffer(buf, f)
    ensures
      var step, attrs := InnerStep(buf, end, ifaces), WalkAttrs(buf[pos..end]);
      && (Forever(step, On(pos, f)) <==> exists i :: 0 <= i < |attrs| && Unusable(attrs[i], ifaces))
      && (!Forever(step, On(pos, f)) ==>
            exists g ::
              && EndsAs(step, On(pos, f), More(g)) && InBuffer(buf, g)
              && TakeAttrs(attrs, Read(buf, f), ifaces) == Some(Read(buf, g)))
  {
    hide AttrLoop, WalkAttrs, TakeAttrs, Unusable, Read, Forever, EndsAs;
    AttrLoopRefines(buf, pos, end, f, ifaces);
    InnerLoopEnds(buf, pos, end, f, ifaces);
    StuckIff(WalkAttrs(buf[pos..end]), Read(buf, f), ifaces);
    var w := AttrLoop(buf, pos, end, f, ifaces);
    if w.More? {
      assert EndsAs(InnerStep(buf, end, ifaces), On(pos, f), More(w.found));
    }
  }

  lemma {:induction false} AttrLoopRefines(buf: seq<byte>, pos: nat, end: nat, f: Found, ifaces: Interfaces)
    requires pos <= end <= |buf| && InBuffer(buf, f)
    ensures
      var r := TakeAttrs(WalkAttrs(buf[pos..end]), Read(buf, f), ifaces);
      SameEnd(buf, AttrLoop(buf, pos, end, f, ifaces), if r.None? then Stuck else Going(r.value))
    decreases end - pos
  {
    hide ReadNative16, ReadNative32, TakeAttr, Read;
    var b := buf[pos..end];
    if pos + 4 <= end {
      AttrAt(buf, pos, end);
      var length := AttrLength(b);
      if 4 <= length && pos + length <= end {
        var next := pos + Align4(length);
        WalkUnfolds(b);
        AttrStep(buf, pos, end, f, ifaces);
        var g := TakeAttr(Attr(AttrKind(b), b[4..length]), Read(buf, f), ifaces);
        if g.Some? {
          var f1 := NextFound(pos, length, AttrKind(b), f, g.value);
          if next <= end {
            SubSlice(buf, pos, end, Align4(length), |b|);
            AttrLoopRefines(buf, next, end, f1, ifaces);
          }
        }
      }
    }
  }

  lemma WalkUnfolds(b: seq<byte>)
    requires |b| >= 4 && 4 <= AttrLength(b) <= |b|
    ensures
      var next := Align4(AttrLength(b));
      var rest := if next <= |b| then WalkAttrs(b[next..]) else [];
      && WalkAttrs(b) != [] && WalkAttrs(b)[0] == Attr(AttrKind(b), b[4..AttrLength(b)]) && WalkAttrs(b)[1..] == rest
  {
  }

  /** On a datagram of well-formed messages the offset walk is the reading of its messages, one after the
      other; it never indexes out of range, and loops exactly on an unusable attribute of a default route. */
  lemma {:induction false} WalkRefines(buf: seq<byte>, n: nat, pos: nat, want: uint32, f: Found, ifaces: Interfaces)
    requires pos <= n <= |buf| && InBuffer(buf, f) && Messages(buf[pos..n]).clean
    requires AllProper(Messages(buf[pos..n]).messages, want)
    ensures SameEnd(buf, WalkDatagram(buf, n, pos, want, f, ifaces),
                    TakeRoutes(Messages(buf[pos..n]).messages, want, Read(buf, f), ifaces))
    decreases n - pos
  {
    hide TakeRoute, AttrLoop, WalkAttrs, ReadNative16, ReadNative32, Read, AfterRoute, WalkDatagram;
    var b := buf[pos..n];
    if pos + HDRLEN > n {
      WalkEnds(buf, n, pos, want, f, ifaces);
    } else {
      var m, rest := FrontMsg(b), b[Align4(MsgLength(b))..];
      var next := pos + Align4(MsgLength(b));
      SplitUnfolds(b);
      FrontAt(buf, n, pos);
      assert Proper(Messages(b).messages[0], want);
      SubSlice(buf, pos, n, next - pos, |b|);
      assert forall i :: 0 <= i < |Messages(rest).messages| ==>
          Messages(rest).messages[i] == Messages(b).messages[i + 1];
      RouteStep(buf, n, pos, want, f, ifaces);
      var r := TakeRoute(m, want, Read(buf, f), ifaces);
      if r.Going? {
        var f1 := AfterRoute(buf, n, pos, want, f, ifaces);
        WalkRefines(buf, n, next, want, f1, ifaces);
      }
    }
  }

  lemma WalkEnds(buf: seq<byte>, n: nat, pos: nat, want: uint32, f: Found, ifaces: Interfaces)
    requires pos + HDRLEN > n && n <= |buf|
    ensures WalkDatagram(buf, n, pos, want, f, ifaces) == More(f)
  {
  }

  lemma SplitUnfolds(b: seq<byte>)
    requires |b| >= HDRLEN && Messages(b).clean
    ensures FrontFits(b)
    ensures
      var rest := Messages(b[Align4(MsgLength(b))..]);
      rest.clean && Messages(b).messages != [] && Messages(b).messages[0] == FrontMsg(b)
        && Messages(b).messages[1..] == rest.messages
  {
  }

  lemma FrontAt(buf: seq<byte>, n: nat, pos: nat)
    requires pos + HDRLEN <= n <= |buf| && FrontFits(buf[pos..n])
    ensures
      var b := buf[pos..n];
      var m := FrontMsg(b);
      && ReadNative32(buf[pos..pos + 4]) == MsgLength(b) && ReadNative16(buf[pos + 4..pos + 6]) == m.kind
      && ReadNative32(buf[pos + 8..pos + 12]) == m.sequence && m.payload == buf[pos + HDRLEN..pos + MsgLength(b)]
  {
    var b := buf[pos..n];
    SubSlice(buf, pos, n, 0, 4);
    SubSlice(buf, pos, n, 4, 6);
    SubSlice(buf, pos, n, 8, 12);
    SubSlice(buf, pos, n, HDRLEN, MsgLength(b));
  }

  /** The collected fields after one message. */
  function AfterRoute(buf: seq<byte>, n: nat, pos: nat, want: uint32, f: Found, ifaces: Interfaces): Found
    requires pos + HDRLEN <= n <= |buf| && FrontFits(buf[pos..n])
  {
    var m := FrontMsg(buf[pos..n]);
    if m.sequence == want && m.kind == RTM_NEWROUTE && |m.payload| >= 12 && m.payload[1] == 0
      && m.payload[4] == RT_TABLE_MAIN then
      var r := AttrLoop(buf, pos + 28, pos + MsgLength(buf[pos..n]), f, ifaces);
      if r.More? then r.found else f
    else f
  }

  /** One round of the loop over messages: either it ends as the message says, or goes on behind it. */
  lemma RoundReads(buf: seq<byte>, n: nat, pos: nat, want: uint32, f: Found, ifaces: Interfaces)
    requires pos + HDRLEN <= n <= |buf| && FrontFits(buf[pos..n]) && InBuffer(buf, f)
    requires Proper(FrontMsg(buf[pos..n]), want)
    ensures
      var r := TakeRoute(FrontMsg(buf[pos..n]), want, Read(buf, f), ifaces);
      var f1 := AfterRoute(buf, n, pos, want, f, ifaces);
      var p := OuterRound(buf, n, want, ifaces, On(pos, f));
      && (!r.Going? ==> p.Over? && SameEnd(buf, p.walk, r))
      && (r.Going? ==> InBuffer(buf, f1) && Read(buf, f1) == r.fields
                       && p == On(pos + Align4(MsgLength(buf[pos..n])), f1))
  {
    hide AttrLoop, WalkAttrs, ReadNative16, ReadNative32;
    FrontAt(buf, n, pos);
    var m := FrontMsg(buf[pos..n]);
    var end := pos + MsgLength(buf[pos..n]);
    if m.sequence == want && m.kind == RTM_NEWROUTE {
      assert m.payload[1] == buf[pos + 17] && m.payload[4] == buf[pos + 20];
      AttrLoopRefines(buf, pos + 28, end, f, ifaces);
      assert m.payload[12..] == buf[pos + 28..end];
    }
  }

  lemma RouteStep(buf: seq<byte>, n: nat, pos: nat, want: uint32, f: Found, ifaces: Interfaces)
    requires pos + HDRLEN <= n <= |buf| && FrontFits(buf[pos..n]) && InBuffer(buf, f)
    requires Proper(FrontMsg(buf[pos..n]), want)
    ensures
      var r := TakeRoute(FrontMsg(buf[pos..n]), want, Read(buf, f), ifaces);
      var f1 := AfterRoute(buf, n, pos, want, f, ifaces);
      var w := WalkDatagram(buf, n, pos, want, f, ifaces);
      && (!r.Going? ==> SameEnd(buf, w, r))
      && (r.Going? ==> InBuffer(buf, f1) && Read(buf, f1) == r.fields
                       && w == WalkDatagram(buf, n, pos + Align4(MsgLength(buf[pos..n])), want, f1, ifaces))
  {
    hide WalkDatagram, OuterRound, TakeRoute, AfterRoute, Read, SameEnd, MsgLength, FrontMsg, InBuffer;
    WalkDatagramIs(buf, n, pos, want, f, ifaces);
    RoundReads(buf, n, pos, want, f, ifaces);
    LengthPositive(buf[pos..n]);
  }

  lemma LengthPositive(b: seq<byte>)
    requires |b| >= HDRLEN && FrontFits(b)
    ensures Align4(MsgLength(b)) >= HDRLEN
  {
  }

  // ---- What a dump says ----

  /** A message the walk passes over: another request's, another kind, or no default route of the main table. */
  predicate Skipped(m: Msg, want: uint32)
  {
    m.sequence == want ==>
      && m.kind != NLMSG_DONE && m.kind != NLMSG_ERROR
      && (m.kind == RTM_NEWROUTE ==> |m.payload| >= 12 && (m.payload[1] != 0 || m.payload[4] != RT_TABLE_MAIN))
  }

  /** A message that ends the walk or gets it stuck. */
  ghost predicate Ends(m: Msg, want: uint32, ifaces: Interfaces)
    requires Proper(m, want)
  {
    && m.sequence == want
    && (|| m.kind == NLMSG_DONE || m.kind == NLMSG_ERROR
        || (&& m.kind == RTM_NEWROUTE && m.payload[1] == 0 && m.payload[4] == RT_TABLE_MAIN
            && var attrs := WalkAttrs(m.payload[12..]);
            exists i :: 0 <= i < |attrs| && Unusable(attrs[i], ifaces)))
  }

  lemma GoesOnIff(m: Msg, want: uint32, f: Fields, ifaces: Interfaces)
    requires Proper(m, want)
    ensures TakeRoute(m, want, f, ifaces).Going? <==> !Ends(m, want, ifaces)
  {
    hide WalkAttrs, TakeAttrs, Unusable;
    if m.sequence == want && m.kind == RTM_NEWROUTE {
      StuckIff(WalkAttrs(m.payload[12..]), f, ifaces);
    }
  }

  /** A dump goes on past its messages exactly when none of them ends it. */
  lemma {:induction false} GoingIff(messages: seq<Msg>, want: uint32, f: Fields, ifaces: Interfaces)
    requires AllProper(messages, want)
    ensures
      TakeRoutes(messages, want, f, ifaces).Going?
      <==> forall i :: 0 <= i < |messages| ==> !Ends(messages[i], want, ifaces)
  {
    hide TakeRoute, Ends;
    if messages != [] {
      GoesOnIff(messages[0], want, f, ifaces);
      var r := TakeRoute(messages[0], want, f, ifaces);
      if r.Going? {
        GoingIff(messages[1..], want, r.fields, ifaces);
        assert forall i :: 1 <= i < |messages| ==> messages[i] == messages[1..][i - 1];
      }
    }
  }

  // ---- Which route the fields come from ----

  /** The value of the last attribute of this type. */
  function LastValue(attrs: seq<Attr>, kind: uint16): Option<seq<byte>>
  {
    if attrs == [] then None
    else
      var later := LastValue(attrs[1..], kind);
      if later.Some? then later else if attrs[0].kind == kind then Some(attrs[0].value) else None
  }

  predicate IsDefaultRoute(m: Msg, want: uint32)
  {
    && m.sequence == want && m.kind == RTM_NEWROUTE
    && |m.payload| >= 12 && m.payload[1] == 0 && m.payload[4] == RT_TABLE_MAIN
  }

  function ValueIn(m: Msg, want: uint32, kind: uint16): Option<seq<byte>>
  {
    if IsDefaultRoute(m, want) then LastValue(WalkAttrs(m.payload[12..]), kind) else None
  }

  /** The last default route that has an attribute of this type. */
  function Carrier(messages: seq<Msg>, want: uint32, kind: uint16): (i: Option<nat>)
    ensures i.Some? ==> i.value < |messages| && ValueIn(messages[i.value], want, kind).Some?
  {
    if messages == [] then None
    else if ValueIn(messages[|messages| - 1], want, kind).Some? then Some(|messages| - 1)
    else Carrier(messages[..|messages| - 1], want, kind)
  }

  function LookUp(value: seq<byte>, ifaces: Interfaces): Option<Interface>
  {
    if |value| < 4 || ReadNative32(value[0..4]) !in ifaces then None else Some(ifaces[ReadNative32(value[0..4])])
  }

  /** The fields, given the values that set them; without one a field stays as it was. */
  ghost predicate SetBy(g: Fields, f: Fields, gateway: Option<seq<byte>>, oif: Option<seq<byte>>, ifaces: Interfaces)
  {
    && g.gateway == (if gateway.Some? then gateway else f.gateway)
    && (oif.None? ==> g.index == f.index && g.name == f.name)
    && (oif.Some? ==> LookUp(oif.value, ifaces) == Some(Interface(g.index, g.name)))
  }

  lemma {:induction false} AttrsSet(attrs: seq<Attr>, f: Fields, ifaces: Interfaces)
    requires TakeAttrs(attrs, f, ifaces).Some?
    ensures SetBy(TakeAttrs(attrs, f, ifaces).value, f, LastValue(attrs, RTA_GATEWAY), LastValue(attrs, RTA_OIF),
            ifaces)
  {
    hide ReadNative32;
    if attrs != [] {
      AttrsSet(attrs[1..], TakeAttr(attrs[0], f, ifaces).value, ifaces);
    }
  }

  lemma {:induction false} TakeRoutesSnoc(messages: seq<Msg>, m: Msg, want: uint32, f: Fields, ifaces: Interfaces)
    requires AllProper(messages, want) && Proper(m, want)
    ensures AllProper(messages + [m], want)
    ensures
      var r := TakeRoutes(messages, want, f, ifaces);
      TakeRoutes(messages + [m], want, f, ifaces) == if r.Going? then TakeRoute(m, want, r.fields, ifaces) else r
  {
    hide TakeRoute;
    var all := messages + [m];
    if messages == [] {
      assert all == [m] && [m][1..] == [];
      assert TakeRoutes([m], want, f, ifaces) == TakeRoute(m, want, f, ifaces);
    } else {
      assert all[1..] == messages[1..] + [m] && all[0] == messages[0];
      var r := TakeRoute(messages[0], want, f, ifaces);
      if r.Going? {
        TakeRoutesSnoc(messages[1..], m, want, r.fields, ifaces);
      }
    }
  }

  lemma MessageSets(m: Msg, want: uint32, f: Fields, ifaces: Interfaces)
    requires Proper(m, want) && TakeRoute(m, want, f, ifaces).Going?
    ensures SetBy(TakeRoute(m, want, f, ifaces).fields, f, ValueIn(m, want, RTA_GATEWAY), ValueIn(m, want, RTA_OIF),
            ifaces)
  {
    hide WalkAttrs, TakeAttrs, LastValue, LookUp;
    if IsDefaultRoute(m, want) {
      AttrsSet(WalkAttrs(m.payload[12..]), f, ifaces);
    }
  }

  function Carried(messages: seq<Msg>, want: uint32, kind: uint16): Option<seq<byte>>
  {
    var i := Carrier(messages, want, kind);
    if i.Some? then ValueIn(messages[i.value], want, kind) else None
  }

  lemma CarriedSnoc(messages: seq<Msg>, m: Msg, want: uint32, kind: uint16)
    ensures
      Carried(messages + [m], want, kind)
      == if ValueIn(m, want, kind).Some? then ValueIn(m, want, kind) else Carried(messages, want, kind)
  {
    hide ValueIn;
    assert (messages + [m])[..|messages + [m]| - 1] == messages;
  }

  /** The gateway is that of the last default route with a gateway, the interface that of the last one with an
      interface: nothing ties the two to one route. */
  lemma {:induction false} FieldsComeFrom(messages: seq<Msg>, want: uint32, f: Fields, ifaces: Interfaces)
    requires AllProper(messages, want) && TakeRoutes(messages, want, f, ifaces).Going?
    ensures SetBy(TakeRoutes(messages, want, f, ifaces).fields, f,
                  Carried(messages, want, RTA_GATEWAY), Carried(messages, want, RTA_OIF), ifaces)
  {
    hide TakeRoute, LookUp, ValueIn;
    if messages != [] {
      var prefix, last := messages[..|messages| - 1], messages[|messages| - 1];
      assert messages == prefix + [last];
      TakeRoutesSnoc(prefix, last, want, f, ifaces);
      FieldsComeFrom(prefix, want, f, ifaces);
      MessageSets(last, want, TakeRoutes(prefix, want, f, ifaces).fields, ifaces);
      CarriedSnoc(prefix, last, want, RTA_GATEWAY);
      CarriedSnoc(prefix, last, want, RTA_OIF);
    }
  }

  /** When the two are one route, the answer is what that route says on its own. */
  lemma OneRouteAnswers(messages: seq<Msg>, want: uint32, ifaces: Interfaces, i: nat)
    requires AllProper(messages, want) && TakeRoutes(messages, want, Fields(None, 0, ""), ifaces).Going?
    requires Carrier(messages, want, RTA_GATEWAY) == Carrier(messages, want, RTA_OIF) == Some(i)
    requires TakeRoute(messages[i], want, Fields(None, 0, ""), ifaces).Going?
    ensures TakeRoutes(messages, want, Fields(None, 0, ""), ifaces) ==
            TakeRoute(messages[i], want, Fields(None, 0, ""), ifaces)
  {
    hide TakeRoute, TakeRoutes, LookUp, ValueIn;
    FieldsComeFrom(messages, want, Fields(None, 0, ""), ifaces);
    MessageSets(messages[i], want, Fields(None, 0, ""), ifaces);
  }

  // ---- Messages that carry one ----

  lemma RouteFits(flags: uint16, want: uint32, scope: byte, gateway: seq<byte>, ifIndex: int)
    requires 4 + |gateway| < TWO_16 && 0 < ifIndex < TWO_32
    ensures Sendable(Msg(RTM_NEWROUTE, flags, want, RouteHeader(0, scope)
            + PutAll([], RouteAttrs(0, None, Some(gateway), ifIndex))))
    ensures Sendable(Msg(NLMSG_DONE, flags, want, Zeros(4)))
  {
    hide PutAll, RouteAttrs, WalkAttrs;
    RoutePayloadWalks(0, scope, None, Some(gateway), ifIndex);
    RoutePayloadSize(scope, gateway, ifIndex);
  }

  lemma RoutePayloadSize(scope: byte, gateway: seq<byte>, ifIndex: int)
    requires 4 + |gateway| < TWO_16 && 0 < ifIndex < TWO_32
    ensures |PutAll([], RouteAttrs(0, None, Some(gateway), ifIndex))| <= TWO_16 + 8
  {
    var attrs := RouteAttrs(0, None, Some(gateway), ifIndex);
    assert attrs == [Attr(RTA_GATEWAY, gateway), Attr(RTA_OIF, LittleEndian(ifIndex, 4))];
    assert attrs[..1] == [Attr(RTA_GATEWAY, gateway)] && attrs[..1][..0] == [];
    assert PutAll([], attrs[..1][..0]) == [];
    assert PutAll([], attrs[..1]) == PutAttr([], RTA_GATEWAY, gateway);
    assert PutAll([], attrs) == PutAttr(PutAll([], attrs[..1]), RTA_OIF, LittleEndian(ifIndex, 4));
  }

  // ---- The two loops over one datagram ----

  /** The inner loop, over the receive buffer. A round that would leave every variable as it was reports Loops. */
  method ReadAttributes(buf: array<byte>, start: nat, end: nat, f: Found, ifaces: Interfaces) returns (w: Walk)
    ensures w == AttrLoop(buf[..], start, end, f, ifaces)
  {
    hide ReadNative16, ReadNative32, AttrLoop;
    ghost var s := buf[..];
    var pos, found := start, f;
    while pos + 4 <= end
      invariant AttrLoop(s, start, end, f, ifaces) == AttrLoop(s, pos, end, found, ifaces)
      decreases end - pos
    {
      AttrLoopIs(s, pos, end, found, ifaces);
      if pos + 4 > buf.Length {
        return Panics;
      }
      var length := ReadNative16(buf[..][pos..pos + 2]);
      var kind := ReadNative16(buf[..][pos + 2..pos + 4]);
      if length < 4 || pos + length > end {
        break;
      }
      if pos + length > buf.Length {
        return Panics;
      }
      var value := buf[..][pos + 4..pos + length];
      if kind == RTA_OIF {
        if |value| < 4 {
          return Loops;
        }
        var ifindex := ReadNative32(value[0..4]);
        if ifindex !in ifaces {
          return Loops;
        }
        found := found.(index := ifaces[ifindex].index, name := ifaces[ifindex].name);
      }
      if kind == RTA_GATEWAY {
        if |value| < 4 {
          return Loops;
        }
        found := found.(gateway := Some((pos + 4, pos + length)));
      }
      pos := pos + Align4(length);
    }
    AttrLoopIs(s, pos, end, found, ifaces);
    return More(found);
  }

  /** The loop over the messages of one received datagram. */
  method ReadRoutes(buf: array<byte>, n: nat, want: uint32, f: Found, ifaces: Interfaces) returns (w: Walk)
    requires n <= buf.Length
    ensures w == WalkDatagram(buf[..], n, 0, want, f, ifaces)
  {
    hide AttrLoop, ReadNative16, ReadNative32, WalkDatagram;
    ghost var s := buf[..];
    var pos, found := 0, f;
    while pos + HDRLEN <= n
      invariant WalkDatagram(s, n, 0, want, f, ifaces) == WalkDatagram(s, n, pos, want, found, ifaces)
      decreases n - pos
    {
      WalkDatagramIs(s, n, pos, want, found, ifaces);
      var length := ReadNative32(buf[..][pos..pos + 4]);
      var kind := ReadNative16(buf[..][pos + 4..pos + 6]);
      var sequence := ReadNative32(buf[..][pos + 8..pos + 12]);
      var next := pos + Align4(length);
      if sequence == want {
        if kind == NLMSG_DONE {
          return Complete(found);
        }
        if kind == NLMSG_ERROR {
          return Failed;
        }
        if kind == RTM_NEWROUTE {
          if pos + 20 >= buf.Length {
            return Panics;
          }
          if buf[pos + 17] == 0 && buf[pos + 20] == RT_TABLE_MAIN {
            var r := ReadAttributes(buf, pos + 28, pos + length, found, ifaces);
            if !r.More? {
              return r;
            }
            found := r.found;
          }
        }
      }
      if next == pos {
        return Loops;
      }
      pos := next;
    }
    WalkDatagramIs(s, n, pos, want, found, ifaces);
    return More(found);
  }
}
