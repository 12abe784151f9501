/** Which number a WELCOME carries, over whole schedules, and what follows for the client it is meant for. */
module SessionWelcome {
  import opened Bytes
  import opened Codec
  import opened Aead
  import opened PacketCodec
  import opened PeerIndex
  import opened Addressing
  import opened ReplayWindow
  import opened Session
  import opened SessionInvariants
  import opened SessionSafety
  import SessionProgress

  // ---- Draws along a schedule ----

  predicate DrawsDataFor(s: State, step: Step, r: nat)
  {
    step == StepDrawData && CanDrawData(s) && s.tun.peer == r
  }

  predicate NumbersWelcomeFor(s: State, step: Step, r: nat)
  {
    step == StepDrawWelcome && CanDrawWelcome(s) && s.udp.peer == r
  }

  /** Step j of the schedule is tunToUdp drawing a number for peer r. */
  predicate DataAt(network: Network, steps: seq<Step>, j: nat, r: nat)
  {
    j < |steps| && Execute(network, steps[..j]).Some? && DrawsDataFor(Execute(network, steps[..j]).value, steps[j], r)
  }

  /** Step i of the schedule is handleAloha numbering the WELCOME of peer r. */
  predicate WelcomeAt(network: Network, steps: seq<Step>, i: nat, r: nat)
  {
    i < |steps| && Execute(network, steps[..i]).Some?
      && NumbersWelcomeFor(Execute(network, steps[..i]).value, steps[i], r)
  }

  /** How many numbers tunToUdp draws for peer r. */
  function DataDraws(network: Network, steps: seq<Step>, r: nat): nat
  {
    if steps == [] then 0
    else DataDraws(network, steps[..|steps| - 1], r) + (if DataAt(network, steps, |steps| - 1, r) then 1 else 0)
  }

  /** The last step that numbers a WELCOME of peer r. */
  function WelcomeIndex(network: Network, steps: seq<Step>, r: nat): (i: Option<nat>)
    ensures i.Some? ==> i.value < |steps|
  {
    if steps == [] then None
    else if WelcomeAt(network, steps, |steps| - 1, r) then Some(|steps| - 1)
    else WelcomeIndex(network, steps[..|steps| - 1], r)
  }

  /** One more than the DATA numbers drawn before it. */
  function WelcomeNumber(network: Network, steps: seq<Step>, r: nat): nat
    requires WelcomeIndex(network, steps, r).Some?
  {
    1 + DataDraws(network, steps[..WelcomeIndex(network, steps, r).value], r)
  }

  lemma DrawsUnfold(network: Network, steps: seq<Step>, s: State, step: Step, r: nat)
    requires Execute(network, steps) == Some(s)
    ensures DataDraws(network, steps + [step], r) == DataDraws(network, steps, r)
            + (if DrawsDataFor(s, step, r) then 1 else 0)
    ensures WelcomeIndex(network, steps + [step], r)
            == if NumbersWelcomeFor(s, step, r) then Some(|steps|) else WelcomeIndex(network, steps, r)
    ensures NumbersWelcomeFor(s, step, r) ==>
              WelcomeNumber(network, steps + [step], r) == 1 + DataDraws(network, steps, r)
    ensures !NumbersWelcomeFor(s, step, r) && WelcomeIndex(network, steps, r).Some? ==>
              WelcomeNumber(network, steps + [step], r) == WelcomeNumber(network, steps, r)
  {
    hide Execute, DrawsDataFor, NumbersWelcomeFor;
    var all := steps + [step];
    assert all[..|all| - 1] == steps && all[..|steps|] == steps;
    if WelcomeIndex(network, steps, r).Some? {
      var i := WelcomeIndex(network, steps, r).value;
      assert all[..i] == steps[..i];
    }
  }

  // ---- The ledger ----

  /** The handshake of peer r is on its way, its WELCOME not numbered yet. */
  predicate Unnumbered(u: UdpLoop, r: nat)
  {
    (u.Registered? || u.HelloAccepted? || u.Keyed? || u.Routable?) && u.peer == r
  }

  /** Every WELCOME record of peer r carries this number. */
  ghost predicate WelcomesCarry(s: State, r: nat, number: Option<nat>)
  {
    forall k :: 0 <= k < |s.origins| && s.origins[k].owner == ByPeer(r) && s.origins[k].kind == WELCOME ==>
      number == Some(s.origins[k].sequence as nat)
  }

  /** The state after a schedule, against what the schedule drew. */
  ghost predicate Ledger(network: Network, steps: seq<Step>, s: State, r: nat)
  {
    var i := WelcomeIndex(network, steps, r);
    && (r < |s.peers| ==> s.peers[r].sends == DataDraws(network, steps, r) + (if i.Some? then 1 else 0))
    && (r >= |s.peers| ==> DataDraws(network, steps, r) == 0 && i.None?)
    && (Unnumbered(s.udp, r) ==> i.None?)
    && (s.udp.WelcomeDrawn? && s.udp.peer == r ==> i.Some? && s.udp.sequence == WelcomeNumber(network, steps, r))
    && WelcomesCarry(s, r, if i.Some? then Some(WelcomeNumber(network, steps, r)) else None)
  }

  /** What one step does to peer r's counter, to its place in the handshake and to its WELCOME records. */
  ghost predicate Moves(s: State, step: Step, t: State, r: nat)
  {
    && |s.peers| <= |t.peers|
    && (r < |s.peers| ==>
          t.peers[r].sends == s.peers[r].sends
            + (if DrawsDataFor(s, step, r) || NumbersWelcomeFor(s, step, r) then 1 else 0))
    && (|s.peers| <= r ==>
          && !DrawsDataFor(s, step, r) && !NumbersWelcomeFor(s, step, r)
          && (r < |t.peers| ==> t.peers[r].sends == 0))
    && (NumbersWelcomeFor(s, step, r) ==> Unnumbered(s.udp, r) && !DrawsDataFor(s, step, r))
    && (Unnumbered(t.udp, r) ==> !NumbersWelcomeFor(s, step, r) && (Unnumbered(s.udp, r) || r >= |s.peers|))
    && (t.udp.WelcomeDrawn? && t.udp.peer == r ==>
          if NumbersWelcomeFor(s, step, r) then r < |s.peers|
            && t.udp.sequence == Counter(s.peers[r].sends + 1) else s.udp == t.udp)
    && (t.origins == s.origins
        || (&& |t.origins| == |s.origins| + 1 && t.origins[..|s.origins|] == s.origins && !NumbersWelcomeFor(s, step, r)
            && var o := t.origins[|s.origins|];
            && (o.owner == ByPeer(r) && o.kind == WELCOME ==>
                  s.udp.WelcomeDrawn? && s.udp.peer == r && o.sequence == s.udp.sequence)))
  }

  predicate OfHandshake(step: Step)
  {
    step.StepAcceptHello? || step.StepSetCipher? || step.StepRoutePeer? || step.StepDrawWelcome?
      || step.StepSendWelcome?
  }

  predicate OfTun(step: Step)
  {
    step.StepReadTun? || step.StepDrawData? || step.StepSendData? || step.StepTunFail?
  }

  lemma HandshakeMoves(s: State, step: Step, r: nat)
    requires Enabled(s, step) && OfHandshake(step)
    ensures Moves(s, step, Apply(s, step), r)
  {
    hide Advance, Allocate, EncodeHandshake, FreshServerRandom;
  }

  lemma TunLoopMoves(s: State, step: Step, r: nat)
    requires Enabled(s, step) && OfTun(step)
    ensures Moves(s, step, Apply(s, step), r)
  {
    hide EncodePacket, ExtractDst;
  }

  lemma ServerMoves(s: State, step: Step, r: nat)
    requires Enabled(s, step) && !OfClient(step)
    ensures Moves(s, step, Apply(s, step), r)
  {
    hide Enabled, Apply, Moves;
    if OfHandshake(step) {
      HandshakeMoves(s, step, r);
    } else if OfTun(step) {
      TunLoopMoves(s, step, r);
    } else {
      OtherMoves(s, step, r);
    }
  }

  lemma OtherMoves(s: State, step: Step, r: nat)
    requires Enabled(s, step) && !OfClient(step) && !OfHandshake(step) && !OfTun(step)
    ensures Moves(s, step, Apply(s, step), r)
  {
    hide DecodeAloha, DecodePacket, Advance, EncodeHandshake, PeekHeader, Remove, Insert;
  }

  lemma LinkMoves(s: State, step: Step, r: nat)
    requires Enabled(s, step) && OfClient(step)
    ensures Moves(s, step, Apply(s, step), r)
  {
    hide DecodeWelcome, DecodePacket, Advance, EncodePacket;
  }

  lemma LedgerKeeps(network: Network, steps: seq<Step>, s: State, step: Step, r: nat)
    requires Execute(network, steps) == Some(s) && Enabled(s, step) && InBounds(Apply(s, step))
    requires Ledger(network, steps, s, r)
    ensures Ledger(network, steps + [step], Apply(s, step), r)
  {
    hide Execute, Enabled, Apply, DrawsDataFor, NumbersWelcomeFor, DataDraws, WelcomeIndex, WelcomeNumber, Unnumbered;
    var t := Apply(s, step);
    if OfClient(step) {
      LinkMoves(s, step, r);
    } else {
      ServerMoves(s, step, r);
    }
    DrawsUnfold(network, steps, s, step, r);
  }

  lemma {:induction false} LedgerHolds(network: Network, steps: seq<Step>, s: State, r: nat)
    requires Reaches(network, steps, s)
    ensures Ledger(network, steps, s, r)
  {
    hide InBounds, Apply, Enabled, Ledger;
    if steps == [] {
      LedgerStarts(network, r);
    } else {
      var prefix, step := steps[..|steps| - 1], steps[|steps| - 1];
      var before := Execute(network, prefix).value;
      BoundsShrink(before, step);
      LedgerHolds(network, prefix, before, r);
      LedgerKeeps(network, prefix, before, step, r);
      assert steps == prefix + [step];
    }
  }

  lemma LedgerStarts(network: Network, r: nat)
    ensures Ledger(network, [], Init(network), r)
  {
  }

  // ---- Back to the schedule ----

  lemma {:induction false} DrawsCounted(network: Network, steps: seq<Step>, i: nat, r: nat)
    requires i <= |steps|
    ensures DataDraws(network, steps[..i], r) == 0 <==> forall j :: 0 <= j < i ==> !DataAt(network, steps, j, r)
  {
    hide Execute, DrawsDataFor;
    if i > 0 {
      DrawsCounted(network, steps, i - 1, r);
      assert steps[..i][..i - 1] == steps[..i - 1];
      assert DataAt(network, steps[..i], i - 1, r) <==> DataAt(network, steps, i - 1, r);
    }
  }

  lemma {:induction false} IndexIsWelcome(network: Network, steps: seq<Step>, r: nat)
    requires WelcomeIndex(network, steps, r).Some?
    ensures WelcomeAt(network, steps, WelcomeIndex(network, steps, r).value, r)
  {
    hide Execute, NumbersWelcomeFor;
    if !WelcomeAt(network, steps, |steps| - 1, r) {
      var prefix := steps[..|steps| - 1];
      IndexIsWelcome(network, prefix, r);
      var i := WelcomeIndex(network, prefix, r).value;
      assert prefix[..i] == steps[..i];
    }
  }

  lemma NumberedFromUnnumbered(s: State, step: Step, r: nat)
    requires NumbersWelcomeFor(s, step, r)
    ensures Unnumbered(s.udp, r)
  {
  }

  /** A run numbers at most one WELCOME for each peer. */
  lemma {:induction false} WelcomeOnce(network: Network, steps: seq<Step>, s: State, i: nat, r: nat)
    requires Reaches(network, steps, s) && WelcomeAt(network, steps, i, r)
    ensures WelcomeIndex(network, steps, r) == Some(i)
  {
    hide Apply, Enabled, InBounds, NumbersWelcomeFor;
    if i < |steps| - 1 {
      var prefix, step := steps[..|steps| - 1], steps[|steps| - 1];
      var before := Execute(network, prefix).value;
      BoundsShrink(before, step);
      assert prefix[..i] == steps[..i];
      WelcomeOnce(network, prefix, before, i, r);
      LedgerHolds(network, prefix, before, r);
      if NumbersWelcomeFor(before, step, r) {
        NumberedFromUnnumbered(before, step, r);
      }
    }
  }

  // ---- The number of a WELCOME ----

  /** In every run that has drawn a WELCOME's number, there is exactly one step that drew it. The number is one more
      than the DATA numbers drawn for that peer before; it is 1 exactly when there was none. */
  lemma WelcomeNumberIsExact(network: Network, steps: seq<Step>, s: State) returns (i: nat)
    requires Reaches(network, steps, s) && s.udp.WelcomeDrawn?
    ensures forall k: nat :: WelcomeAt(network, steps, k, s.udp.peer) <==> k == i
    ensures i < |steps| && s.udp.sequence == 1 + DataDraws(network, steps[..i], s.udp.peer)
    ensures s.udp.sequence == 1 <==> forall j :: 0 <= j < i ==> !DataAt(network, steps, j, s.udp.peer)
  {
    hide Execute, WelcomeAt, DataAt, Reaches;
    var r := s.udp.peer;
    LedgerHolds(network, steps, s, r);
    i := WelcomeIndex(network, steps, r).value;
    IndexIsWelcome(network, steps, r);
    DrawsCounted(network, steps, i, r);
    forall k: nat | WelcomeAt(network, steps, k, r) ensures k == i {
      WelcomeOnce(network, steps, s, k, r);
    }
  }

  /** The same before the draw, as the server could check it: the WELCOME of a routable peer gets number 1 exactly when
      the peer's counter still is 0, which is when no DATA number has been drawn for it. */
  lemma WelcomeGuard(network: Network, steps: seq<Step>, s: State)
    requires Reaches(network, steps, s) && CanDrawWelcome(s) && InBounds(DrawWelcome(s))
    ensures DrawWelcome(s).udp.sequence == 1 <==> s.peers[s.udp.peer].sends == 0
    ensures s.peers[s.udp.peer].sends == 0 <==> forall j :: 0 <= j < |steps| ==> !DataAt(network, steps, j, s.udp.peer)
  {
    hide Execute, DataAt;
    var r := s.udp.peer;
    LedgerHolds(network, steps, s, r);
    DrawsCounted(network, steps, |steps|, r);
    assert steps[..|steps|] == steps;
    assert s.peers[r].sends + 1 == DrawWelcome(s).peers[r].sends < TWO_64;
  }

  /** In every run a peer has at most one WELCOME record. */
  lemma OneWelcomePerPeer(network: Network, steps: seq<Step>, s: State, r: nat, k: nat, l: nat)
    requires Reaches(network, steps, s) && k < |s.origins| && l < |s.origins|
    requires s.origins[k].owner == s.origins[l].owner == ByPeer(r) && s.origins[k].kind == s.origins[l].kind == WELCOME
    ensures k == l
  {
    hide Reaches, WelcomeIndex, WelcomeNumber, DataDraws;
    LedgerHolds(network, steps, s, r);
    DistinctDraws(network, steps, s);
  }

  lemma DistinctDraws(network: Network, steps: seq<Step>, s: State)
    requires Reaches(network, steps, s)
    ensures forall i, j :: 0 <= i < j < |s.origins| && s.origins[i].owner == s.origins[j].owner ==>
              s.origins[i].sequence != s.origins[j].sequence
  {
    hide PeersOk, IndexOk, LogOk, ClientsOk, WritesOk, UdpOk, TunOk, Reaches;
    RunKeeps(network, steps, s);
  }

  // ---- What the client makes of it ----

  /** The WELCOME a client opens is the record its peer sealed under that number. */
  lemma WelcomeHasRecord(s: State, c: nat, packet: seq<byte>)
    requires LogOk(s) && DrawsOk(s) && ClientsOk(s) && PeersOk(s) && c < |s.clients|
    requires DecodeWelcome(s.log, packet, s.clients[c].random).Ok?
    ensures
      var h := DecodeWelcome(s.log, packet, s.clients[c].random).value.0.header;
      && h.peerID >= 1
      && exists k :: 0 <= k < |s.origins| && s.origins[k] == Origin(ByPeer(h.peerID - 1), h.sequence, WELCOME)
  {
    var random := s.clients[c].random;
    var (m, serverRandom) := DecodeWelcome(s.log, packet, random).value;
    var key := WelcomeKey(random, serverRandom);
    OpenedWasSealed(s.log, key, ServerToClient, packet);
    var i := HandshakeSource(s.log, key, ServerToClient, packet).value;
    var o := s.origins[i];
    assert RecordFits(s, s.log[i], o);
    NonceInjective(ServerToClient, m.header.sequence, ClientToServer, o.sequence);
    NonceInjective(ServerToClient, m.header.sequence, ServerToClient, o.sequence);
    PeerAt(s, o.owner.peer);
    var p := s.peers[o.owner.peer];
    KeyKindsDisjoint(p.id, p.clientRandom, p.serverRandom.value, random, serverRandom, random);
    PeekReads(Header(PROTOCOL_VERSION, WELCOME, 0, 0, p.id, o.sequence), p.serverRandom.value);
    PeekReads(m.header, RandomOf(packet));
    assert s.origins[i] == Origin(ByPeer(m.header.peerID - 1), m.header.sequence, WELCOME);
  }

  ghost predicate WelcomedFirst(s: State, peerID: uint64)
  {
    peerID >= 1 && exists k :: 0 <= k < |s.origins| && s.origins[k] == Origin(ByPeer(peerID - 1), 1, WELCOME)
  }

  /** In every run, the peer of an established client has sealed a WELCOME with number 1. */
  lemma {:induction false} EstablishedWasWelcomed(network: Network, steps: seq<Step>, s: State, c: nat)
    requires Reaches(network, steps, s) && HasLink(s, c)
    ensures WelcomedFirst(s, LinkOf(s, c).peerID)
  {
    hide Apply, Enabled, InBounds, WelcomedFirst;
    if steps != [] {
      var prefix, step := steps[..|steps| - 1], steps[|steps| - 1];
      var before := Execute(network, prefix).value;
      BoundsShrink(before, step);
      RunKeeps(network, prefix, before);
      if HasLink(before, c) {
        EstablishedWasWelcomed(network, prefix, before, c);
        LinkStays(before, step, c);
      } else {
        LinkBegins(before, step, c);
      }
    }
  }

  lemma LinkStays(s: State, step: Step, c: nat)
    requires Enabled(s, step) && HasLink(s, c) && WelcomedFirst(s, LinkOf(s, c).peerID)
    ensures HasLink(Apply(s, step), c) && WelcomedFirst(Apply(s, step), LinkOf(s, c).peerID)
    ensures LinkOf(Apply(s, step), c).peerID == LinkOf(s, c).peerID
  {
    hide WelcomedFirst;
    OriginsGrow(s, step, c);
    RecordsStay(s, Apply(s, step), LinkOf(s, c).peerID);
  }

  lemma RecordsStay(s: State, t: State, peerID: uint64)
    requires s.origins <= t.origins && WelcomedFirst(s, peerID)
    ensures WelcomedFirst(t, peerID)
  {
    var k :| 0 <= k < |s.origins| && s.origins[k] == Origin(ByPeer(peerID - 1), 1, WELCOME);
    assert t.origins[k] == s.origins[k];
  }

  lemma OriginsGrow(s: State, step: Step, c: nat)
    requires Enabled(s, step) && HasLink(s, c)
    ensures s.origins <= Apply(s, step).origins && HasLink(Apply(s, step), c)
    ensures LinkOf(Apply(s, step), c).peerID == LinkOf(s, c).peerID
  {
    hide Moves;
    if OfClient(step) {
      LinkMoves(s, step, 0);
      SameIDForClient(s, step, c);
    } else {
      ServerMoves(s, step, 0);
      SameIDForServer(s, step, c);
    }
    OriginsOfMoves(s, step, Apply(s, step));
  }

  lemma OriginsOfMoves(s: State, step: Step, t: State)
    requires Moves(s, step, t, 0)
    ensures s.origins <= t.origins
  {
  }

  lemma SameIDForClient(s: State, step: Step, c: nat)
    requires Enabled(s, step) && OfClient(step) && HasLink(s, c)
    ensures HasLink(Apply(s, step), c) && LinkOf(Apply(s, step), c).peerID == LinkOf(s, c).peerID
  {
    hide DecodeWelcome, DecodePacket, Advance, EncodePacket;
  }

  lemma SameIDForServer(s: State, step: Step, c: nat)
    requires Enabled(s, step) && !OfClient(step) && HasLink(s, c)
    ensures HasLink(Apply(s, step), c) && LinkOf(Apply(s, step), c) == LinkOf(s, c)
  {
    hide DecodeAloha, DecodePacket, Advance, Allocate, EncodeHandshake, EncodePacket, ExtractDst, PeekHeader,
         Remove, Insert;
  }

  lemma LinkBegins(s: State, step: Step, c: nat)
    requires Inv(s) && Enabled(s, step) && !HasLink(s, c) && HasLink(Apply(s, step), c)
    ensures WelcomedFirst(Apply(s, step), LinkOf(Apply(s, step), c).peerID)
  {
    hide Inv, WelcomedFirst;
    BeginsByFinishing(s, step, c);
    var t := Apply(s, step);
    FinishedOnOne(s, c, step.packet);
    RecordsStay(s, t, LinkOf(t, c).peerID);
  }

  lemma BeginsByFinishing(s: State, step: Step, c: nat)
    requires Enabled(s, step) && !HasLink(s, c) && HasLink(Apply(s, step), c)
    ensures step.StepFinishHandshake? && step.client == c
  {
    hide DecodeAloha, DecodeWelcome, DecodePacket, Advance, Allocate, EncodeHandshake, EncodePacket, ExtractDst,
         PeekHeader, Remove, Insert;
  }

  lemma FinishedOnOne(s: State, c: nat, packet: seq<byte>)
    requires Inv(s) && CanFinishHandshake(s, c) && HasLink(FinishHandshake(s, c, packet), c)
    ensures FinishHandshake(s, c, packet).origins == s.origins
    ensures WelcomedFirst(s, LinkOf(FinishHandshake(s, c, packet), c).peerID)
  {
    hide PeersOk, IndexOk, DrawsOk, LogOk, ClientsOk, WritesOk, UdpOk, TunOk, DecodeWelcome;
    WelcomeHasRecord(s, c, packet);
  }

  /** A client that opens a genuine WELCOME finishes its handshake exactly when no DATA number was drawn for that peer
      before the one step that numbered the WELCOME. */
  lemma GenuineWelcomeAcceptedIff(network: Network, steps: seq<Step>, s: State, c: nat, packet: seq<byte>)
    returns (i: nat)
    requires Reaches(network, steps, s) && CanFinishHandshake(s, c)
    requires DecodeWelcome(s.log, packet, s.clients[c].random).Ok?
    ensures DecodeWelcome(s.log, packet, s.clients[c].random).value.0.header.peerID >= 1
    ensures
      var r := DecodeWelcome(s.log, packet, s.clients[c].random).value.0.header.peerID - 1;
      && (forall k: nat :: WelcomeAt(network, steps, k, r) <==> k == i)
      && (HasLink(FinishHandshake(s, c, packet), c) <==> forall j :: 0 <= j < i ==> !DataAt(network, steps, j, r))
  {
    hide Execute, WelcomeAt, DataAt, Reaches, Inv, DecodeWelcome, FinishHandshake;
    RunKeeps(network, steps, s);
    OpenedHasRecord(s, c, packet);
    SessionProgress.WelcomeNeedsSequenceOne(s, c, packet);
    var h := DecodeWelcome(s.log, packet, s.clients[c].random).value.0.header;
    var r := h.peerID - 1;
    var k :| 0 <= k < |s.origins| && s.origins[k] == Origin(ByPeer(r), h.sequence, WELCOME);
    LedgerHolds(network, steps, s, r);
    i := WelcomeIndex(network, steps, r).value;
    IndexIsWelcome(network, steps, r);
    DrawsCounted(network, steps, i, r);
    forall l: nat | WelcomeAt(network, steps, l, r) ensures l == i {
      WelcomeOnce(network, steps, s, l, r);
    }
  }

  lemma OpenedHasRecord(s: State, c: nat, packet: seq<byte>)
    requires Inv(s) && c < |s.clients| && DecodeWelcome(s.log, packet, s.clients[c].random).Ok?
    ensures
      var h := DecodeWelcome(s.log, packet, s.clients[c].random).value.0.header;
      && h.peerID >= 1
      && exists k :: 0 <= k < |s.origins| && s.origins[k] == Origin(ByPeer(h.peerID - 1), h.sequence, WELCOME)
  {
    hide PeersOk, IndexOk, DrawsOk, LogOk, ClientsOk, WritesOk, UdpOk, TunOk, DecodeWelcome;
    WelcomeHasRecord(s, c, packet);
  }

  /** A peer overtaken once is lost for good: no run in which a DATA number is drawn for it before its WELCOME is
      numbered ever gives it a client, however the run goes on. */
  lemma OvertakenIsLockedOut(network: Network, steps: seq<Step>, s: State, j: nat, i: nat, r: nat, c: nat)
    requires Reaches(network, steps, s) && j < i && DataAt(network, steps, j, r) && WelcomeAt(network, steps, i, r)
    ensures !SameSession(s, c, r)
  {
    hide Execute, WelcomeAt, DataAt, Reaches, Inv;
    if SameSession(s, c, r) {
      RunKeeps(network, steps, s);
      PeerHasID(s, r);
      EstablishedWasWelcomed(network, steps, s, c);
      LedgerHolds(network, steps, s, r);
      WelcomeOnce(network, steps, s, i, r);
      DrawsCounted(network, steps, i, r);
    }
  }

  lemma PeerHasID(s: State, r: nat)
    requires Inv(s) && r < |s.peers|
    ensures s.peers[r].id == r + 1
  {
    hide PeersOk, IndexOk, DrawsOk, LogOk, ClientsOk, WritesOk, UdpOk, TunOk;
    PeerAt(s, r);
  }
}
