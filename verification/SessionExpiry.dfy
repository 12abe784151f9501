/** When the server last heard of a peer, over whole schedules, and what expiry makes of it. */
module SessionExpiry {
  import opened Bytes
  import opened Codec
  import opened Aead
  import opened PacketCodec
  import opened PeerIndex
  import opened Addressing
  import opened ReplayWindow
  import opened Session
  import opened SessionInvariants
  import opened SessionSteps
  import opened SessionSafety
  import opened SessionWelcome
  import opened SessionProgress

  /** The server touches peer r in this step. */
  predicate Touches(s: State, step: Step, r: nat)
  {
    step == StepTouch && CanTouch(s) && s.udp.peer == r
  }

  /** The server registers peer r in this step. */
  predicate Registers(s: State, step: Step, r: nat)
  {
    Enabled(s, step) && |s.peers| == r && r < |Apply(s, step).peers|
  }

  /** Step i of the schedule touches or registers peer r. */
  predicate HeardAt(network: Network, steps: seq<Step>, i: nat, r: nat)
  {
    i < |steps| && Execute(network, steps[..i]).Some?
    && var b := Execute(network, steps[..i]).value;
    (Touches(b, steps[i], r) || Registers(b, steps[i], r))
  }

  /** The clock when step i was taken. */
  function ClockAt(network: Network, steps: seq<Step>, i: nat): int
    requires i <= |steps| && Execute(network, steps[..i]).Some?
  {
    Execute(network, steps[..i]).value.clock
  }

  /** What one step does to the clock and to peer r's lastSeen. */
  ghost predicate Ages(s: State, step: Step, t: State, r: nat)
  {
    && s.clock <= t.clock && |s.peers| <= |t.peers| <= |s.peers| + 1
    && (r < |s.peers| ==> t.peers[r].lastSeen == if Touches(s, step, r) then s.clock else s.peers[r].lastSeen)
    && (|s.peers| <= r < |t.peers| ==> t.peers[r].lastSeen == s.clock)
  }

  lemma HandshakeAges(s: State, step: Step, r: nat)
    requires Enabled(s, step) && OfHandshake(step)
    ensures Ages(s, step, Apply(s, step), r)
  {
    hide Advance, Allocate, EncodeHandshake, FreshServerRandom;
  }

  lemma TunAges(s: State, step: Step, r: nat)
    requires Enabled(s, step) && OfTun(step)
    ensures Ages(s, step, Apply(s, step), r)
  {
    hide EncodePacket, ExtractDst;
  }

  lemma OtherAges(s: State, step: Step, r: nat)
    requires Enabled(s, step) && !OfClient(step) && !OfHandshake(step) && !OfTun(step)
    ensures Ages(s, step, Apply(s, step), r)
  {
    hide DecodeAloha, DecodePacket, Advance, EncodeHandshake, PeekHeader, Remove, Insert;
  }

  lemma LinkAges(s: State, step: Step, r: nat)
    requires Enabled(s, step) && OfClient(step)
    ensures Ages(s, step, Apply(s, step), r)
  {
    hide DecodeWelcome, DecodePacket, Advance, EncodePacket;
  }

  lemma StepAges(s: State, step: Step, r: nat)
    requires Enabled(s, step)
    ensures Ages(s, step, Apply(s, step), r)
  {
    hide Enabled, Apply, Ages;
    if OfClient(step) {
      LinkAges(s, step, r);
    } else if OfHandshake(step) {
      HandshakeAges(s, step, r);
    } else if OfTun(step) {
      TunAges(s, step, r);
    } else {
      OtherAges(s, step, r);
    }
  }

  /** In every schedule, lastSeen is the clock of the last touch or of the registration, and none was later. */
  lemma {:induction false} LastSeenIsLastHeard(network: Network, steps: seq<Step>, s: State, r: nat) returns (i: nat)
    requires Execute(network, steps) == Some(s) && r < |s.peers|
    ensures s.peers[r].lastSeen <= s.clock && HeardAt(network, steps, i, r)
            && ClockAt(network, steps, i) == s.peers[r].lastSeen
    ensures forall j: nat :: HeardAt(network, steps, j, r) ==> ClockAt(network, steps, j) <= s.peers[r].lastSeen
  {
    hide Apply, Enabled, Touches;
    var n := |steps| - 1;
    var prefix, step := steps[..n], steps[n];
    var before := Execute(network, prefix).value;
    StepAges(before, step, r);
    if r < |before.peers| {
      i := LastSeenIsLastHeard(network, prefix, before, r);
      SameBefore(network, steps, n, i, r);
    }
    if r >= |before.peers| || Touches(before, step, r) {
      i := n;
    }
    forall j: nat | HeardAt(network, steps, j, r) ensures ClockAt(network, steps, j) <= s.peers[r].lastSeen {
      if j < n {
        SameBefore(network, steps, n, j, r);
        HeardOfKnown(network, prefix, before, j, r);
      }
    }
  }

  lemma SameBefore(network: Network, steps: seq<Step>, n: nat, j: nat, r: nat)
    requires j < n <= |steps|
    ensures HeardAt(network, steps[..n], j, r) == HeardAt(network, steps, j, r)
    ensures Execute(network, steps[..n][..j]) == Execute(network, steps[..j])
  {
    assert steps[..n][..j] == steps[..j];
  }

  /** Only registered peers are heard of. */
  lemma {:induction false} HeardOfKnown(network: Network, steps: seq<Step>, s: State, j: nat, r: nat)
    requires Execute(network, steps) == Some(s) && HeardAt(network, steps, j, r)
    ensures r < |s.peers|
  {
    hide Apply, Enabled;
    var n := |steps| - 1;
    var before := Execute(network, steps[..n]).value;
    StepAges(before, steps[n], r);
    if j < n {
      SameBefore(network, steps, n, j, r);
      HeardOfKnown(network, steps[..n], before, j, r);
    }
  }

  /** Over schedules: expiry keeps a live peer exactly when some touch, or its registration, is at most thirty
      seconds old. */
  lemma ExpiryOverRuns(network: Network, steps: seq<Step>, s: State, now: int, r: nat)
    requires Reaches(network, steps, s) && r < |s.peers| && IsLive(s.index, Infos(s), r)
    ensures
      IsLive(ExpirePeers(s, now).index, Infos(s), r)
      <==> exists i: nat :: HeardAt(network, steps, i, r) && now - ClockAt(network, steps, i) <= 30
  {
    hide Execute, HeardAt, InBounds;
    ExpiryIsExact(network, steps, s, now);
    var i := LastSeenIsLastHeard(network, steps, s, r);
  }

  /** An accepted message is not enough: the touch comes after the write to the TUN, and a tick in between takes a peer
      that was silent before. Its packet is delivered all the same. */
  lemma AcceptedCanExpire(network: Network, steps: seq<Step>, s: State, c: nat, payload: seq<byte>,
                          ciphertext: seq<byte>, clock: int) returns (longer: seq<Step>, t: State)
    requires Execute(network, steps) == Some(s) && Inv(s) && InBounds(s)
    requires s.udp == Reading && CanDrawTun(s, c, payload) && Tagged(payload, ciphertext)
    requires LinkOf(s, c).sends + 1 < TWO_64 && LinkOf(s, c).peerID in s.index.byID
    requires LinkOf(s, c).peerID <= |s.peers| && s.clock <= clock
    requires clock - s.peers[LinkOf(s, c).peerID - 1].lastSeen > PEER_TIMEOUT
    ensures steps <= longer && Execute(network, longer) == Some(t)
    ensures
      var r := LinkOf(s, c).peerID - 1;
      && |t.writes| == |s.writes| + 1 && t.writes[|s.writes|].peer == r && t.writes[|s.writes|].payload == payload
      && t.udp == Touching(r) && LinkOf(s, c).peerID !in t.index.byID
  {
    hide Execute, Inv, InBounds;
    var ticked := s.(clock := clock);
    OneMore(network, steps, s, StepTick(clock));
    TickKeeps(s, clock);
    BoundsOfTick(s, clock);
    LinkFacts(s, c);
    var most, u := DataArrives(network, steps + [StepTick(clock)], ticked, c, payload, ciphertext);
    t := ExpirePeers(u, clock);
    ExpiresNow(u, clock, LinkOf(s, c).peerID - 1);
    OneMore(network, most, u, StepExpire(clock));
    longer := most + [StepExpire(clock)];
  }

  lemma ExpiresNow(s: State, now: int, r: nat)
    requires r < |s.peers| && s.peers[r].id in s.index.byID && s.index.byID[s.peers[r].id] == r
    requires now - s.peers[r].lastSeen > PEER_TIMEOUT
    ensures s.peers[r].id !in ExpirePeers(s, now).index.byID
  {
    assert r in Expired(s, now);
    assert Infos(s)[r].id == s.peers[r].id;
  }

  lemma BoundsOfTick(s: State, clock: int)
    requires InBounds(s)
    ensures InBounds(s.(clock := clock))
  {
    forall c | HasLink(s.(clock := clock), c) ensures LinkOf(s, c).sends < TWO_64 {
      assert HasLink(s, c);
    }
  }
}
