/** From TUN to TUN, over whole schedules: which read a sealed or delivered payload comes from, which datagram a write
    comes from, and when a loop ends. */
module SessionTraces {
  import opened Bytes
  import opened Codec
  import opened Aead
  import opened PacketCodec
  import opened PeerIndex
  import opened Addressing
  import opened ReplayWindow
  import opened Session
  import opened SessionSafety
  import opened SessionWelcome

  // ---- What one step does to the packets on their way ----

  /** The loop holds an inner packet. */
  predicate Holds(l: TunLoop)
  {
    l.TunFound? || l.TunDrawn?
  }

  predicate Draws(s: State, c: nat)
  {
    HasLink(s, c) && LinkOf(s, c).tun.Some? && |LinkOf(s, c).tun.value.payload| <= MAX_PAYLOAD
  }

  /** A held packet was read in this step or held before; it is gone once sealed. */
  ghost predicate Reading(s: State, step: Step, t: State)
  {
    Holds(t.tun) ==>
      if step.StepReadTun? then step.packet == t.tun.packet
      else !step.StepSendData? && Holds(s.tun) && s.tun.packet == t.tun.packet
  }

  /** The same for the send loop of client c. */
  ghost predicate Drawing(s: State, step: Step, t: State, c: nat)
  {
    Draws(t, c) ==>
      if step.StepDrawTun? && step.client == c then step.packet == LinkOf(t, c).tun.value.payload
      else !(step.StepSendTun? && step.client == c) && Draws(s, c) && LinkOf(s, c).tun == LinkOf(t, c).tun
  }

  /** A new record holds the packet that its loop held. */
  ghost predicate Sealing(s: State, step: Step, x: Sealed, o: Origin)
  {
    o.kind == DATA ==>
      match o.owner
      case ByPeer(r) => step.StepSendData? && Holds(s.tun) && s.tun.peer == r && x.plain == s.tun.packet
      case ByClient(c) =>
        step.StepSendTun? && step.client == c && Draws(s, c) && x.plain == LinkOf(s, c).tun.value.payload
  }

  ghost predicate Records(s: State, step: Step, t: State)
  {
    || (t.log == s.log && t.origins == s.origins)
    || (|t.log| == |s.log| + 1 && |t.origins| == |s.origins| + 1 && s.log <= t.log && s.origins <= t.origins
        && Sealing(s, step, t.log[|s.log|], t.origins[|s.origins|]))
  }

  ghost predicate Passes(s: State, step: Step, t: State, c: nat)
  {
    Reading(s, step, t) && Drawing(s, step, t, c) && Records(s, step, t)
  }

  lemma HandshakePasses(s: State, step: Step, c: nat)
    requires Enabled(s, step) && OfHandshake(step)
    ensures Passes(s, step, Apply(s, step), c)
  {
    hide Advance, Allocate, EncodeHandshake, FreshServerRandom;
  }

  lemma EncodedPlain(key: Key, d: Direction, m: Message, ciphertext: seq<byte>)
    ensures EncodePacket(key, d, m, ciphertext).Ok? <==> ValidType(m.header.kind) && |m.payload| <= MAX_PAYLOAD
    ensures EncodePacket(key, d, m, ciphertext).Ok? ==> EncodePacket(key, d, m, ciphertext).value.plain == m.payload
  {
    if EncodePacket(key, d, m, ciphertext).Ok? {
      assert Encode(m).value[HEADER_LEN..] == m.payload;
    }
  }

  lemma TunPasses(s: State, step: Step, c: nat)
    requires Enabled(s, step) && OfTun(step)
    ensures Passes(s, step, Apply(s, step), c)
  {
    hide EncodePacket, ExtractDst;
    if step.StepSendData? && s.peers[s.tun.peer].cipher.Some? {
      EncodedPlain(s.peers[s.tun.peer].cipher.value, ServerToClient,
        MessageOf(DATA, s.peers[s.tun.peer].id, s.tun.sequence, s.tun.packet), step.ciphertext);
    }
  }

  lemma OtherPasses(s: State, step: Step, c: nat)
    requires Enabled(s, step) && !OfClient(step) && !OfHandshake(step) && !OfTun(step)
    ensures Passes(s, step, Apply(s, step), c)
  {
    hide DecodeAloha, DecodePacket, Advance, EncodeHandshake, PeekHeader, Remove, Insert;
  }

  lemma LinkPasses(s: State, step: Step, c: nat)
    requires Enabled(s, step) && OfClient(step)
    ensures Passes(s, step, Apply(s, step), c)
  {
    hide DecodeWelcome, DecodePacket, Advance, EncodePacket;
    if step.StepSendTun? {
      var link := LinkOf(s, step.client);
      EncodedPlain(link.key, ClientToServer,
        MessageOf(DATA, link.peerID, link.tun.value.sequence, link.tun.value.payload), step.ciphertext);
    }
  }

  lemma StepPasses(s: State, step: Step, c: nat)
    requires Enabled(s, step)
    ensures Passes(s, step, Apply(s, step), c)
  {
    hide Enabled, Apply, Passes;
    if OfClient(step) {
      LinkPasses(s, step, c);
    } else if OfHandshake(step) {
      HandshakePasses(s, step, c);
    } else if OfTun(step) {
      TunPasses(s, step, c);
    } else {
      OtherPasses(s, step, c);
    }
  }

  // ---- Server TUN to sealed packet ----

  /** The last read of the server's TUN in a schedule. */
  function LastRead(steps: seq<Step>): (j: Option<nat>)
    ensures j.Some? ==> j.value < |steps| && steps[j.value].StepReadTun?
    ensures j.Some? ==> forall m :: j.value < m < |steps| ==> !steps[m].StepReadTun?
  {
    if steps == [] then None
    else if steps[|steps| - 1].StepReadTun? then Some(|steps| - 1)
    else LastRead(steps[..|steps| - 1])
  }

  /** The packet in hand is the one read last, and nothing has been sealed for DATA since. */
  lemma {:induction false} HeldWasRead(network: Network, steps: seq<Step>, s: State)
    requires Execute(network, steps) == Some(s) && Holds(s.tun)
    ensures LastRead(steps).Some? && steps[LastRead(steps).value].packet == s.tun.packet
    ensures forall m :: LastRead(steps).value < m < |steps| ==> !steps[m].StepSendData?
  {
    hide Apply, Enabled, Drawing, Records;
    var prefix, step := steps[..|steps| - 1], steps[|steps| - 1];
    var before := Execute(network, prefix).value;
    StepPasses(before, step, 0);
    if !step.StepReadTun? {
      HeldWasRead(network, prefix, before);
      var j := LastRead(prefix).value;
      assert steps[j] == prefix[j];
      forall m | j < m < |steps| ensures !steps[m].StepSendData? {
        assert m < |prefix| ==> steps[m] == prefix[m];
      }
    }
  }

  /** Step k of the schedule appends record i. */
  predicate SealsAt(network: Network, steps: seq<Step>, k: nat, i: nat)
  {
    k < |steps| && Execute(network, steps[..k]).Some? && |Execute(network, steps[..k]).value.log| == i
  }

  lemma {:induction false} SameLengths(network: Network, steps: seq<Step>, s: State)
    requires Execute(network, steps) == Some(s)
    ensures |s.log| == |s.origins|
  {
    hide Apply, Enabled, Drawing, Reading, Sealing;
    if steps != [] {
      var before := Execute(network, steps[..|steps| - 1]).value;
      SameLengths(network, steps[..|steps| - 1], before);
      StepPasses(before, steps[|steps| - 1], 0);
    }
  }

  lemma SealsEarlier(network: Network, steps: seq<Step>, n: nat, k: nat, i: nat)
    requires n <= |steps| && SealsAt(network, steps[..n], k, i)
    ensures SealsAt(network, steps, k, i) && steps[..n][..k] == steps[..k] && steps[..n][k] == steps[k]
  {
    assert steps[..n][..k] == steps[..k];
  }

  /** Every DATA packet of the server holds, whole, the packet of the last read of its TUN before it was sealed, and
      nothing else was sealed for DATA in between. */
  lemma {:induction false} SealedWasRead(network: Network, steps: seq<Step>, s: State, i: nat) returns (k: nat)
    requires Execute(network, steps) == Some(s) && i < |s.log| && i < |s.origins|
    requires s.origins[i].owner.ByPeer? && s.origins[i].kind == DATA
    ensures SealsAt(network, steps, k, i) && steps[k].StepSendData?
    ensures LastRead(steps[..k]).Some?
    ensures
      var j := LastRead(steps[..k]).value;
      steps[j] == StepReadTun(s.log[i].plain) && forall m :: j < m < k ==> !steps[m].StepSendData?
  {
    hide Apply, Enabled, Drawing, Reading;
    var n := |steps| - 1;
    var before := Execute(network, steps[..n]).value;
    SameLengths(network, steps[..n], before);
    StepPasses(before, steps[n], 0);
    if i < |before.log| {
      k := SealedWasRead(network, steps[..n], before, i);
      SealsEarlier(network, steps, n, k, i);
    } else {
      k := n;
      HeldWasRead(network, steps[..n], before);
    }
  }

  lemma {:induction false} LogsGrow(network: Network, steps: seq<Step>, s: State, k: nat)
    requires Execute(network, steps) == Some(s) && k <= |steps|
    ensures Execute(network, steps[..k]).Some? && Execute(network, steps[..k]).value.log <= s.log
  {
    hide Apply, Enabled, Drawing, Reading, Sealing;
    var n := |steps| - 1;
    if k <= n {
      var before := Execute(network, steps[..n]).value;
      LogsGrow(network, steps[..n], before, k);
      assert steps[..n][..k] == steps[..k];
      StepPasses(before, steps[n], 0);
    } else {
      assert steps[..k] == steps;
    }
  }

  /** The server seals what it reads in the order of reading, each read at most once. */
  lemma ReadsInOrder(network: Network, steps: seq<Step>, s: State, i: nat, i': nat) returns (j: nat, j': nat)
    requires Execute(network, steps) == Some(s) && i < i' < |s.log| && i' < |s.origins|
    requires s.origins[i].owner.ByPeer? && s.origins[i].kind == DATA
    requires s.origins[i'].owner.ByPeer? && s.origins[i'].kind == DATA
    ensures j < j' < |steps| && steps[j] == StepReadTun(s.log[i].plain) && steps[j'] == StepReadTun(s.log[i'].plain)
  {
    hide Execute;
    var k := SealedWasRead(network, steps, s, i);
    var k' := SealedWasRead(network, steps, s, i');
    j, j' := LastRead(steps[..k]).value, LastRead(steps[..k']).value;
    if k' <= k {
      LogsGrow(network, steps, s, k);
      assert steps[..k][..k'] == steps[..k'];
      LogsGrow(network, steps[..k], Execute(network, steps[..k]).value, k');
    }
  }

  // ---- Client TUN to sealed packet ----

  /** The last read of client c's TUN in a schedule. */
  function LastDraw(steps: seq<Step>, c: nat): (j: Option<nat>)
    ensures j.Some? ==> j.value < |steps| && steps[j.value].StepDrawTun? && steps[j.value].client == c
    ensures j.Some? ==> forall m :: j.value < m < |steps| ==> !(steps[m].StepDrawTun? && steps[m].client == c)
  {
    if steps == [] then None
    else if steps[|steps| - 1].StepDrawTun? && steps[|steps| - 1].client == c then Some(|steps| - 1)
    else LastDraw(steps[..|steps| - 1], c)
  }

  lemma {:induction false} DrawnWasRead(network: Network, steps: seq<Step>, s: State, c: nat)
    requires Execute(network, steps) == Some(s) && Draws(s, c)
    ensures LastDraw(steps, c).Some? && steps[LastDraw(steps, c).value].packet == LinkOf(s, c).tun.value.payload
    ensures forall m :: LastDraw(steps, c).value < m < |steps| ==> !(steps[m].StepSendTun? && steps[m].client == c)
  {
    hide Apply, Enabled, Reading, Records;
    var prefix, step := steps[..|steps| - 1], steps[|steps| - 1];
    var before := Execute(network, prefix).value;
    StepPasses(before, step, c);
    if !(step.StepDrawTun? && step.client == c) {
      DrawnWasRead(network, prefix, before, c);
      var j := LastDraw(prefix, c).value;
      assert steps[j] == prefix[j];
      forall m | j < m < |steps| ensures !(steps[m].StepSendTun? && steps[m].client == c) {
        assert m < |prefix| ==> steps[m] == prefix[m];
      }
    }
  }

  /** Every DATA packet of a client holds, whole, the packet of the last read of its TUN before it was sealed, and
      nothing else of that loop was sealed in between. */
  lemma {:induction false} SentWasRead(network: Network, steps: seq<Step>, s: State, i: nat, c: nat) returns (k: nat)
    requires Execute(network, steps) == Some(s) && i < |s.log| && i < |s.origins|
    requires s.origins[i].owner == ByClient(c) && s.origins[i].kind == DATA
    ensures SealsAt(network, steps, k, i) && steps[k].StepSendTun? && steps[k].client == c
    ensures LastDraw(steps[..k], c).Some?
    ensures
      var j := LastDraw(steps[..k], c).value;
      && steps[j] == StepDrawTun(c, s.log[i].plain)
      && forall m :: j < m < k ==> !(steps[m].StepSendTun? && steps[m].client == c)
  {
    hide Apply, Enabled, Drawing, Reading;
    var n := |steps| - 1;
    var before := Execute(network, steps[..n]).value;
    SameLengths(network, steps[..n], before);
    StepPasses(before, steps[n], c);
    if i < |before.log| {
      k := SentWasRead(network, steps[..n], before, i, c);
      SealsEarlier(network, steps, n, k, i);
    } else {
      k := n;
      DrawnWasRead(network, steps[..n], before, c);
    }
  }

  lemma DrawsInOrder(network: Network, steps: seq<Step>, s: State, i: nat, i': nat, c: nat) returns (j: nat, j': nat)
    requires Execute(network, steps) == Some(s) && i < i' < |s.log| && i' < |s.origins|
    requires s.origins[i].owner == s.origins[i'].owner == ByClient(c)
    requires s.origins[i].kind == s.origins[i'].kind == DATA
    ensures j < j' < |steps|
    ensures steps[j] == StepDrawTun(c, s.log[i].plain) && steps[j'] == StepDrawTun(c, s.log[i'].plain)
  {
    hide Execute;
    var k := SentWasRead(network, steps, s, i, c);
    var k' := SentWasRead(network, steps, s, i', c);
    j, j' := LastDraw(steps[..k], c).value, LastDraw(steps[..k'], c).value;
    if k' <= k {
      LogsGrow(network, steps, s, k);
      assert steps[..k][..k'] == steps[..k'];
      LogsGrow(network, steps[..k], Execute(network, steps[..k]).value, k');
    }
  }
}
