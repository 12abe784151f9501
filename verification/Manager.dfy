/** Applying components in order and tearing them down in reverse: internal/vpn/vpn.go. */
module Manager {
  /** A VpnComponent as its effect on the world; the flag is whether Apply returned nil. */
  datatype Component<!W> = Component(apply: W -> (W, bool), cleanup: W -> W)

  function ApplyPrefix<W>(w: W, cs: seq<Component<W>>): (r: (W, nat))
    ensures r.1 <= |cs|
  {
    if cs == [] then (w, 0)
    else
      var (w1, n) := ApplyPrefix(w, cs[..|cs| - 1]);
      if n < |cs| - 1 then (w1, n)
      else
        var (w2, ok) := cs[|cs| - 1].apply(w1);
        (w2, if ok then |cs| else |cs| - 1)
  }

  /** Teardown: the last component is cleaned up first. */
  function TeardownAll<W>(w: W, cs: seq<Component<W>>): W
    decreases |cs|
  {
    if cs == [] then w else TeardownAll(cs[|cs| - 1].cleanup(w), cs[..|cs| - 1])
  }

  /** The world just before component i of cs is applied. */
  function Before<W>(w: W, cs: seq<Component<W>>, i: nat): W
    requires i <= |cs|
  {
    if i == 0 then w else cs[i - 1].apply(Before(w, cs, i - 1)).0
  }

  /** The first component whose Apply fails, or |cs|. */
  function FirstFailure<W>(w: W, cs: seq<Component<W>>): nat
  {
    ApplyPrefix(w, cs).1
  }

  /** The world after ApplyAll: where the applied prefix led, and the failing component if there is one,
      followed by the teardown of everything the manager holds. */
  function AfterApplyAll<W>(w: W, held: seq<Component<W>>, cs: seq<Component<W>>): W
  {
    var (w1, n) := ApplyPrefix(w, cs);
    if n == |cs| then w1 else TeardownAll(w1, held + cs[..n])
  }

  lemma {:induction false} ApplyPrefixReaches<W>(w: W, cs: seq<Component<W>>)
    ensures
      var (w1, n) := ApplyPrefix(w, cs);
      && (forall i :: 0 <= i < n ==> cs[i].apply(Before(w, cs, i)).1)
      && (if n < |cs| then !cs[n].apply(Before(w, cs, n)).1 && w1 == cs[n].apply(Before(w, cs, n)).0
          else w1 == Before(w, cs, n))
  {
    hide Before;
    if cs == [] {
      NothingBefore(w, cs);
    } else {
      var prefix := cs[..|cs| - 1];
      ApplyPrefixReaches(w, prefix);
      var n := ApplyPrefix(w, prefix).1;
      forall i: nat | i <= n ensures Before(w, cs, i) == Before(w, prefix, i) {
        BeforePrefix(w, cs, |cs| - 1, i);
      }
      OneFurther(w, cs, |cs| - 1);
    }
  }

  lemma NothingBefore<W>(w: W, cs: seq<Component<W>>)
    ensures Before(w, cs, 0) == w
  {
  }

  lemma OneFurther<W>(w: W, cs: seq<Component<W>>, i: nat)
    requires i < |cs|
    ensures Before(w, cs, i + 1) == cs[i].apply(Before(w, cs, i)).0
  {
  }

  lemma {:induction false} BeforePrefix<W>(w: W, cs: seq<Component<W>>, n: nat, i: nat)
    requires i <= n <= |cs|
    ensures Before(w, cs[..n], i) == Before(w, cs, i)
  {
    if i > 0 {
      BeforePrefix(w, cs, n, i - 1);
    }
  }

  lemma {:induction false} ApplyPrefixStops<W>(w: W, cs: seq<Component<W>>, i: nat)
    requires 0 < i <= |cs| && ApplyPrefix(w, cs[..i]).1 < i
    ensures ApplyPrefix(w, cs) == ApplyPrefix(w, cs[..i])
  {
    if i < |cs| {
      var prefix := cs[..|cs| - 1];
      assert prefix[..i] == cs[..i];
      ApplyPrefixStops(w, prefix, i);
    } else {
      assert cs[..i] == cs;
    }
  }

  /** A failing Apply of component n leaves the world as it found it. */
  ghost predicate FailsAtomically<W>(w: W, cs: seq<Component<W>>, n: nat)
    requires n < |cs|
  {
    !cs[n].apply(Before(w, cs, n)).1 ==> cs[n].apply(Before(w, cs, n)).0 == Before(w, cs, n)
  }

  /** Each Cleanup undoes the Apply that preceded it. */
  ghost predicate Undoes<W>(w: W, cs: seq<Component<W>>, n: nat)
    requires n <= |cs|
  {
    forall i :: 0 <= i < n ==> cs[i].cleanup(cs[i].apply(Before(w, cs, i)).0) == Before(w, cs, i)
  }

  lemma {:induction false} TeardownUndoes<W>(w: W, cs: seq<Component<W>>, n: nat)
    requires n <= |cs| && Undoes(w, cs, n)
    ensures TeardownAll(Before(w, cs, n), cs[..n]) == w
  {
    if n > 0 {
      var prefix := cs[..n];
      assert prefix[..n - 1] == cs[..n - 1] && prefix[n - 1] == cs[n - 1];
      assert cs[n - 1].cleanup(Before(w, cs, n)) == Before(w, cs, n - 1);
      TeardownUndoes(w, cs, n - 1);
    }
  }

  /** A failed ApplyAll on a fresh manager ends in the initial world. */
  lemma FailedApplyAllRollsBack<W>(w: W, cs: seq<Component<W>>)
    requires FirstFailure(w, cs) < |cs| && FailsAtomically(w, cs, FirstFailure(w, cs))
             && Undoes(w, cs, FirstFailure(w, cs))
    ensures AfterApplyAll(w, [], cs) == w
  {
    var n := FirstFailure(w, cs);
    ApplyPrefixReaches(w, cs);
    TeardownUndoes(w, cs, n);
    assert [] + cs[..n] == cs[..n];
  }

  /** The deferred Teardown runs over the same components a second time; it stays in the initial world
      when every one of these cleanups is the identity there. */
  lemma SecondTeardownStays<W>(w: W, cs: seq<Component<W>>)
    requires FirstFailure(w, cs) < |cs| && FailsAtomically(w, cs, FirstFailure(w, cs))
             && Undoes(w, cs, FirstFailure(w, cs))
    requires forall i :: 0 <= i < FirstFailure(w, cs) ==> cs[i].cleanup(w) == w
    ensures TeardownAll(AfterApplyAll(w, [], cs), cs[..FirstFailure(w, cs)]) == w
  {
    FailedApplyAllRollsBack(w, cs);
    TeardownIdle(w, cs[..FirstFailure(w, cs)]);
  }

  lemma {:induction false} TeardownIdle<W>(w: W, cs: seq<Component<W>>)
    requires forall i :: 0 <= i < |cs| ==> cs[i].cleanup(w) == w
    ensures TeardownAll(w, cs) == w
    decreases |cs|
  {
    if cs != [] {
      TeardownIdle(w, cs[..|cs| - 1]);
    }
  }

  /** A successful ApplyAll and its Teardown cancel out. */
  lemma TeardownCancelsApplyAll<W>(w: W, cs: seq<Component<W>>)
    requires FirstFailure(w, cs) == |cs| && Undoes(w, cs, |cs|)
    ensures TeardownAll(AfterApplyAll(w, [], cs), cs) == w
  {
    ApplyPrefixReaches(w, cs);
    TeardownUndoes(w, cs, |cs|);
    assert cs[..|cs|] == cs;
  }

  class VpnManager<W> {
    var components: seq<Component<W>>
    var world: W

    constructor (world: W)
      ensures components == [] && this.world == world
    {
      components, this.world := [], world;
    }

    method ApplyAll(cs: seq<Component<W>>) returns (ok: bool)
      modifies this
      ensures ok <==> FirstFailure(old(world), cs) == |cs|
      ensures components == old(components) + cs[..FirstFailure(old(world), cs)]
      ensures world == AfterApplyAll(old(world), old(components), cs)
    {
      for i := 0 to |cs|
        invariant ApplyPrefix(old(world), cs[..i]) == (world, i)
        invariant components == old(components) + cs[..i]
      {
        var (w, applied) := cs[i].apply(world);
        world := w;
        assert cs[..i + 1][..i] == cs[..i];
        if !applied {
          ApplyPrefixStops(old(world), cs, i + 1);
          Teardown();
          return false;
        }
        components := components + [cs[i]];
        assert components == old(components) + cs[..i + 1];
      }
      assert cs[..|cs|] == cs;
      return true;
    }

    /** m.components is kept, so a later Teardown runs over it again. */
    method Teardown()
      modifies this`world
      ensures world == TeardownAll(old(world), components)
    {
      var i := |components|;
      assert components[..i] == components;
      while i > 0
        invariant 0 <= i <= |components|
        invariant TeardownAll(world, components[..i]) == TeardownAll(old(world), components)
      {
        i := i - 1;
        assert components[..i + 1][..i] == components[..i];
        world := components[i].cleanup(world);
      }
    }
  }
}
