/** Bit operations on uint64 values, written out on integers. */
module Bits {
  import opened Bytes

  function Pow2(n: nat): (p: int)
    ensures p > 0
  {
    if n == 0 then 1 else 2 * Pow2(n - 1)
  }

  predicate Bit(x: nat, i: nat)
  {
    if i == 0 then x % 2 == 1 else Bit(x / 2, i - 1)
  }

  /** Bitwise or. */
  function Or(x: nat, y: nat): (r: nat)
    decreases x + y
  {
    if x == 0 && y == 0 then 0
    else 2 * Or(x / 2, y / 2) + (if x % 2 == 1 || y % 2 == 1 then 1 else 0)
  }

  /** Bitwise and. */
  function And(x: nat, y: nat): nat
    decreases x + y
  {
    if x == 0 && y == 0 then 0
    else 2 * And(x / 2, y / 2) + (if x % 2 == 1 && y % 2 == 1 then 1 else 0)
  }

  /** The uint64 left shift: bits pushed past position 63 are lost. */
  function ShiftLeft(x: uint64, k: nat): uint64
  {
    (x * Pow2(k)) % TWO_64
  }

  lemma {:induction false} OrBit(x: nat, y: nat, i: nat)
    ensures Bit(Or(x, y), i) <==> Bit(x, i) || Bit(y, i)
    decreases i
  {
    if i > 0 {
      if x == 0 && y == 0 {
        OrBit(0, 0, i - 1);
      } else {
        OrBit(x / 2, y / 2, i - 1);
      }
    }
  }

  lemma {:induction false} OrBound(x: nat, y: nat, n: nat)
    requires x < Pow2(n) && y < Pow2(n)
    ensures Or(x, y) < Pow2(n)
  {
    if n > 0 {
      OrBound(x / 2, y / 2, n - 1);
    }
  }

  lemma {:induction false} ZeroBits(i: nat)
    ensures !Bit(0, i)
  {
    if i > 0 {
      ZeroBits(i - 1);
    }
  }

  lemma {:induction false} PowerBit(k: nat, i: nat)
    ensures Bit(Pow2(k), i) <==> i == k
  {
    if k == 0 {
      if i > 0 {
        ZeroBits(i - 1);
      }
    } else if i > 0 {
      assert Pow2(k) / 2 == Pow2(k - 1);
      PowerBit(k - 1, i - 1);
    }
  }

  lemma {:induction false} ScaledBit(x: nat, k: nat, i: nat)
    ensures x * Pow2(k) >= 0
    ensures Bit(x * Pow2(k), i) <==> k <= i && Bit(x, i - k)
    decreases k
  {
    if k > 0 {
      var half := x * Pow2(k - 1);
      assert x * Pow2(k) == 2 * half;
      ScaledBit(x, k - 1, if i > 0 then i - 1 else 0);
      assert (2 * half) / 2 == half && (2 * half) % 2 == 0;
    }
  }

  lemma HalfOfModulo(y: nat, m: nat)
    requires m > 0
    ensures (y % (2 * m)) / 2 == (y / 2) % m
    ensures (y % (2 * m)) % 2 == y % 2
  {
    var t, r := (y / 2) / m, (y / 2) % m;
    var b := y % 2;
    assert y == (2 * m) * t + (2 * r + b) by {
      assert y == 2 * (y / 2) + b && y / 2 == m * t + r;
      assert 2 * (m * t) == (2 * m) * t;
    }
    ModuloUnique(y, 2 * m, t, 2 * r + b);
  }

  lemma ModuloUnique(y: nat, m: nat, t: nat, r: nat)
    requires m > 0 && r < m && y == m * t + r
    ensures y / m == t && y % m == r
  {
    QuotientUnique(m, y / m, y % m, t, r);
  }

  lemma QuotientUnique(m: nat, q: nat, s: nat, t: nat, r: nat)
    requires s < m && r < m && m * q + s == m * t + r
    ensures q == t && s == r
  {
    assert m * (q - t) == m * q - m * t;
    SmallMultiple(m, q - t);
  }

  lemma {:induction false} MultipleMonotone(m: nat, a: nat, b: nat)
    requires a <= b
    ensures m * a <= m * b
  {
    if a < b {
      MultipleMonotone(m, a, b - 1);
      assert m * b == m * (b - 1) + m;
    }
  }

  lemma SmallMultiple(m: int, d: int)
    requires m > 0 && -m < m * d < m
    ensures d == 0
  {
    var e := if d < 0 then -d else d;
    if e >= 1 {
      MultipleGrows(m, e);
    }
  }

  lemma {:induction false} MultipleGrows(m: int, d: int)
    requires m >= 0 && d >= 1
    ensures m * d >= m
  {
    if d > 1 {
      MultipleGrows(m, d - 1);
      assert m * d == m * (d - 1) + m;
    }
  }

  lemma {:induction false} TruncatedBit(y: nat, n: nat, i: nat)
    requires i < n
    ensures Bit(y % Pow2(n), i) <==> Bit(y, i)
    decreases i
  {
    HalfOfModulo(y, Pow2(n - 1));
    if i > 0 {
      TruncatedBit(y / 2, n - 1, i - 1);
    }
  }

  lemma {:induction false} Pow2Adds(a: nat, b: nat)
    ensures Pow2(a + b) == Pow2(a) * Pow2(b)
  {
    if a > 0 {
      Pow2Adds(a - 1, b);
      assert Pow2(a) * Pow2(b) == 2 * (Pow2(a - 1) * Pow2(b));
    }
  }

  lemma Pow2At8()
    ensures Pow2(8) == 256
  {
    assert Pow2(8) == 2 * Pow2(7) && Pow2(7) == 2 * Pow2(6) && Pow2(6) == 2 * Pow2(5);
    assert Pow2(5) == 2 * Pow2(4) && Pow2(4) == 2 * Pow2(3) && Pow2(3) == 2 * Pow2(2);
  }

  lemma Pow2At64()
    ensures Pow2(64) == TWO_64
  {
    hide Pow2;
    Pow2At8(); Pow2Adds(8, 8); Pow2Adds(16, 16); Pow2Adds(32, 32);
  }

  lemma {:induction false} Pow2Grows(a: nat, b: nat)
    requires a < b
    ensures 2 * Pow2(a) <= Pow2(b)
  {
    if a + 1 < b {
      Pow2Grows(a, b - 1);
    }
  }

  lemma ShiftedBit(x: uint64, k: nat, i: nat)
    requires i < 64
    ensures Bit(ShiftLeft(x, k), i) <==> k <= i && Bit(x, i - k)
  {
    Pow2At64();
    ScaledBit(x, k, i);
    TruncatedBit(x * Pow2(k), 64, i);
  }

  /** x & (1 << k) is non-zero exactly when bit k of x is set. */
  lemma {:induction false} MaskTest(x: nat, k: nat)
    ensures And(x, Pow2(k)) != 0 <==> Bit(x, k)
    decreases k
  {
    if k == 0 {
      assert Pow2(0) == 1;
      AndZero(x / 2);
    } else {
      assert Pow2(k) / 2 == Pow2(k - 1) && Pow2(k) % 2 == 0;
      MaskTest(x / 2, k - 1);
    }
  }

  lemma {:induction false} AndZero(x: nat)
    ensures And(x, 0) == 0
  {
    if x > 0 {
      AndZero(x / 2);
    }
  }

  /** A number below 2^n is determined by its first n bits. */
  lemma {:induction false} BitsDetermine(x: nat, y: nat, n: nat)
    requires x < Pow2(n) && y < Pow2(n)
    requires forall i: nat :: i < n ==> (Bit(x, i) <==> Bit(y, i))
    ensures x == y
  {
    if n > 0 {
      forall i: nat | i < n - 1
        ensures Bit(x / 2, i) <==> Bit(y / 2, i)
      {
        assert Bit(x, i + 1) <==> Bit(y, i + 1);
      }
      BitsDetermine(x / 2, y / 2, n - 1);
      assert Bit(x, 0) <==> Bit(y, 0);
    }
  }
}

/** The 64-entry anti-replay window of internal/protocol/replay_window.go. */
module ReplayWindow {
  import opened Bytes
  import opened Bits

  const WINDOW: nat := 64

  datatype Verdict = Accepted | InvalidSequence | TooOld | Duplicate

  /** The two fields of the source's ReplayWindow. */
  datatype Window = Window(highest: uint64, bitmap: uint64)

  const EMPTY_WINDOW := Window(0, 0)

  /** What Accept does to the two fields, branch by branch. */
  function Advance(w: Window, sequence: uint64): (Window, Verdict)
  {
    if sequence == 0 then (w, InvalidSequence)
    else if w.highest == 0 then (Window(sequence, 1), Accepted)
    else if sequence > w.highest then
      var offset := sequence - w.highest;
      if offset >= WINDOW then (Window(sequence, 1), Accepted)
      else (Window(sequence, SetBit(ShiftLeft(w.bitmap, offset), 0)), Accepted)
    else
      var offset := w.highest - sequence;
      if offset >= WINDOW then (w, TooOld)
      else if And(w.bitmap, Pow2(offset)) != 0 then (w, Duplicate)
      else (Window(w.highest, SetBit(w.bitmap, offset)), Accepted)
  }

  /** bitmap | 1 << k */
  function SetBit(bitmap: uint64, k: nat): uint64
    requires k < WINDOW
  {
    Pow2At64(); Pow2Grows(k, 64); OrBound(bitmap, Pow2(k), 64);
    Or(bitmap, Pow2(k))
  }

  lemma SetBitBits(bitmap: uint64, k: nat, i: nat)
    requires k < WINDOW
    ensures Bit(SetBit(bitmap, k), i) <==> i == k || Bit(bitmap, i)
  {
    OrBit(bitmap, Pow2(k), i);
    PowerBit(k, i);
  }

  // ---- The set of accepted sequences, which the bitmap stands for ----

  ghost predicate IsHighest(accepted: set<uint64>, highest: uint64)
  {
    if accepted == {} then highest == 0
    else highest in accepted && forall x :: x in accepted ==> x <= highest
  }

  /** highest is the largest accepted sequence (0 iff none) and bit i says that highest - i was accepted. */
  ghost predicate Refines(w: Window, accepted: set<uint64>)
  {
    && 0 !in accepted
    && IsHighest(accepted, w.highest)
    && forall i: nat :: i < WINDOW ==> (Bit(w.bitmap, i) <==> Stored(w.highest, i, accepted))
  }

  predicate Stored(highest: uint64, i: nat, accepted: set<uint64>)
  {
    i < highest && highest - i in accepted
  }

  /** The reference definition: the verdict as a function of the accepted set alone. */
  ghost predicate SetVerdict(accepted: set<uint64>, sequence: uint64, v: Verdict)
  {
    match v
    case InvalidSequence => sequence == 0
    case TooOld => sequence != 0 && exists x :: x in accepted && x - sequence >= WINDOW
    case Duplicate => sequence in accepted && forall x :: x in accepted ==> x - sequence < WINDOW
    case Accepted => sequence != 0 && sequence !in accepted && forall x :: x in accepted ==> x - sequence < WINDOW
  }

  function Record(accepted: set<uint64>, sequence: uint64, v: Verdict): set<uint64>
  {
    if v == Accepted then accepted + {sequence} else accepted
  }

  lemma EmptyRefines()
    ensures Refines(EMPTY_WINDOW, {})
  {
    forall i: nat | i < WINDOW ensures !Bit(0, i) {
      ZeroBits(i);
    }
  }

  /** Main result: in every state that stands for a set, Advance gives the set model's verdict,
      leaves the fields alone unless it accepts, and then stands for the enlarged set. */
  lemma AdvanceRefines(w: Window, accepted: set<uint64>, sequence: uint64)
    requires Refines(w, accepted)
    ensures SetVerdict(accepted, sequence, Advance(w, sequence).1)
    ensures Refines(Advance(w, sequence).0, Record(accepted, sequence, Advance(w, sequence).1))
    ensures Advance(w, sequence).1 != Accepted ==> Advance(w, sequence).0 == w
  {
    if sequence == 0 {
    } else if w.highest == 0 {
      JumpRefines(accepted, sequence);
    } else if sequence > w.highest {
      if sequence - w.highest >= WINDOW {
        JumpRefines(accepted, sequence);
      } else {
        SlideRefines(w, accepted, sequence);
      }
    } else {
      MaskTest(w.bitmap, w.highest - sequence);
      if w.highest - sequence < WINDOW {
        assert Bit(w.bitmap, w.highest - sequence) <==> Stored(w.highest, w.highest - sequence, accepted);
        if sequence !in accepted {
          FillRefines(w, accepted, sequence);
        }
      } else {
        assert w.highest in accepted;
      }
    }
  }

  /** A sequence at least a whole window ahead starts a new bitmap. */
  lemma JumpRefines(accepted: set<uint64>, sequence: uint64)
    requires sequence != 0 && forall x :: x in accepted ==> x + WINDOW <= sequence
    ensures Refines(Window(sequence, 1), accepted + {sequence}) || 0 in accepted
  {
    forall i: nat | i < WINDOW
      ensures Bit(1, i) <==> Stored(sequence, i, accepted + {sequence})
    {
      PowerBit(0, i);
    }
  }

  lemma SlideRefines(w: Window, accepted: set<uint64>, sequence: uint64)
    requires Refines(w, accepted) && 0 < w.highest < sequence < w.highest + WINDOW
    ensures Refines(Advance(w, sequence).0, accepted + {sequence})
  {
    var offset := sequence - w.highest;
    var after := accepted + {sequence};
    forall i: nat | i < WINDOW
      ensures Bit(SetBit(ShiftLeft(w.bitmap, offset), 0), i) <==> Stored(sequence, i, after)
    {
      SetBitBits(ShiftLeft(w.bitmap, offset), 0, i);
      ShiftedBit(w.bitmap, offset, i);
      if offset <= i {
        assert Bit(w.bitmap, i - offset) <==> Stored(w.highest, i - offset, accepted);
      }
    }
  }

  lemma FillRefines(w: Window, accepted: set<uint64>, sequence: uint64)
    requires Refines(w, accepted) && 0 < sequence < w.highest < sequence + WINDOW
    ensures Refines(Window(w.highest, SetBit(w.bitmap, w.highest - sequence)), accepted + {sequence})
  {
    var offset := w.highest - sequence;
    forall i: nat | i < WINDOW
      ensures Bit(SetBit(w.bitmap, offset), i) <==> Stored(w.highest, i, accepted + {sequence})
    {
      SetBitBits(w.bitmap, offset, i);
      assert Bit(w.bitmap, i) <==> Stored(w.highest, i, accepted);
    }
  }

  /** The accepted set fixes both fields. */
  lemma RefinesDetermines(a: Window, b: Window, accepted: set<uint64>)
    requires Refines(a, accepted) && Refines(b, accepted)
    ensures a == b
  {
    Pow2At64();
    forall i: nat | i < 64
      ensures Bit(a.bitmap, i) <==> Bit(b.bitmap, i)
    {
      assert Stored(a.highest, i, accepted) <==> Stored(b.highest, i, accepted);
    }
    BitsDetermine(a.bitmap, b.bitmap, 64);
  }

  // ---- Whole runs ----

  datatype Run = Run(window: Window, accepted: seq<uint64>)

  /** Feeds a whole arrival list through one window and keeps what it accepts, in order. */
  function Feed(arrivals: seq<uint64>): Run
  {
    if arrivals == [] then Run(EMPTY_WINDOW, [])
    else
      var before := Feed(arrivals[..|arrivals| - 1]);
      var x := arrivals[|arrivals| - 1];
      var (after, v) := Advance(before.window, x);
      Run(after, if v == Accepted then before.accepted + [x] else before.accepted)
  }

  function Elements(s: seq<uint64>): set<uint64>
  {
    set x | x in s
  }

  predicate NoRepeats(s: seq<uint64>)
  {
    forall i, j :: 0 <= i < j < |s| ==> s[i] != s[j]
  }

  /** Every reachable window refines the set it has accepted, and accepts no sequence twice. */
  lemma {:induction false} FeedRefines(arrivals: seq<uint64>)
    ensures Refines(Feed(arrivals).window, Elements(Feed(arrivals).accepted))
    ensures NoRepeats(Feed(arrivals).accepted)
    ensures Elements(Feed(arrivals).accepted) <= Elements(arrivals)
  {
    if arrivals == [] {
      EmptyRefines();
    } else {
      var prefix, x := arrivals[..|arrivals| - 1], arrivals[|arrivals| - 1];
      FeedRefines(prefix);
      var before := Feed(prefix);
      AdvanceRefines(before.window, Elements(before.accepted), x);
      var v := Advance(before.window, x).1;
      assert Elements(before.accepted + [x]) == Elements(before.accepted) + {x};
      assert v == Accepted ==> x !in before.accepted by {
        assert SetVerdict(Elements(before.accepted), x, v);
      }
    }
  }

  /** No arrival comes after one that is a whole window ahead of it. */
  predicate InOrderEnough(arrivals: seq<uint64>)
  {
    forall i, j :: 0 <= i < j < |arrivals| ==> arrivals[i] - arrivals[j] < WINDOW
  }

  predicate AllPositive(arrivals: seq<uint64>)
  {
    forall i :: 0 <= i < |arrivals| ==> arrivals[i] != 0
  }

  /** On a stream that is never reordered by a whole window, nothing new is lost:
      each distinct value is accepted exactly once. */
  lemma {:induction false} NothingLost(arrivals: seq<uint64>)
    requires AllPositive(arrivals) && InOrderEnough(arrivals)
    ensures Elements(Feed(arrivals).accepted) == Elements(arrivals)
    ensures NoRepeats(Feed(arrivals).accepted)
  {
    hide Advance, Refines, SetVerdict, NoRepeats, Elements, Record, InOrderEnough;
    FeedRefines(arrivals);
    if arrivals != [] {
      PrefixOrdered(arrivals);
      var prefix, x := arrivals[..|arrivals| - 1], arrivals[|arrivals| - 1];
      NothingLost(prefix);
      FeedRefines(prefix);
      var before := Feed(prefix);
      AdvanceRefines(before.window, Elements(before.accepted), x);
      assert arrivals == prefix + [x];
      LastIsRecent(prefix, x);
      NothingTooOld(Elements(prefix), x, Advance(before.window, x).1);
      ElementsOfSnoc(before.accepted, x);
      ElementsOfSnoc(prefix, x);
    }
  }

  lemma PrefixOrdered(arrivals: seq<uint64>)
    requires arrivals != [] && AllPositive(arrivals) && InOrderEnough(arrivals)
    ensures AllPositive(arrivals[..|arrivals| - 1]) && InOrderEnough(arrivals[..|arrivals| - 1])
  {
  }

  lemma LastIsRecent(prefix: seq<uint64>, x: uint64)
    requires InOrderEnough(prefix + [x])
    ensures forall y :: y in Elements(prefix) ==> y - x < WINDOW
  {
    var all := prefix + [x];
    forall y | y in Elements(prefix) ensures y - x < WINDOW {
      var i :| 0 <= i < |prefix| && prefix[i] == y;
      assert all[i] - all[|prefix|] < WINDOW;
    }
  }

  lemma ElementsOfSnoc(s: seq<uint64>, x: uint64)
    ensures Elements(s + [x]) == Elements(s) + {x}
  {
  }

  lemma NothingTooOld(accepted: set<uint64>, x: uint64, v: Verdict)
    requires SetVerdict(accepted, x, v) && x != 0 && forall y :: y in accepted ==> y - x < WINDOW
    ensures v == Accepted || x in accepted
  {
  }

  /** A set whose members are less than a window apart leads to one final state,
      whatever the order and repetition of its arrivals. */
  lemma OrderIrrelevant(a: seq<uint64>, b: seq<uint64>)
    requires AllPositive(a) && Elements(a) == Elements(b)
    requires forall x, y :: x in a && y in a ==> x - y < WINDOW
    ensures Feed(a).window == Feed(b).window
  {
    forall i | 0 <= i < |b| ensures b[i] in a {
      assert b[i] in Elements(b);
    }
    assert InOrderEnough(a) by {
      assert forall i :: 0 <= i < |a| ==> a[i] in a;
    }
    NothingLost(a);
    NothingLost(b);
    FeedRefines(a);
    FeedRefines(b);
    RefinesDetermines(Feed(a).window, Feed(b).window, Elements(a));
  }

  /** Not "strictly increasing": number 1 is accepted after number 2, below the highest accepted so far. */
  lemma ReorderedAccepted()
    ensures Feed([2, 1]).accepted == [2, 1] && Feed([2, 1]).window.highest == 2
  {
    assert [2, 1][..1] == [2] && [2][..0] == [];
    assert Feed([2]).window == Advance(EMPTY_WINDOW, 2).0;
    FeedRefines([2]);
    assert Elements(Feed([2]).accepted) == {2};
    AdvanceRefines(Feed([2]).window, {2}, 1);
  }

  /** The struct itself: Accept writes the two fields in place. */
  class SlidingWindow {
    var highest: uint64
    var bitmap: uint64

    constructor ()
      ensures View() == EMPTY_WINDOW
    {
      highest, bitmap := 0, 0;
    }

    function View(): Window
      reads this
    {
      Window(highest, bitmap)
    }

    method Accept(sequence: uint64) returns (v: Verdict)
      modifies this
      ensures (View(), v) == Advance(old(View()), sequence)
    {
      if sequence == 0 {
        return InvalidSequence;
      }
      if highest == 0 {
        highest := sequence;
        bitmap := 1;
        return Accepted;
      }
      if sequence > highest {
        var offset := sequence - highest;
        if offset >= WINDOW {
          highest := sequence;
          bitmap := 1;
        } else {
          highest := sequence;
          bitmap := ShiftLeft(bitmap, offset);
          bitmap := SetBit(bitmap, 0);
        }
        return Accepted;
      }
      var offset := highest - sequence;
      if offset >= WINDOW {
        return TooOld;
      }
      if And(bitmap, Pow2(offset)) != 0 {
        return Duplicate;
      }
      bitmap := SetBit(bitmap, offset);
      return Accepted;
    }
  }
}
