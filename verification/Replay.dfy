/** The sliding window that keeps one intent sequence from being accepted twice
    (crates/core/src/replay.rs). */
module Replay {
  import opened MachineInts

  const WINDOW_BITS := 64

  // ----- 64-bit words -----

  /** A 64-bit word as its bits, the lowest first. */
  type Word = s: seq<bool> | |s| == 64 witness seq(64, i => false)

  function Zero(): Word { seq(64, i => false) }

  function One(): Word { seq(64, i => i == 0) }

  function Or(a: Word, b: Word): Word { seq(64, i requires 0 <= i < 64 => a[i] || b[i]) }

  function And(a: Word, b: Word): Word { seq(64, i requires 0 <= i < 64 => a[i] && b[i]) }

  /** `a << n`: bits shifted past the top are lost. */
  function ShiftLeft(a: Word, n: nat): Word { seq(64, i requires 0 <= i < 64 => n <= i && a[i - n]) }

  function Mask(distance: nat): Word { ShiftLeft(One(), distance) }

  lemma MaskTestsBit(a: Word, d: nat)
    requires d < 64
    ensures And(a, Mask(d)) != Zero() <==> a[d]
  {
    assert And(a, Mask(d))[d] == a[d];
    if !a[d] {
      assert forall i :: 0 <= i < 64 ==> And(a, Mask(d))[i] == Zero()[i];
    }
  }

  datatype Decision = AcceptedNewHighest | AcceptedOutOfOrder | RejectedDuplicate | RejectedTooOld {
    predicate Accepts() { AcceptedNewHighest? || AcceptedOutOfOrder? }
  }

  /** The window as a value: the highest accepted sequence and one bit per distance behind it. */
  datatype Window = Window(highest: Option<u64>, seen: Word)

  function Empty(): Window { Window(None, Zero()) }

  function Observed(w: Window, sequence: u64): (Decision, Window) {
    match w.highest
    case None => (AcceptedNewHighest, Window(Some(sequence), One()))
    case Some(highest) =>
      if sequence > highest then
        var shift := sequence - highest;
        (AcceptedNewHighest,
          Window(Some(sequence), if shift >= WINDOW_BITS then One() else Or(ShiftLeft(w.seen, shift), One())))
      else
        var distance := highest - sequence;
        if distance >= WINDOW_BITS then (RejectedTooOld, w)
        else if And(w.seen, Mask(distance)) != Zero() then (RejectedDuplicate, w)
        else (AcceptedOutOfOrder, Window(w.highest, Or(w.seen, Mask(distance))))
  }

  // ----- The window refines the set of accepted sequences -----

  /** Bit `d` is set exactly when `highest - d` was accepted. */
  ghost predicate Refines(w: Window, accepted: set<u64>) {
    match w.highest
    case None => accepted == {}
    case Some(highest) =>
      && IsHighest(accepted, highest)
      && (forall d: nat :: d < WINDOW_BITS ==> (w.seen[d] <==> highest - d in accepted))
  }

  ghost predicate IsHighest(accepted: set<u64>, h: u64) {
    h in accepted && forall a :: a in accepted ==> a <= h
  }

  /** What a decision says about the sequences accepted before. */
  ghost predicate Classifies(decision: Decision, accepted: set<u64>, sequence: u64) {
    match decision
    case AcceptedNewHighest => forall a :: a in accepted ==> a < sequence
    case AcceptedOutOfOrder =>
      sequence !in accepted && exists h: u64 :: IsHighest(accepted, h) && 0 < h - sequence < WINDOW_BITS
    case RejectedDuplicate =>
      sequence in accepted && exists h: u64 :: IsHighest(accepted, h) && 0 <= h - sequence < WINDOW_BITS
    case RejectedTooOld =>
      exists h: u64 :: IsHighest(accepted, h) && WINDOW_BITS <= h - sequence
  }

  function Extended(accepted: set<u64>, decision: Decision, sequence: u64): set<u64> {
    if decision.Accepts() then accepted + {sequence} else accepted
  }

  lemma NewHighestRefines(w: Window, accepted: set<u64>, sequence: u64)
    requires Refines(w, accepted) && w.highest.Some? && sequence > w.highest.value
    ensures Refines(Observed(w, sequence).1, accepted + {sequence})
  {
    var shift := sequence - w.highest.value;
    var after := Observed(w, sequence).1;
    forall d: nat | d < WINDOW_BITS
      ensures after.seen[d] <==> sequence - d in accepted + {sequence}
    {
      if shift <= d {
        assert w.seen[d - shift] <==> w.highest.value - (d - shift) in accepted;
      }
    }
  }

  lemma OutOfOrderRefines(w: Window, accepted: set<u64>, sequence: u64)
    requires Refines(w, accepted) && w.highest.Some? && w.highest.value - WINDOW_BITS < sequence <= w.highest.value
    ensures Refines(w.(seen := Or(w.seen, Mask(w.highest.value - sequence))), accepted + {sequence})
  {
    var seen := Or(w.seen, Mask(w.highest.value - sequence));
    forall d: nat | d < WINDOW_BITS
      ensures seen[d] <==> w.highest.value - d in accepted + {sequence}
    {
    }
  }

  /** Observing keeps the refinement, never accepts a sequence a second time, and decides by the
      true history. */
  lemma ObserveRefines(w: Window, accepted: set<u64>, sequence: u64)
    requires Refines(w, accepted)
    ensures var (decision, after) := Observed(w, sequence);
            && Refines(after, Extended(accepted, decision, sequence))
            && Classifies(decision, accepted, sequence)
            && (decision.Accepts() ==> sequence !in accepted)
  {
    if w.highest.Some? {
      var highest := w.highest.value;
      if sequence > highest {
        NewHighestRefines(w, accepted, sequence);
      } else if highest - sequence < WINDOW_BITS {
        MaskTestsBit(w.seen, highest - sequence);
        OutOfOrderRefines(w, accepted, sequence);
      }
    }
  }

  // ----- Runs of observations -----

  function WindowAfter(sequences: seq<u64>): Window {
    if sequences == [] then Empty()
    else Observed(WindowAfter(sequences[..|sequences| - 1]), sequences[|sequences| - 1]).1
  }

  /** How the `i`-th observation of a run is decided. */
  function DecisionAt(sequences: seq<u64>, i: nat): Decision
    requires i < |sequences|
  {
    Observed(WindowAfter(sequences[..i]), sequences[i]).0
  }

  ghost function AcceptedIn(sequences: seq<u64>): set<u64> {
    set i | 0 <= i < |sequences| && DecisionAt(sequences, i).Accepts() :: sequences[i]
  }

  lemma {:induction false} RunRefines(sequences: seq<u64>)
    ensures Refines(WindowAfter(sequences), AcceptedIn(sequences))
  {
    if sequences != [] {
      var n := |sequences| - 1;
      RunRefines(sequences[..n]);
      ObserveRefines(WindowAfter(sequences[..n]), AcceptedIn(sequences[..n]), sequences[n]);
      AcceptedExtends(sequences);
    }
  }

  lemma AcceptedExtends(sequences: seq<u64>)
    requires sequences != []
    ensures var n := |sequences| - 1;
            AcceptedIn(sequences) == Extended(AcceptedIn(sequences[..n]), DecisionAt(sequences, n), sequences[n])
  {
    var n := |sequences| - 1;
    forall i | 0 <= i < n
      ensures DecisionAt(sequences, i) == DecisionAt(sequences[..n], i) && sequences[..n][i] == sequences[i]
    {
      assert sequences[..n][..i] == sequences[..i];
    }
    var before := AcceptedIn(sequences[..n]);
    forall a
      ensures a in AcceptedIn(sequences) <==> a in Extended(before, DecisionAt(sequences, n), sequences[n])
    {
      if a in AcceptedIn(sequences) {
        var i :| 0 <= i < |sequences| && DecisionAt(sequences, i).Accepts() && sequences[i] == a;
        if i < n {
          assert DecisionAt(sequences[..n], i).Accepts() && sequences[..n][i] == a;
        }
      }
      if a in before {
        var i :| 0 <= i < n && DecisionAt(sequences[..n], i).Accepts() && sequences[..n][i] == a;
        assert DecisionAt(sequences, i).Accepts() && sequences[i] == a;
      }
    }
  }

  /** In any run of observations no sequence is accepted twice. */
  lemma NeverAcceptedTwice(sequences: seq<u64>, i: nat, j: nat)
    requires i < j < |sequences| && sequences[i] == sequences[j]
    ensures !(DecisionAt(sequences, i).Accepts() && DecisionAt(sequences, j).Accepts())
  {
    var before := sequences[..j];
    RunRefines(before);
    ObserveRefines(WindowAfter(before), AcceptedIn(before), sequences[j]);
    if DecisionAt(sequences, i).Accepts() {
      assert before[..i] == sequences[..i];
      assert DecisionAt(before, i).Accepts() && before[i] == sequences[j];
    }
  }

  /** Every decision of a run is the true one about the sequences accepted before it. */
  lemma DecisionsAreExact(sequences: seq<u64>, j: nat)
    requires j < |sequences|
    ensures Classifies(DecisionAt(sequences, j), AcceptedIn(sequences[..j]), sequences[j])
  {
    RunRefines(sequences[..j]);
    ObserveRefines(WindowAfter(sequences[..j]), AcceptedIn(sequences[..j]), sequences[j]);
  }

  class ReplayWindow {
    var highest: Option<u64>
    var seen: Word

    function View(): Window
      reads this
    {
      Window(highest, seen)
    }

    constructor ()
      ensures View() == Empty()
    {
      highest, seen := None, Zero();
    }

    method Observe(sequence: u64) returns (decision: Decision)
      modifies this
      ensures (decision, View()) == Observed(old(View()), sequence)
    {
      if highest.None? {
        highest := Some(sequence);
        seen := One();
        return AcceptedNewHighest;
      }
      if sequence > highest.value {
        var shift := sequence - highest.value;
        seen := if shift >= WINDOW_BITS then One() else Or(ShiftLeft(seen, shift), One());
        highest := Some(sequence);
        return AcceptedNewHighest;
      }
      var distance := highest.value - sequence;
      if distance >= WINDOW_BITS {
        return RejectedTooOld;
      }
      var mask := Mask(distance);
      if And(seen, mask) != Zero() {
        return RejectedDuplicate;
      }
      seen := Or(seen, mask);
      decision := AcceptedOutOfOrder;
    }
  }
}
