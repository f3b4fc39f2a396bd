/**
 * The wheel picker's index arithmetic and scroll bookkeeping
 * (src/hooks/useScrollPicker.ts): index normalisation, the repeated item list of
 * a cyclic picker, the index it scrolls to, the index read back from an offset,
 * and the three refs the scroll handlers update.
 *
 * Indices are integers; offsets and the item height are reals.
 */
module ScrollPicker {
  import opened Wrappers
  import opened JsMath

  const RepeatMultiplier: nat := 100

  /**
   * `normalizeIndex`: 0 with no items; otherwise clamped into range, or in cyclic
   * mode the index modulo the item count.
   */
  function NormalizeIndex(n: nat, cyclic: bool, index: int): (r: int)
    ensures n == 0 ==> r == 0
    ensures n > 0 ==> 0 <= r < n
    ensures n > 0 && !cyclic ==> r == (if index < 0 then 0 else if index >= n then n - 1 else index)
    ensures n > 0 && cyclic ==> r == index % n
  {
    if n == 0 then 0
    else if !cyclic then (if index < 0 then 0 else if index >= n then n - 1 else index)
    else
      var modulo := JsRem(index, n);
      if modulo < 0 then modulo + n else modulo
  }

  /** Normalising twice is normalising once; in-range indices are left alone. */
  lemma NormalizeIndexIdempotent(n: nat, cyclic: bool, index: int)
    ensures NormalizeIndex(n, cyclic, NormalizeIndex(n, cyclic, index)) == NormalizeIndex(n, cyclic, index)
    ensures 0 <= index < n ==> NormalizeIndex(n, cyclic, index) == index
  {
    if n > 0 && cyclic {
      DivModUnique(index % n, n, 0, index % n);
      if 0 <= index < n {
        DivModUnique(index, n, 0, index);
      }
    }
  }

  /** Indices a whole number of cycles apart normalise alike in cyclic mode. */
  lemma NormalizeIndexPeriodic(n: nat, index: int, cycles: int)
    requires n > 0
    ensures NormalizeIndex(n, true, index + cycles * n) == NormalizeIndex(n, true, index)
  {
    var q, r := index / n, index % n;
    assert index + cycles * n == n * (q + cycles) + r by {
      assert n * (q + cycles) == n * q + cycles * n;
    }
    DivModUnique(index + cycles * n, n, q + cycles, r);
  }

  /** `data`: nothing, the items themselves, or `RepeatMultiplier` copies of them in cyclic mode. */
  function Data(items: seq<string>, cyclic: bool): (data: seq<string>)
    ensures |items| == 0 ==> data == []
    ensures |items| > 0 && !cyclic ==> data == items
    ensures |items| > 0 && cyclic ==>
      |data| == RepeatMultiplier * |items| && forall k :: 0 <= k < |data| ==> data[k] == items[k % |items|]
  {
    if |items| == 0 then []
    else if !cyclic then items
    else seq(RepeatMultiplier * |items|, k requires 0 <= k < RepeatMultiplier * |items| => items[k % |items|])
  }

  lemma ChunkIndex(chunk: nat, n: nat, i: nat)
    requires i < n
    ensures (chunk * n + i) % n == i
  {
    assert chunk * n == n * chunk;
    DivModUnique(chunk * n + i, n, chunk, i);
  }

  /** The chunked copy loop that fills the repeated array. */
  method BuildData(items: seq<string>, cyclic: bool) returns (data: seq<string>)
    ensures data == Data(items, cyclic)
  {
    var n := |items|;
    if n == 0 {
      return [];
    }
    if !cyclic {
      return items;
    }
    var total := n * RepeatMultiplier;
    var repeated := new string[total];
    var chunk := 0;
    while chunk < RepeatMultiplier
      invariant 0 <= chunk <= RepeatMultiplier
      invariant forall k :: 0 <= k < chunk * n ==> repeated[k] == items[k % n]
    {
      var offset := chunk * n;
      ChunkFits(chunk, n);
      CopyChunk(repeated, items, offset);
      forall k | offset <= k < offset + n
        ensures repeated[k] == items[k % n]
      {
        ChunkIndex(chunk, n, k - offset);
        assert repeated[offset + (k - offset)] == items[k - offset];
      }
      chunk := chunk + 1;
    }
    data := repeated[..];
  }

  /** The inner loop: `items` copied into `repeated` from `offset` on, the cells before `offset` kept. */
  method CopyChunk(repeated: array<string>, items: seq<string>, offset: nat)
    requires offset + |items| <= repeated.Length
    modifies repeated
    ensures forall k :: 0 <= k < offset ==> repeated[k] == old(repeated[k])
    ensures forall j :: 0 <= j < |items| ==> repeated[offset + j] == items[j]
  {
    var i := 0;
    while i < |items|
      invariant 0 <= i <= |items|
      invariant forall k :: 0 <= k < offset ==> repeated[k] == old(repeated[k])
      invariant forall j :: 0 <= j < i ==> repeated[offset + j] == items[j]
    {
      repeated[offset + i] := items[i];
      i := i + 1;
    }
  }

  /** Chunk `chunk` of the repeated array lies inside it, and the next chunk starts right after it. */
  lemma ChunkFits(chunk: nat, n: nat)
    requires chunk < RepeatMultiplier
    ensures chunk * n + n <= n * RepeatMultiplier
    ensures (chunk + 1) * n == chunk * n + n
  {
    MulLe(chunk + 1, RepeatMultiplier, n);
  }

  /** `targetIndex`: the selection, placed in the middle copy of a cyclic list. */
  function TargetIndex(n: nat, cyclic: bool, selectedIndex: int): int {
    if n == 0 then 0
    else if !cyclic then NormalizeIndex(n, cyclic, selectedIndex)
    else RepeatMultiplier / 2 * n + NormalizeIndex(n, cyclic, selectedIndex)
  }

  /** The target index is a valid index of `data` and shows the selected item. */
  lemma TargetIndexShowsSelection(items: seq<string>, cyclic: bool, selectedIndex: int)
    requires |items| > 0
    ensures var t := TargetIndex(|items|, cyclic, selectedIndex);
      0 <= t < |Data(items, cyclic)| &&
      Data(items, cyclic)[t] == items[NormalizeIndex(|items|, cyclic, selectedIndex)]
  {
    var n := |items|;
    var s := NormalizeIndex(n, cyclic, selectedIndex);
    if cyclic {
      ChunkIndex(50, n, s);
    }
  }

  /** `currentTargetOffset`: the target row's offset. */
  function TargetOffset(n: nat, cyclic: bool, selectedIndex: int, itemHeight: real): real {
    TargetIndex(n, cyclic, selectedIndex) as real * itemHeight
  }

  /** `getIndexFromOffset`: the nearest item row, normalised. */
  function IndexFromOffset(n: nat, cyclic: bool, offsetY: real, itemHeight: real): int
    requires itemHeight != 0.0
  {
    NormalizeIndex(n, cyclic, Round(offsetY / itemHeight))
  }

  lemma DivideBack(t: int, h: real)
    requires h != 0.0
    ensures (t as real * h) / h == t as real
  {
  }

  /** The offset of a target row reads back as that row. */
  lemma OffsetReadsBackRow(n: nat, cyclic: bool, selectedIndex: int, itemHeight: real)
    requires itemHeight != 0.0
    ensures IndexFromOffset(n, cyclic, TargetOffset(n, cyclic, selectedIndex, itemHeight), itemHeight) ==
      NormalizeIndex(n, cyclic, TargetIndex(n, cyclic, selectedIndex))
  {
    var t := TargetIndex(n, cyclic, selectedIndex);
    var off := TargetOffset(n, cyclic, selectedIndex, itemHeight);
    DivideBack(t, itemHeight);
    assert off / itemHeight == t as real;
    RoundOfInteger(t);
    assert Round(off / itemHeight) == t;
  }

  /** The target row normalises to the selection. */
  lemma TargetIndexNormalizes(n: nat, cyclic: bool, selectedIndex: int)
    ensures NormalizeIndex(n, cyclic, TargetIndex(n, cyclic, selectedIndex)) == NormalizeIndex(n, cyclic, selectedIndex)
  {
    var sel := NormalizeIndex(n, cyclic, selectedIndex);
    NormalizeIndexIdempotent(n, cyclic, selectedIndex);
    if n > 0 && cyclic {
      NormalizeIndexPeriodic(n, sel, 50);
      assert TargetIndex(n, cyclic, selectedIndex) == sel + 50 * n;
    }
  }

  /** Reading back the offset the picker scrolls to gives the normalised selection. */
  lemma TargetOffsetReadsBack(n: nat, cyclic: bool, selectedIndex: int, itemHeight: real)
    requires itemHeight != 0.0
    ensures IndexFromOffset(n, cyclic, TargetOffset(n, cyclic, selectedIndex, itemHeight), itemHeight) ==
      NormalizeIndex(n, cyclic, selectedIndex)
  {
    OffsetReadsBackRow(n, cyclic, selectedIndex, itemHeight);
    TargetIndexNormalizes(n, cyclic, selectedIndex);
  }

  // ---------------------------------------------------------------- the refs and handlers

  /** `hasInitializedRef`, `suppressMomentumRef`, `lastRequestedIndexRef`, `previousScrollIndexRef`. */
  datatype Refs = Refs(
    hasInitialized: bool, suppressMomentum: bool,
    lastRequestedIndex: Option<int>, previousScrollIndex: Option<int>)

  const InitialRefs: Refs := Refs(false, false, None, None)

  /** What a handler does outside the refs: a `scrollTo`, a haptic tick, an `onValueChange` call. */
  datatype Effect = ScrollTo(y: real, animated: bool) | HapticTick | ValueChange(index: int)

  datatype StepResult = StepResult(refs: Refs, effects: seq<Effect>)

  /**
   * The scroll-to-selection effect: nothing without a scroll view or items or when
   * this target was already requested; the first request jumps without animation,
   * later ones animate and set the suppress flag.
   */
  function ScrollToTargetStep(r: Refs, hasScrollView: bool, n: nat, target: int, offset: real): (s: StepResult)
    ensures !hasScrollView || n == 0 || (r.lastRequestedIndex == Some(target) && r.hasInitialized) ==>
      s == StepResult(r, [])
    ensures hasScrollView && n > 0 && !r.hasInitialized ==>
      s == StepResult(r.(hasInitialized := true, lastRequestedIndex := Some(target)), [ScrollTo(offset, false)])
    ensures hasScrollView && n > 0 && r.hasInitialized && r.lastRequestedIndex != Some(target) ==>
      s == StepResult(r.(suppressMomentum := true, lastRequestedIndex := Some(target)), [ScrollTo(offset, true)])
  {
    if !hasScrollView || n == 0 then StepResult(r, [])
    else if r.lastRequestedIndex == Some(target) && r.hasInitialized then StepResult(r, [])
    else
      var r1 := r.(lastRequestedIndex := Some(target));
      if !r.hasInitialized then StepResult(r1.(hasInitialized := true), [ScrollTo(offset, false)])
      else StepResult(r1.(suppressMomentum := true), [ScrollTo(offset, true)])
  }

  /** `handleScroll`: a haptic tick whenever the row under the offset changes. */
  function ScrollStep(r: Refs, n: nat, cyclic: bool, offsetY: real, itemHeight: real): (s: StepResult)
    requires itemHeight != 0.0
    ensures n == 0 ==> s == StepResult(r, [])
    ensures n > 0 ==> var i := IndexFromOffset(n, cyclic, offsetY, itemHeight);
      s.refs == r.(previousScrollIndex := Some(i)) &&
      (s.effects == [HapticTick] <==> r.previousScrollIndex != Some(i)) &&
      (s.effects == [] <==> r.previousScrollIndex == Some(i))
  {
    if n == 0 then StepResult(r, [])
    else
      var i := IndexFromOffset(n, cyclic, offsetY, itemHeight);
      if r.previousScrollIndex != Some(i) then StepResult(r.(previousScrollIndex := Some(i)), [HapticTick])
      else StepResult(r, [])
  }

  /**
   * `handleMomentumScrollEnd`: a suppressed end only clears the flag; otherwise
   * `onValueChange` fires with the index under the offset when it differs from the
   * normalised selection.
   */
  function MomentumEndStep(r: Refs, n: nat, cyclic: bool, offsetY: real, itemHeight: real, selectedIndex: int)
    : (s: StepResult)
    requires itemHeight != 0.0
    ensures n == 0 ==> s == StepResult(r, [])
    ensures n > 0 && r.suppressMomentum ==> s == StepResult(r.(suppressMomentum := false), [])
    ensures n > 0 && !r.suppressMomentum ==>
      var i := IndexFromOffset(n, cyclic, offsetY, itemHeight);
      s.refs == r &&
      (i != NormalizeIndex(n, cyclic, selectedIndex) ==> s.effects == [ValueChange(i)]) &&
      (i == NormalizeIndex(n, cyclic, selectedIndex) ==> s.effects == [])
  {
    if n == 0 then StepResult(r, [])
    else if r.suppressMomentum then StepResult(r.(suppressMomentum := false), [])
    else
      var i := IndexFromOffset(n, cyclic, offsetY, itemHeight);
      if i != NormalizeIndex(n, cyclic, selectedIndex) then StepResult(r, [ValueChange(i)]) else StepResult(r, [])
  }

  /**
   * After an animated scroll to a new target, the next momentum end reports
   * nothing, and the one after it is handled as if no scroll had been requested.
   */
  lemma AnimatedScrollSuppressesOnce(r: Refs, n: nat, cyclic: bool, target: int, offset: real,
                                     y1: real, y2: real, itemHeight: real, selectedIndex: int)
    requires n > 0 && itemHeight != 0.0 && r.hasInitialized && r.lastRequestedIndex != Some(target)
    ensures var s0 := ScrollToTargetStep(r, true, n, target, offset);
      var s1 := MomentumEndStep(s0.refs, n, cyclic, y1, itemHeight, selectedIndex);
      var s2 := MomentumEndStep(s1.refs, n, cyclic, y2, itemHeight, selectedIndex);
      s0.refs.suppressMomentum && s1.effects == [] && !s1.refs.suppressMomentum &&
      s2.effects == MomentumEndStep(r.(suppressMomentum := false), n, cyclic, y2, itemHeight, selectedIndex).effects
  {
  }

  /** The hook instance: its props and its refs, with the effects it has issued. */
  class Picker {
    const items: seq<string>
    const cyclic: bool
    const itemHeight: real
    /** `initialOffsetRef`, fixed at the first render. */
    const initialOffset: real
    var refs: Refs
    var effects: seq<Effect>

    constructor (items: seq<string>, cyclic: bool, itemHeight: real, selectedIndex: int)
      ensures this.items == items && this.cyclic == cyclic && this.itemHeight == itemHeight
      ensures initialOffset == TargetOffset(|items|, cyclic, selectedIndex, itemHeight)
      ensures refs == InitialRefs && effects == []
    {
      this.items := items;
      this.cyclic := cyclic;
      this.itemHeight := itemHeight;
      initialOffset := TargetOffset(|items|, cyclic, selectedIndex, itemHeight);
      refs := InitialRefs;
      effects := [];
    }

    /** The effect that scrolls to the current selection after a render. */
    method ScrollToTarget(hasScrollView: bool, selectedIndex: int)
      modifies this
      ensures var s := ScrollToTargetStep(old(refs), hasScrollView, |items|, TargetIndex(|items|, cyclic, selectedIndex),
                                          TargetOffset(|items|, cyclic, selectedIndex, itemHeight));
        refs == s.refs && effects == old(effects) + s.effects
    {
      var n := |items|;
      var target := TargetIndex(n, cyclic, selectedIndex);
      var offset := TargetOffset(n, cyclic, selectedIndex, itemHeight);
      if !hasScrollView || n == 0 {
        return;
      }
      if refs.lastRequestedIndex == Some(target) && refs.hasInitialized {
        return;
      }
      refs := refs.(lastRequestedIndex := Some(target));
      if !refs.hasInitialized {
        refs := refs.(hasInitialized := true);
        effects := effects + [ScrollTo(offset, false)];
        return;
      }
      refs := refs.(suppressMomentum := true);
      effects := effects + [ScrollTo(offset, true)];
    }

    method HandleScroll(offsetY: real)
      requires itemHeight != 0.0
      modifies this
      ensures var s := ScrollStep(old(refs), |items|, cyclic, offsetY, itemHeight);
        refs == s.refs && effects == old(effects) + s.effects
    {
      if |items| == 0 {
        return;
      }
      var normalized := IndexFromOffset(|items|, cyclic, offsetY, itemHeight);
      if refs.previousScrollIndex != Some(normalized) {
        effects := effects + [HapticTick];
        refs := refs.(previousScrollIndex := Some(normalized));
      }
    }

    method HandleMomentumScrollEnd(offsetY: real, selectedIndex: int)
      requires itemHeight != 0.0
      modifies this
      ensures var s := MomentumEndStep(old(refs), |items|, cyclic, offsetY, itemHeight, selectedIndex);
        refs == s.refs && effects == old(effects) + s.effects
    {
      if |items| == 0 {
        return;
      }
      if refs.suppressMomentum {
        refs := refs.(suppressMomentum := false);
        return;
      }
      var normalizedIndex := IndexFromOffset(|items|, cyclic, offsetY, itemHeight);
      if normalizedIndex != NormalizeIndex(|items|, cyclic, selectedIndex) {
        effects := effects + [ValueChange(normalizedIndex)];
      }
    }
  }
}
