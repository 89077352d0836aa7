/** Finding where to start uploading: sparse probes skip a prefix that is already stored. */
module Probes {
  import opened Prelude
  import opened ObjectKeys
  import opened BlockTree
  import opened Services
  import opened Uploads

  const PROBE_STEP: nat := 100

  /** The heights that are probed: from, from + step, ..., up to tip. */
  function ProbeHeights(from: nat, tip: nat, step: nat): (probes: seq<nat>)
    requires from <= tip && step > 0
    ensures |probes| > 0 && probes[0] == from
    ensures forall i :: 0 <= i < |probes| ==> from <= probes[i] <= tip
    decreases tip - from
  {
    if tip - from < step then [from] else [from] + ProbeHeights(from + step, tip, step)
  }

  /** Every step-th height from the first one on, the last of them less than a step below the tip. */
  ghost predicate Spaced(probes: seq<nat>, from: nat, tip: nat, step: nat) {
    && |probes| > 0 && probes[|probes| - 1] <= tip < probes[|probes| - 1] + step
    && forall i :: 0 <= i < |probes| ==> probes[i] == from + i * step
  }

  lemma {:induction false} ProbesAreSpaced(from: nat, tip: nat, step: nat)
    requires from <= tip && step > 0
    ensures Spaced(ProbeHeights(from, tip, step), from, tip, step)
    decreases tip - from
  {
    if tip - from >= step {
      var rest := ProbeHeights(from + step, tip, step);
      ProbesAreSpaced(from + step, tip, step);
      var probes := ProbeHeights(from, tip, step);
      forall i | 0 <= i < |probes| ensures probes[i] == from + i * step {
        if i > 0 {
          assert probes[i] == rest[i - 1];
          StepsAdd(from, i, step);
        }
      }
    }
  }

  lemma StepsAdd(from: nat, i: nat, step: nat)
    requires i > 0
    ensures from + step + (i - 1) * step == from + i * step
  {
  }

  method CollectProbeHeights(from: nat, tip: nat, step: nat) returns (probes: seq<nat>)
    requires from <= tip && step > 0
    ensures probes == ProbeHeights(from, tip, step)
    ensures Spaced(probes, from, tip, step)
  {
    hide Spaced, ProbeHeights;
    ProbesAreSpaced(from, tip, step);
    probes := [];
    var height := from;
    assert probes + ProbeHeights(height, tip, step) == ProbeHeights(from, tip, step);
    while true
      invariant from <= height <= tip
      invariant probes + ProbeHeights(height, tip, step) == ProbeHeights(from, tip, step)
      decreases tip - height
    {
      OneProbe(probes, height, tip, step);
      probes := probes + [height];
      if tip - height < step {
        return;
      }
      height := height + step;
    }
  }

  /** The next height joins those collected before it. */
  lemma OneProbe(before: seq<nat>, height: nat, tip: nat, step: nat)
    requires height <= tip && step > 0
    ensures before + ProbeHeights(height, tip, step)
         == before + [height] + if tip - height < step then [] else ProbeHeights(height + step, tip, step)
  {
    if tip - height >= step {
      SplitFirst(before, height, ProbeHeights(height + step, tip, step));
    }
  }

  lemma SplitFirst(before: seq<nat>, first: nat, rest: seq<nat>)
    ensures before + ([first] + rest) == before + [first] + rest
  {
  }

  /** The window that ends in a missing probe starts right after the probe before it. */
  function PreviousWindowStart(from: nat, missing: nat, step: nat): nat
    requires from <= missing
  {
    if missing - from <= step then from else missing - step
  }

  /** With no probe missing, only the last window is left to look at. */
  function FinalWindowStart(from: nat, tip: nat, window: nat): nat
    requires from <= tip
  {
    if tip - from < window then from else tip - window + 1
  }

  /** The first probe from height h on whose block is missing. */
  function FirstMissing(objects: Objects, chain: seq<Hash>, h: nat, tip: nat, step: nat): (m: Option<nat>)
    requires h <= tip < |chain| && step > 0
    ensures m.Some? ==> h <= m.value <= tip && !Stored(objects, chain, m.value)
    decreases tip - h
  {
    if !Stored(objects, chain, h) then Some(h)
    else if tip - h < step then None
    else FirstMissing(objects, chain, h + step, tip, step)
  }

  function StartAfter(from: nat, tip: nat, step: nat, m: Option<nat>): nat
    requires from <= tip && (m.Some? ==> from <= m.value)
  {
    match m
    case Some(missing) => PreviousWindowStart(from, missing, step)
    case None => FinalWindowStart(from, tip, step)
  }

  /** Where uploading starts. */
  function UploadStart(objects: Objects, chain: seq<Hash>, from: nat, tip: nat, step: nat): nat
    requires from <= tip < |chain|
  {
    if step == 0 then from else StartAfter(from, tip, step, FirstMissing(objects, chain, from, tip, step))
  }

  /** The start lies in the span, whatever the store holds: the subtractions do not wrap. */
  lemma UploadStartInSpan(objects: Objects, chain: seq<Hash>, from: nat, tip: nat, step: nat)
    requires from <= tip < |chain|
    ensures from <= UploadStart(objects, chain, from, tip, step) <= tip
  {
  }

  /** Where that is, told by the probes: at the first height when the first probe is missing, at the probe before the first
      missing one, or, when no probe is missing, at the last window of step heights. */
  lemma UploadStartIs(objects: Objects, chain: seq<Hash>, from: nat, tip: nat, step: nat)
    requires from <= tip < |chain| && step > 0
    ensures var probes, start := ProbeHeights(from, tip, step), UploadStart(objects, chain, from, tip, step);
            && Spaced(probes, from, tip, step)
            && (forall i :: 0 <= i < |probes| && !Stored(objects, chain, probes[i])
                  && (forall j :: 0 <= j < i ==> Stored(objects, chain, probes[j]))
                  ==> start == if i == 0 then from else probes[i - 1])
            && ((forall i :: 0 <= i < |probes| ==> Stored(objects, chain, probes[i]))
                  ==> tip + 1 - start == Min(step, tip + 1 - from))
  {
    hide Stored;
    var probes := ProbeHeights(from, tip, step);
    ProbesAreSpaced(from, tip, step);
    forall i | 0 <= i < |probes| && !Stored(objects, chain, probes[i])
               && (forall j :: 0 <= j < i ==> Stored(objects, chain, probes[j]))
      ensures UploadStart(objects, chain, from, tip, step) == if i == 0 then from else probes[i - 1]
    {
      FirstMissingIs(objects, chain, from, tip, step, i);
      if i > 0 {
        StepsAdd(from, i, step);
        assert probes[i] == probes[i - 1] + step;
      }
    }
    if forall i :: 0 <= i < |probes| ==> Stored(objects, chain, probes[i]) {
      FirstMissingIs(objects, chain, from, tip, step, |probes|);
    }
  }

  lemma {:induction false} FirstMissingIs(objects: Objects, chain: seq<Hash>, h: nat, tip: nat, step: nat, i: nat)
    requires h <= tip < |chain| && step > 0 && i <= |ProbeHeights(h, tip, step)|
    requires forall j :: 0 <= j < i ==> Stored(objects, chain, ProbeHeights(h, tip, step)[j])
    requires i < |ProbeHeights(h, tip, step)| ==> !Stored(objects, chain, ProbeHeights(h, tip, step)[i])
    ensures FirstMissing(objects, chain, h, tip, step)
         == if i < |ProbeHeights(h, tip, step)| then Some(ProbeHeights(h, tip, step)[i]) else None
    decreases tip - h
  {
    hide Stored;
    var probes := ProbeHeights(h, tip, step);
    if i > 0 {
      assert Stored(objects, chain, probes[0]);
      if tip - h >= step {
        var rest := ProbeHeights(h + step, tip, step);
        assert probes == [h] + rest;
        forall j | 0 <= j < i - 1 ensures Stored(objects, chain, rest[j]) {
          assert rest[j] == probes[j + 1];
        }
        FirstMissingIs(objects, chain, h + step, tip, step, i - 1);
      }
    }
  }

  /** Which of the probed blocks are stored, in probe order. */
  function Presence(objects: Objects, chain: seq<Hash>, probes: seq<nat>): seq<bool>
    requires forall i :: 0 <= i < |probes| ==> probes[i] < |chain|
  {
    seq(|probes|, i requires 0 <= i < |probes| => Stored(objects, chain, probes[i]))
  }

  /** The parallel part: workers take probe indexes in turn and answer in any order. */
  method GatherProbes(b: Backend, probes: seq<nat>, workerCount: nat) returns (results: seq<(nat, bool)>, failed: bool)
    requires b.Valid() && workerCount > 0 && forall i :: 0 <= i < |probes| ==> probes[i] < |b.chain|
    modifies b`faults
    ensures b.faults >= old(b.faults) && (failed <==> b.faults > old(b.faults))
    ensures forall k :: 0 <= k < |results| ==>
      results[k].0 < |probes| && results[k].1 == Stored(b.objects, b.chain, probes[results[k].0])
    ensures !failed ==> forall i :: 0 <= i < |probes| ==> Arrived(results, i)
  {
    hide Stored, WellFormed, IsChain, Backend.Valid;
    failed, results := false, [];
    var next, busy: set<nat> := 0, {};
    while next < |probes| || busy != {}
      invariant next <= |probes| && |busy| <= workerCount
      invariant forall i :: i in busy ==> i < next
      invariant forall k :: 0 <= k < |results| ==>
        results[k].0 < |probes| && results[k].1 == Stored(b.objects, b.chain, probes[results[k].0])
      invariant !failed ==> forall i :: 0 <= i < next ==> i in busy || Arrived(results, i)
      invariant b.faults >= old(b.faults) && (failed <==> b.faults > old(b.faults))
      decreases |probes| - next, |busy|
    {
      var takes := *;
      if next < |probes| && (|busy| == 0 || (|busy| < workerCount && takes)) {
        busy, next := busy + {next}, next + 1;
      } else {
        var index :| index in busy;
        var state := GetUploadBlockState(b, probes[index]);
        if state.Failure? {
          failed := true;
        } else {
          ArrivedMore(results, (index, state.value.1));
          results := results + [(index, state.value.1)];
        }
        busy := busy - {index};
      }
    }
  }

  /** Probes in parallel; whichever order the answers arrive in, they come back in probe order. */
  method CheckProbes(b: Backend, probes: seq<nat>, workers: nat) returns (r: Result<seq<bool>, Error>)
    requires b.Valid() && forall i :: 0 <= i < |probes| ==> probes[i] < |b.chain|
    modifies b`faults
    ensures Answers(r, Success(Presence(b.objects, b.chain, probes)), old(b.faults), b.faults)
  {
    hide Stored, WellFormed, IsChain, Backend.Valid;
    if |probes| == 0 {
      assert Presence(b.objects, b.chain, probes) == [];
      return Success([]);
    }
    var workerCount := if workers < 1 then 1 else if workers > |probes| then |probes| else workers;
    var results, failed := GatherProbes(b, probes, workerCount);
    if failed {
      return Failure(Fault);
    }
    var ordered := new bool[|probes|](_ => false);
    for k := 0 to |results|
      invariant b.faults == old(b.faults)
      invariant forall i :: 0 <= i < k ==> ordered[results[i].0] == results[i].1
    {
      ordered[results[k].0] := results[k].1;
    }
    forall i | 0 <= i < |probes| ensures ordered[i] == Stored(b.objects, b.chain, probes[i]) {
      assert Arrived(results, i);
    }
    assert ordered[..] == Presence(b.objects, b.chain, probes);
    return Success(ordered[..]);
  }

  ghost predicate Arrived(results: seq<(nat, bool)>, i: nat) {
    exists k :: 0 <= k < |results| && results[k].0 == i
  }

  lemma ArrivedMore(results: seq<(nat, bool)>, last: (nat, bool))
    ensures Arrived(results + [last], last.0)
    ensures forall i: nat :: Arrived(results, i) ==> Arrived(results + [last], i)
  {
    assert (results + [last])[|results|].0 == last.0;
    forall i: nat | Arrived(results, i) ensures Arrived(results + [last], i) {
      var k :| 0 <= k < |results| && results[k].0 == i;
      assert (results + [last])[k].0 == i;
    }
  }

  lemma NextProbe(objects: Objects, chain: seq<Hash>, height: nat, tip: nat, step: nat)
    requires height <= tip < |chain| && step > 0
    ensures var probes, missing := ProbeHeights(height, tip, step), FirstMissing(objects, chain, height, tip, step);
            && probes[0] == height
            && (tip - height < step ==> |probes| == 1)
            && (tip - height >= step ==> probes[1..] == ProbeHeights(height + step, tip, step))
            && (!Stored(objects, chain, height) ==> missing == Some(height))
            && (Stored(objects, chain, height) ==>
                  missing == if tip - height < step then None else FirstMissing(objects, chain, height + step, tip, step))
  {
    hide Stored;
  }

  method FindUploadStart(b: Backend, from: nat, tip: nat, step: nat, workers: nat) returns (r: Result<nat, Error>)
    requires b.Valid() && from <= tip < |b.chain|
    modifies b`faults
    ensures Answers(r, Success(UploadStart(b.objects, b.chain, from, tip, step)), old(b.faults), b.faults)
  {
    hide Stored, WellFormed, IsChain, Backend.Valid, PreviousWindowStart, FinalWindowStart, ProbeHeights, FirstMissing;
    if step == 0 {
      return Success(from);
    }
    var probes := CollectProbeHeights(from, tip, step);
    var results := CheckProbes(b, probes, workers);
    if results.Failure? {
      return Failure(results.error);
    }
    ghost var height := from;
    for i := 0 to |probes|
      invariant b.faults == old(b.faults)
      invariant i < |probes| ==> from <= height <= tip && probes[i..] == ProbeHeights(height, tip, step)
      invariant i < |probes| ==>
        FirstMissing(b.objects, b.chain, from, tip, step) == FirstMissing(b.objects, b.chain, height, tip, step)
      invariant i == |probes| ==> FirstMissing(b.objects, b.chain, from, tip, step).None?
    {
      assert probes[i] == probes[i..][0];
      NextProbe(b.objects, b.chain, height, tip, step);
      if !results.value[i] {
        return Success(PreviousWindowStart(from, probes[i], step));
      }
      if tip - height < step {
        assert |probes[i..]| == 1;
      } else {
        height := height + step;
        assert probes[i + 1..] == probes[i..][1..];
      }
    }
    return Success(FinalWindowStart(from, tip, step));
  }

  /** Uploads [from, tip], skipping what the probes allow. */
  method UploadBlocks(b: Backend, from: nat, tip: nat, workers: nat) returns (r: Result<nat, Error>)
    requires b.Valid() && tip < |b.chain|
    modifies b`faults, b`objects
    ensures Answers(r, Success(|b.objects| - |old(b.objects)|), old(b.faults), b.faults)
    ensures from > tip ==> b.objects == old(b.objects) && b.faults == old(b.faults)
    ensures from <= tip ==>
              SpanUploaded(b.tree, b.chain, old(b.objects), b.objects,
                           UploadStart(old(b.objects), b.chain, from, tip, PROBE_STEP), tip, b.faults == old(b.faults))
    ensures from <= tip && workers <= 1 ==>
              InOrder(b.chain, old(b.objects), b.objects, UploadStart(old(b.objects), b.chain, from, tip, PROBE_STEP), tip)
  {
    hide AddBlocks, WellFormed, IsChain, SpanUploaded, UploadStart, Stored, Backend.Valid, InOrder;
    if from > tip {
      return Success(0);
    }
    b.ShowsChain();
    var start := FindUploadStart(b, from, tip, PROBE_STEP, workers);
    UploadStartInSpan(b.objects, b.chain, from, tip, PROBE_STEP);
    NothingUploaded(b.tree, b.chain, b.objects, UploadStart(b.objects, b.chain, from, tip, PROBE_STEP), tip);
    if start.Failure? {
      return Failure(start.error);
    }
    r := UploadBlocksFrom(b, start.value, tip, workers);
  }

  lemma NothingUploaded(tree: Tree, chain: seq<Hash>, objects: Objects, from: nat, tip: nat)
    requires IsChain(tree, chain) && from <= tip < |chain|
    ensures SpanUploaded(tree, chain, objects, objects, from, tip, false)
    ensures InOrder(chain, objects, objects, from, tip)
  {
    PartlyUploaded(tree, chain, objects, from, from, tip);
    AddBlocksNone(tree, objects, chain, from, from);
  }

  // ----- what probing can and cannot promise

  /** After a clean upload the span is complete exactly when nothing was missing below the start. */
  lemma CompleteIff(tree: Tree, objects: Objects, chain: seq<Hash>, from: nat, tip: nat, step: nat)
    requires IsChain(tree, chain) && from <= tip < |chain|
    ensures var start := UploadStart(objects, chain, from, tip, step);
            var after := AddBlocks(tree, objects, chain, start, tip + 1);
            (forall h :: from <= h <= tip ==> Stored(after, chain, h)) <==> (forall h :: from <= h < start ==> Stored(objects, chain, h))
  {
    var start := UploadStart(objects, chain, from, tip, step);
    var after := AddBlocks(tree, objects, chain, start, tip + 1);
    UploadStartInSpan(objects, chain, from, tip, step);
    AddBlocksGrows(tree, objects, chain, start, tip + 1);
    forall h | from <= h < start ensures Stored(after, chain, h) <==> Stored(objects, chain, h) {
      BlockKeyFresh(tree, chain, start, tip + 1, h);
    }
  }

  /** From probe p on, a probed block that is there vouches for the blocks back to the probe before it. */
  ghost predicate ProbesVouch(objects: Objects, chain: seq<Hash>, p: nat, tip: nat, step: nat)
    requires p <= tip < |chain| && step > 0
    decreases tip - p
  {
    tip - p < step
    || ((Stored(objects, chain, p + step) ==> forall h :: p < h <= p + step ==> Stored(objects, chain, h))
        && ProbesVouch(objects, chain, p + step, tip, step))
  }

  /** What is stored of the span is a prefix of it. */
  ghost predicate NoGaps(objects: Objects, chain: seq<Hash>, from: nat, tip: nat)
    requires tip < |chain|
  {
    forall h, p :: from <= h <= p <= tip && Stored(objects, chain, p) ==> Stored(objects, chain, h)
  }

  lemma {:induction false} NoGapsVouch(objects: Objects, chain: seq<Hash>, from: nat, p: nat, tip: nat, step: nat)
    requires from <= p <= tip < |chain| && step > 0 && NoGaps(objects, chain, from, tip)
    ensures ProbesVouch(objects, chain, p, tip, step)
    decreases tip - p
  {
    if tip - p >= step {
      NoGapsVouch(objects, chain, from, p + step, tip, step);
    }
  }

  /** When probes vouch, every height below the start is stored, so a clean upload completes the span. */
  lemma VouchedStart(objects: Objects, chain: seq<Hash>, from: nat, tip: nat, step: nat)
    requires from <= tip < |chain| && step > 0 && ProbesVouch(objects, chain, from, tip, step)
    ensures forall h :: from <= h < UploadStart(objects, chain, from, tip, step) ==> Stored(objects, chain, h)
  {
    VouchedFrom(objects, chain, from, from, tip, step);
  }

  lemma {:induction false} VouchedFrom(objects: Objects, chain: seq<Hash>, from: nat, p: nat, tip: nat, step: nat)
    requires from <= p <= tip < |chain| && step > 0 && ProbesVouch(objects, chain, p, tip, step)
    requires forall h :: from <= h < p ==> Stored(objects, chain, h)
    ensures forall h :: from <= h < StartAfter(from, tip, step, FirstMissing(objects, chain, p, tip, step)) ==> Stored(objects, chain, h)
    decreases tip - p
  {
    if Stored(objects, chain, p) && tip - p >= step && Stored(objects, chain, p + step) {
      VouchedFrom(objects, chain, from, p + step, tip, step);
    }
  }

  /** All blocks of the chain but the one at height 1, which no probe looks at. */
  ghost function AllButOne(tree: Tree, chain: seq<Hash>): Objects
    requires IsChain(tree, chain) && |chain| > 1
  {
    AddBlocks(tree, AddBlocks(tree, map[], chain, 0, 1), chain, 2, |chain|)
  }

  lemma AllButOneHas(tree: Tree, chain: seq<Hash>)
    requires IsChain(tree, chain) && |chain| > 1
    ensures forall h: nat :: h < |chain| ==> (Stored(AllButOne(tree, chain), chain, h) <==> h != 1)
    ensures Grew(AllButOne(tree, chain), AddBlocks(tree, map[], chain, 0, |chain|))
    ensures forall k :: k in AllButOne(tree, chain) ==> k.Block?
  {
    var first := AddBlocks(tree, map[], chain, 0, 1);
    AddBlocksGrows(tree, map[], chain, 0, 1);
    AddBlocksGrows(tree, first, chain, 2, |chain|);
    BlockKeyFresh(tree, chain, 0, 1, 1);
    BlockKeyFresh(tree, chain, 2, |chain|, 1);
    assert Stored(first, chain, 0);
    forall k | k in AllButOne(tree, chain) ensures k in BlockKeys(chain, 0, |chain|) {
      if k in BlockKeys(chain, 2, |chain|) {
        var h :| 2 <= h < |chain| && k == Block(chain[h]);
      }
    }
  }

  /** Probing does not see a gap between probes: on every chain of more than PROBE_STEP + 1 blocks there is a store
      for which a clean upload of the whole chain leaves a block out. */
  lemma GapIsLeft(tree: Tree, chain: seq<Hash>)
    requires IsChain(tree, chain) && |chain| > PROBE_STEP + 1
    ensures var tip := |chain| - 1;
            var objects := AllButOne(tree, chain);
            var start := UploadStart(objects, chain, 0, tip, PROBE_STEP);
            start > 1 && !Stored(AddBlocks(tree, objects, chain, start, tip + 1), chain, 1)
  {
    hide AllButOne, IsChain;
    var tip, objects := |chain| - 1, AllButOne(tree, chain);
    AllButOneHas(tree, chain);
    NoneMissing(objects, chain, 0, tip, PROBE_STEP);
    assert !Stored(objects, chain, 1);
    BlockKeyFresh(tree, chain, tip - PROBE_STEP + 1, tip + 1, 1);
  }

  lemma {:induction false} NoneMissing(objects: Objects, chain: seq<Hash>, p: nat, tip: nat, step: nat)
    requires p <= tip < |chain| && step > 1 && p != 1
    requires forall h :: p <= h <= tip && h != 1 ==> Stored(objects, chain, h)
    ensures FirstMissing(objects, chain, p, tip, step).None?
    decreases tip - p
  {
    if tip - p >= step {
      NoneMissing(objects, chain, p + step, tip, step);
    }
  }

  /** A second look changes nothing: once [start, tip] is uploaded, the probes send the uploader to a start at or
      above the first one, so every block it then looks at is there. */
  lemma SecondStart(tree: Tree, objects: Objects, chain: seq<Hash>, from: nat, tip: nat, step: nat)
    requires IsChain(tree, chain) && from <= tip < |chain| && step > 0
    ensures var start := UploadStart(objects, chain, from, tip, step);
            var after := AddBlocks(tree, objects, chain, start, tip + 1);
            var again := UploadStart(after, chain, from, tip, step);
            start <= again && AddBlocks(tree, after, chain, again, tip + 1) == after
  {
    hide UploadStart, AddBlocks, IsChain, Stored;
    var start := UploadStart(objects, chain, from, tip, step);
    var after := AddBlocks(tree, objects, chain, start, tip + 1);
    UploadStartInSpan(objects, chain, from, tip, step);
    AddBlocksGrows(tree, objects, chain, start, tip + 1);
    SecondIsHigher(objects, after, chain, from, tip, step);
    UploadStartInSpan(after, chain, from, tip, step);
    AddBlocksNone(tree, after, chain, UploadStart(after, chain, from, tip, step), tip + 1);
  }

  lemma SecondIsHigher(objects: Objects, after: Objects, chain: seq<Hash>, from: nat, tip: nat, step: nat)
    requires from <= tip < |chain| && step > 0 && Grew(objects, after)
    requires forall h :: UploadStart(objects, chain, from, tip, step) <= h <= tip ==> Stored(after, chain, h)
    ensures UploadStart(objects, chain, from, tip, step) <= UploadStart(after, chain, from, tip, step)
  {
    hide Stored;
    AllProbesFound(objects, after, chain, from, from, tip, step);
  }

  lemma {:induction false} AllProbesFound(objects: Objects, after: Objects, chain: seq<Hash>, from: nat, p: nat,
          tip: nat, step: nat)
    requires from <= p <= tip < |chain| && step > 0 && Grew(objects, after)
    requires match FirstMissing(objects, chain, p, tip, step)
             case Some(m) => forall h :: m <= h <= tip ==> Stored(after, chain, h)
             case None => true
    ensures FirstMissing(after, chain, p, tip, step).None?
    decreases tip - p
  {
    if tip - p >= step {
      if Stored(objects, chain, p) {
        AllProbesFound(objects, after, chain, from, p + step, tip, step);
      } else {
        AllStored(after, chain, p + step, tip, step);
      }
    }
  }

  lemma {:induction false} AllStored(after: Objects, chain: seq<Hash>, p: nat, tip: nat, step: nat)
    requires p <= tip < |chain| && step > 0 && forall h :: p <= h <= tip ==> Stored(after, chain, h)
    ensures FirstMissing(after, chain, p, tip, step).None?
    decreases tip - p
  {
    if tip - p >= step {
      AllStored(after, chain, p + step, tip, step);
    }
  }
}
