/** `on_resize_button_clicked`: the loop over the chosen directory that
    logs, scales and reports progress for every JPEG entry. */
module Batch {
  import opened JpgFilter
  import opened Events
  import opened Scanner
  import opened Scaler

  /** What the source demands of every entry it will scale. */
  predicate AllScalable(ctx: Context, names: seq<string>)
  {
    forall j :: 0 <= j < |names| && IsJpgName(names[j]) ==> Scalable(ctx, names[j])
  }

  function OpenFailedMessage(dir: string): string
  {
    "Failed to open directory: " + dir + "\n"
  }

  function ScalingMessage(name: string): string
  {
    "Scaling: " + name + "\n"
  }

  /** The events of one selected entry, in the order the callback
      produces them: the log line, the effect of `scale_img`, the progress. */
  function Step(name: string, effect: Event, num: int, den: int): seq<Event>
  {
    [Append(ScalingMessage(name)), effect, Fraction(num, den)]
  }

  /** The loop as written: the counter advances on every entry, so the
      numerator of an entry's progress is its position in the whole
      listing plus one. */
  function LoopEvents(ctx: Context, names: seq<string>, count: int): (evs: seq<Event>)
    requires AllScalable(ctx, names)
    ensures |evs| == 3 * |Selected(names)|
  {
    if names == [] then []
    else
      var k := |names| - 1;
      LoopEvents(ctx, names[..k], count)
        + (if IsJpgName(names[k]) then Step(names[k], ScaleImg(ctx, names[k]), k + 1, count) else [])
  }

  /** The whole callback. The directory is opened once for the loop
      (`listed`) and once more by `count_jpg_files` (`counted`); the two
      listings are separate inputs. */
  function BatchEvents(ctx: Context, listed: Listing, counted: Listing): seq<Event>
    requires listed.Entries? ==> AllScalable(ctx, listed.names)
  {
    match listed
    case Unopenable => [Stdout(OpenFailedMessage(ctx.dir))]
    case Entries(names) =>
      (if counted.Unopenable? then [Stderr(CannotOpenMessage(ctx.dir))] else [])
        + LoopEvents(ctx, names, JpgCount(counted))
  }

  lemma PrefixScalable(ctx: Context, names: seq<string>, i: nat)
    requires AllScalable(ctx, names) && i <= |names|
    ensures AllScalable(ctx, names[..i])
  {
    assert forall j :: 0 <= j < i ==> names[..i][j] == names[j];
  }

  /** One more entry of the listing adds its events, if any, at the end. */
  lemma LoopEventsExtend(ctx: Context, names: seq<string>, i: nat, count: int)
    requires AllScalable(ctx, names) && i < |names|
    ensures AllScalable(ctx, names[..i]) && AllScalable(ctx, names[..i + 1])
    ensures LoopEvents(ctx, names[..i + 1], count) == LoopEvents(ctx, names[..i], count)
      + (if IsJpgName(names[i]) then Step(names[i], ScaleImg(ctx, names[i]), i + 1, count) else [])
  {
    PrefixScalable(ctx, names, i);
    PrefixScalable(ctx, names, i + 1);
    assert names[..i + 1][..i] == names[..i];
  }

  /** The callback: nothing but a console message when the directory
      cannot be opened; otherwise the count's diagnostics, then the loop. */
  method ResizeBatch(ctx: Context, listed: Listing, counted: Listing) returns (events: seq<Event>)
    requires listed.Entries? ==> AllScalable(ctx, listed.names)
    ensures events == BatchEvents(ctx, listed, counted)
    ensures listed.Unopenable? ==> events == [Stdout(OpenFailedMessage(ctx.dir))]
  {
    match listed
    case Unopenable =>
      events := [Stdout(OpenFailedMessage(ctx.dir))];
    case Entries(names) =>
      var count, diagnostics := CountJpgFiles(ctx.dir, counted);
      assert count == JpgCount(counted);
      var processed := ScaleEntries(ctx, names, count);
      events := diagnostics + processed;
  }

  /** The loop over the entries: the counter `i` advances on every entry,
      selected or not. */
  method ScaleEntries(ctx: Context, names: seq<string>, count: int) returns (events: seq<Event>)
    requires AllScalable(ctx, names)
    ensures events == LoopEvents(ctx, names, count)
  {
    events := [];
    var i := 0;
    PrefixScalable(ctx, names, 0);
    while i < |names|
      invariant 0 <= i <= |names|
      invariant AllScalable(ctx, names[..i])
      invariant events == LoopEvents(ctx, names[..i], count)
    {
      LoopEventsExtend(ctx, names, i, count);
      var file := names[i];
      if IsJpgName(file) {
        events := events + [Append(ScalingMessage(file))];
        events := events + [ScaleImg(ctx, file)];
        events := events + [Fraction(i + 1, count)];
      }
      i := i + 1;
    }
    assert names[..i] == names;
  }

  // ---------------------------------------------------------------------
  // The shape of the event sequence

  /** The numerators as written: one past each position. */
  function Successors(positions: seq<nat>): seq<int>
  {
    if positions == [] then []
    else Successors(positions[..|positions| - 1]) + [positions[|positions| - 1] + 1]
  }

  lemma {:induction false} SuccessorsAt(positions: seq<nat>)
    ensures |Successors(positions)| == |positions|
    ensures forall k :: 0 <= k < |positions| ==> Successors(positions)[k] == positions[k] + 1
  {
    if positions != [] {
      SuccessorsAt(positions[..|positions| - 1]);
    }
  }

  /** The effects of `scale_img` on `files`, one per file, in order. */
  function ScaleEffects(ctx: Context, files: seq<string>): (effects: seq<Event>)
    requires forall k :: 0 <= k < |files| ==> Scalable(ctx, files[k])
    ensures |effects| == |files|
  {
    if files == [] then []
    else ScaleEffects(ctx, files[..|files| - 1]) + [ScaleImg(ctx, files[|files| - 1])]
  }

  predicate NoFractions(effects: seq<Event>)
  {
    forall k :: 0 <= k < |effects| ==> !effects[k].Fraction?
  }

  lemma {:induction false} ScaleEffectsAt(ctx: Context, files: seq<string>)
    requires forall k :: 0 <= k < |files| ==> Scalable(ctx, files[k])
    ensures |ScaleEffects(ctx, files)| == |files|
    ensures forall k :: 0 <= k < |files| ==> ScaleEffects(ctx, files)[k] == ScaleImg(ctx, files[k])
    ensures NoFractions(ScaleEffects(ctx, files))
  {
    if files != [] {
      var m := |files| - 1;
      ScaleEffectsAt(ctx, files[..m]);
      forall k | 0 <= k < m ensures files[..m][k] == files[k] { }
    }
  }

  /** The events of a run that processes `files` in order, the k-th with
      effect `effects[k]` and progress `nums[k] / den`. */
  function Steps(files: seq<string>, effects: seq<Event>, nums: seq<int>, den: int): seq<Event>
    requires |files| == |effects| == |nums|
  {
    if files == [] then []
    else
      var m := |files| - 1;
      Steps(files[..m], effects[..m], nums[..m], den) + Step(files[m], effects[m], nums[m], den)
  }

  /** Each processed file contributes three consecutive events: its log
      line, its effect and its progress. */
  lemma {:induction false} StepsLayout(files: seq<string>, effects: seq<Event>, nums: seq<int>, den: int)
    requires |files| == |effects| == |nums|
    ensures |Steps(files, effects, nums, den)| == 3 * |files|
    ensures forall k :: 0 <= k < |files| ==>
      && Steps(files, effects, nums, den)[3 * k] == Append(ScalingMessage(files[k]))
      && Steps(files, effects, nums, den)[3 * k + 1] == effects[k]
      && Steps(files, effects, nums, den)[3 * k + 2] == Fraction(nums[k], den)
  {
    if files != [] {
      var m := |files| - 1;
      var init := Steps(files[..m], effects[..m], nums[..m], den);
      var evs := Steps(files, effects, nums, den);
      StepsLayout(files[..m], effects[..m], nums[..m], den);
      forall k | 0 <= k < |files|
        ensures && evs[3 * k] == Append(ScalingMessage(files[k]))
                && evs[3 * k + 1] == effects[k]
                && evs[3 * k + 2] == Fraction(nums[k], den)
      {
        if k < m {
          assert evs[3 * k] == init[3 * k] && evs[3 * k + 1] == init[3 * k + 1] && evs[3 * k + 2] == init[3 * k + 2];
          assert files[..m][k] == files[k] && effects[..m][k] == effects[k] && nums[..m][k] == nums[k];
        }
      }
    }
  }

  lemma FractionsOfStep(name: string, effect: Event, num: int, den: int)
    requires !effect.Fraction?
    ensures Fractions(Step(name, effect, num, den)) == [Fraction(num, den)]
  {
    var step := Step(name, effect, num, den);
    assert [step[0]][..0] == [];
    assert Fractions([step[0]]) == [];
    assert [step[0], step[1]][..1] == [step[0]];
    assert Fractions([step[0], step[1]]) == [];
    assert step[..2] == [step[0], step[1]];
  }

  /** When no effect is a progress setting, the progress settings of a run
      are those of its files, in order. */
  lemma {:induction false} StepsFractions(files: seq<string>, effects: seq<Event>, nums: seq<int>, den: int)
    requires |files| == |effects| == |nums| && NoFractions(effects)
    ensures |Fractions(Steps(files, effects, nums, den))| == |nums|
    ensures forall k :: 0 <= k < |nums| ==> Fractions(Steps(files, effects, nums, den))[k] == Fraction(nums[k], den)
  {
    if files != [] {
      var m := |files| - 1;
      var init := Steps(files[..m], effects[..m], nums[..m], den);
      var step := Step(files[m], effects[m], nums[m], den);
      assert NoFractions(effects[..m]) by {
        forall k | 0 <= k < m ensures effects[..m][k] == effects[k] { }
      }
      StepsFractions(files[..m], effects[..m], nums[..m], den);
      FractionsAppend(init, step);
      FractionsOfStep(files[m], effects[m], nums[m], den);
      forall k | 0 <= k < m ensures nums[..m][k] == nums[k] { }
    }
  }

  lemma {:induction false} SelectedScalable(ctx: Context, names: seq<string>)
    requires AllScalable(ctx, names)
    ensures forall k :: 0 <= k < |Selected(names)| ==> Scalable(ctx, Selected(names)[k])
  {
    PositionsAt(names);
    PositionsComplete(names);
  }

  /** The loop processes exactly the selected entries, in listing order,
      each reporting one past its position in the listing. */
  lemma {:induction false} LoopIsSteps(ctx: Context, names: seq<string>, count: int)
    requires AllScalable(ctx, names)
    ensures |Selected(names)| == |Successors(Positions(names))|
    ensures forall k :: 0 <= k < |Selected(names)| ==> Scalable(ctx, Selected(names)[k])
    ensures LoopEvents(ctx, names, count)
      == Steps(Selected(names), ScaleEffects(ctx, Selected(names)), Successors(Positions(names)), count)
  {
    PositionsLength(names);
    SuccessorsAt(Positions(names));
    SelectedScalable(ctx, names);
    ScaleEffectsAt(ctx, Selected(names));
    if names != [] {
      var k := |names| - 1;
      var init := names[..k];
      LoopIsSteps(ctx, init, count);
      var sel, nums := Selected(names), Successors(Positions(names));
      if IsJpgName(names[k]) {
        assert Positions(names) == Positions(init) + [k];
        assert Positions(names)[..|Positions(names)| - 1] == Positions(init);
        assert sel == Selected(init) + [names[k]];
        assert sel[..|sel| - 1] == Selected(init);
        assert nums[..|nums| - 1] == Successors(Positions(init));
        assert nums[|nums| - 1] == k + 1;
      } else {
        assert Positions(names) == Positions(init);
        assert sel == Selected(init);
      }
    }
  }

  // ---------------------------------------------------------------------
  // Properties of one batch over a directory listed the same way twice

  /** With both listings alike, the callback's events are its loop's. */
  lemma BatchIsLoop(ctx: Context, names: seq<string>)
    requires AllScalable(ctx, names)
    ensures BatchEvents(ctx, Entries(names), Entries(names)) == LoopEvents(ctx, names, |Selected(names)|)
  {
    assert [] + LoopEvents(ctx, names, |Selected(names)|) == LoopEvents(ctx, names, |Selected(names)|);
  }

  /** The loop yields, for the k-th selected entry, its log line, its
      effect and its progress at positions 3k, 3k+1 and 3k+2, the progress
      numbered one past the entry's position in the listing. */
  lemma LoopInListingOrder(ctx: Context, names: seq<string>, count: int, k: nat)
    requires AllScalable(ctx, names) && k < |Selected(names)|
    ensures k < |Positions(names)|
    ensures forall j :: 0 <= j < |Selected(names)| ==> Scalable(ctx, Selected(names)[j])
    ensures |LoopEvents(ctx, names, count)| == 3 * |Selected(names)|
    ensures LoopEvents(ctx, names, count)[3 * k] == Append(ScalingMessage(Selected(names)[k]))
    ensures LoopEvents(ctx, names, count)[3 * k + 1] == ScaleEffects(ctx, Selected(names))[k]
    ensures LoopEvents(ctx, names, count)[3 * k + 2] == Fraction(Positions(names)[k] + 1, count)
  {
    LoopIsSteps(ctx, names, count);
    PositionsLength(names);
    SuccessorsAt(Positions(names));
    StepsLayout(Selected(names), ScaleEffects(ctx, Selected(names)), Successors(Positions(names)), count);
  }

  /** For the batch as a whole: the k-th selected entry yields its log
      line, the effect of its `scale_img` call and its progress, in that
      order, at positions 3k to 3k+2, and nothing else is emitted; the
      progress numerator is the entry's listing position plus one and the
      denominator is the number of selected entries. */
  lemma BatchInListingOrder(ctx: Context, names: seq<string>, k: nat)
    requires AllScalable(ctx, names) && k < |Selected(names)|
    ensures k < |Positions(names)|
    ensures forall j :: 0 <= j < |Selected(names)| ==> Scalable(ctx, Selected(names)[j])
    ensures var evs := BatchEvents(ctx, Entries(names), Entries(names));
      var sel := Selected(names);
      && |evs| == 3 * |sel|
      && evs[3 * k] == Append(ScalingMessage(sel[k]))
      && evs[3 * k + 1] == ScaleImg(ctx, sel[k])
      && evs[3 * k + 2] == Fraction(Positions(names)[k] + 1, |sel|)
  {
    LoopInListingOrder(ctx, names, |Selected(names)|, k);
    ScaleEffectsAt(ctx, Selected(names));
    BatchIsLoop(ctx, names);
  }

  /** A listing without JPEG names gives no event at all. */
  lemma NoJpgNoEvents(ctx: Context, names: seq<string>)
    requires AllScalable(ctx, names) && Selected(names) == []
    ensures BatchEvents(ctx, Entries(names), Entries(names)) == []
  {
    BatchIsLoop(ctx, names);
    LoopIsSteps(ctx, names, 0);
  }

  /** The progress settings of a batch: one per selected entry, one past
      its listing position over the number of selected entries. */
  lemma {:induction false} BatchFractions(ctx: Context, names: seq<string>)
    requires AllScalable(ctx, names)
    ensures |Positions(names)| == |Selected(names)|
    ensures var fr := Fractions(BatchEvents(ctx, Entries(names), Entries(names)));
      && |fr| == |Selected(names)|
      && forall k :: 0 <= k < |fr| ==> fr[k] == Fraction(Positions(names)[k] + 1, |Selected(names)|)
  {
    var sel := Selected(names);
    var nums := Successors(Positions(names));
    LoopIsSteps(ctx, names, |sel|);
    ScaleEffectsAt(ctx, sel);
    StepsFractions(sel, ScaleEffects(ctx, sel), nums, |sel|);
    SuccessorsAt(Positions(names));
    BatchIsLoop(ctx, names);
  }

  /** The progress numerators strictly increase, and the denominator is
      always the number of selected entries. */
  lemma {:induction false} ProgressIncreases(ctx: Context, names: seq<string>)
    requires AllScalable(ctx, names)
    ensures var fr := Fractions(BatchEvents(ctx, Entries(names), Entries(names)));
      && |fr| == |Selected(names)|
      && (forall k :: 0 <= k < |fr| ==> fr[k].Fraction? && fr[k].den == |Selected(names)|)
      && (forall k1, k2 :: 0 <= k1 < k2 < |fr| ==> fr[k1].num < fr[k2].num)
  {
    BatchFractions(ctx, names);
    PositionsIncrease(names);
  }

  /** The last progress setting is that of the last selected entry, at
      position `p`, and it reaches 1 exactly when every entry up to `p` is
      selected. */
  lemma {:induction false} LastProgress(ctx: Context, names: seq<string>)
    requires AllScalable(ctx, names) && |Selected(names)| > 0
    ensures |Positions(names)| == |Selected(names)|
    ensures var n := |Selected(names)|;
      var fr := Fractions(BatchEvents(ctx, Entries(names), Entries(names)));
      var p := Positions(names)[n - 1];
      && p < |names| && IsJpgName(names[p])
      && (forall j :: p < j < |names| ==> !IsJpgName(names[j]))
      && |fr| == n && fr[n - 1] == Fraction(p + 1, n)
      && (fr[n - 1].num == fr[n - 1].den <==> forall j :: 0 <= j <= p ==> IsJpgName(names[j]))
  {
    BatchFractions(ctx, names);
    LastSelected(names);
  }

  /** As written, the k-th progress setting is never below (k + 1) / n,
      the corrected loop's k-th setting, so the bar runs ahead and never
      ends short of 1. */
  lemma ProgressNeverBehind(ctx: Context, names: seq<string>)
    requires AllScalable(ctx, names)
    ensures var n := |Selected(names)|;
      var fr := Fractions(BatchEvents(ctx, Entries(names), Entries(names)));
      && |fr| == n
      && (forall k :: 0 <= k < n ==> fr[k].Fraction? && fr[k].den == n && fr[k].num >= k + 1)
      && (n > 0 ==> fr[n - 1].num >= fr[n - 1].den)
  {
    BatchFractions(ctx, names);
    PositionsAtLeastRank(names);
  }

  // ---------------------------------------------------------------------
  // The progress the loop evidently intends: one step per selected file

  /** The loop with the counter advanced only on selected entries, as the
      threaded variant of the program does with its list of JPEG names. */
  function IntendedLoopEvents(ctx: Context, names: seq<string>, count: int): seq<Event>
    requires AllScalable(ctx, names)
  {
    if names == [] then []
    else
      var k := |names| - 1;
      IntendedLoopEvents(ctx, names[..k], count)
        + (if IsJpgName(names[k]) then Step(names[k], ScaleImg(ctx, names[k]), |Selected(names[..k])| + 1, count) else [])
  }

  function IntendedBatchEvents(ctx: Context, listed: Listing, counted: Listing): seq<Event>
    requires listed.Entries? ==> AllScalable(ctx, listed.names)
  {
    match listed
    case Unopenable => [Stdout(OpenFailedMessage(ctx.dir))]
    case Entries(names) =>
      (if counted.Unopenable? then [Stderr(CannotOpenMessage(ctx.dir))] else [])
        + IntendedLoopEvents(ctx, names, JpgCount(counted))
  }

  lemma IntendedLoopEventsExtend(ctx: Context, names: seq<string>, i: nat, count: int)
    requires AllScalable(ctx, names) && i < |names|
    ensures AllScalable(ctx, names[..i]) && AllScalable(ctx, names[..i + 1])
    ensures Selected(names[..i + 1]) == Selected(names[..i]) + (if IsJpgName(names[i]) then [names[i]] else [])
    ensures IntendedLoopEvents(ctx, names[..i + 1], count) == IntendedLoopEvents(ctx, names[..i], count)
      + (if IsJpgName(names[i]) then Step(names[i], ScaleImg(ctx, names[i]), |Selected(names[..i])| + 1, count) else [])
  {
    PrefixScalable(ctx, names, i);
    PrefixScalable(ctx, names, i + 1);
    assert names[..i + 1][..i] == names[..i];
  }

  method ResizeBatchCorrected(ctx: Context, listed: Listing, counted: Listing) returns (events: seq<Event>)
    requires listed.Entries? ==> AllScalable(ctx, listed.names)
    ensures events == IntendedBatchEvents(ctx, listed, counted)
  {
    match listed
    case Unopenable =>
      events := [Stdout(OpenFailedMessage(ctx.dir))];
    case Entries(names) =>
      var count, diagnostics := CountJpgFiles(ctx.dir, counted);
      assert count == JpgCount(counted);
      var processed := ScaleEntriesCorrected(ctx, names, count);
      events := diagnostics + processed;
  }

  /** The loop with a second counter, `done`, that advances only on the
      entries it scales and gives the progress numerator. */
  method ScaleEntriesCorrected(ctx: Context, names: seq<string>, count: int) returns (events: seq<Event>)
    requires AllScalable(ctx, names)
    ensures events == IntendedLoopEvents(ctx, names, count)
  {
    events := [];
    var i, done := 0, 0;
    PrefixScalable(ctx, names, 0);
    while i < |names|
      invariant 0 <= i <= |names|
      invariant done == |Selected(names[..i])|
      invariant AllScalable(ctx, names[..i])
      invariant events == IntendedLoopEvents(ctx, names[..i], count)
    {
      IntendedLoopEventsExtend(ctx, names, i, count);
      var file := names[i];
      if IsJpgName(file) {
        events := events + [Append(ScalingMessage(file))];
        events := events + [ScaleImg(ctx, file)];
        events := events + [Fraction(done + 1, count)];
        done := done + 1;
      }
      i := i + 1;
    }
    assert names[..i] == names;
  }

  /** 1, 2, ..., n. */
  function Ordinals(n: nat): seq<int>
  {
    if n == 0 then [] else Ordinals(n - 1) + [n]
  }

  lemma {:induction false} OrdinalsAt(n: nat)
    ensures |Ordinals(n)| == n && forall k :: 0 <= k < n ==> Ordinals(n)[k] == k + 1
  {
    if n > 0 {
      OrdinalsAt(n - 1);
    }
  }

  lemma {:induction false} IntendedIsSteps(ctx: Context, names: seq<string>, count: int)
    requires AllScalable(ctx, names)
    ensures forall k :: 0 <= k < |Selected(names)| ==> Scalable(ctx, Selected(names)[k])
    ensures |Ordinals(|Selected(names)|)| == |Selected(names)|
    ensures IntendedLoopEvents(ctx, names, count)
      == Steps(Selected(names), ScaleEffects(ctx, Selected(names)), Ordinals(|Selected(names)|), count)
  {
    SelectedScalable(ctx, names);
    OrdinalsAt(|Selected(names)|);
    ScaleEffectsAt(ctx, Selected(names));
    if names != [] {
      var k := |names| - 1;
      var init := names[..k];
      IntendedIsSteps(ctx, init, count);
      var sel := Selected(names);
      if IsJpgName(names[k]) {
        assert sel == Selected(init) + [names[k]];
        assert sel[..|sel| - 1] == Selected(init);
        assert Ordinals(|sel|) == Ordinals(|Selected(init)|) + [|Selected(init)| + 1];
      } else {
        assert sel == Selected(init);
      }
    }
  }

  /** With the corrected counter, the progress settings over a listing
      with n selected entries are exactly 1/n, 2/n, ..., n/n. */
  lemma {:induction false} IntendedProgress(ctx: Context, names: seq<string>)
    requires AllScalable(ctx, names)
    ensures var n := |Selected(names)|;
      var fr := Fractions(IntendedBatchEvents(ctx, Entries(names), Entries(names)));
      && |fr| == n
      && (forall k :: 0 <= k < n ==> fr[k] == Fraction(k + 1, n))
      && (n > 0 ==> fr[n - 1] == Fraction(n, n))
  {
    var n := |Selected(names)|;
    IntendedIsSteps(ctx, names, n);
    OrdinalsAt(n);
    ScaleEffectsAt(ctx, Selected(names));
    StepsFractions(Selected(names), ScaleEffects(ctx, Selected(names)), Ordinals(n), n);
    var evs := IntendedBatchEvents(ctx, Entries(names), Entries(names));
    assert evs == [] + IntendedLoopEvents(ctx, names, n);
    assert evs == IntendedLoopEvents(ctx, names, n);
  }

  /** The loop as written and the corrected one agree whenever every entry
      is a JPEG name. */
  lemma {:induction false} AgreeWhenAllSelected(ctx: Context, names: seq<string>, count: int)
    requires AllScalable(ctx, names)
    requires forall j :: 0 <= j < |names| ==> IsJpgName(names[j])
    ensures LoopEvents(ctx, names, count) == IntendedLoopEvents(ctx, names, count)
  {
    if names != [] {
      var k := |names| - 1;
      AgreeWhenAllSelected(ctx, names[..k], count);
      SelectedAll(names[..k]);
    }
  }

  /** As written, a listing whose only JPEG comes after another entry
      sets the progress bar to 2/1. */
  lemma AsWrittenOvershoots(ctx: Context)
    requires Scalable(ctx, "beach.jpg")
    ensures var names := ["notes.txt", "beach.jpg"];
      && Fractions(BatchEvents(ctx, Entries(names), Entries(names))) == [Fraction(2, 1)]
      && Fractions(IntendedBatchEvents(ctx, Entries(names), Entries(names))) == [Fraction(1, 1)]
  {
    var names := ["notes.txt", "beach.jpg"];
    assert !IsJpgName("notes.txt") by {
      assert "notes.txt"[5..] == ".txt";
    }
    assert IsJpgName("beach.jpg") by {
      assert "beach.jpg"[5..] == ".jpg";
    }
    assert AllScalable(ctx, names);
    assert names[..1] == ["notes.txt"];
    assert [names[0]][..0] == [];
    BatchFractions(ctx, names);
    IntendedProgress(ctx, names);
  }
}
