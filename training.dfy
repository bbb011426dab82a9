/** The schedule of the training loop `fit`: which training steps run, in
    which order, and when a checkpoint is saved. Losses, gradients, the
    dataset's contents, timing and display are not modelled; the dataset is
    represented by its number of batches. */
module Training {

  /** One observable action of `fit`: a training step on batch `batch` of
      epoch `epoch`, or a checkpoint saved after `epochsDone` epochs. */
  datatype Event = TrainStep(epoch: nat, batch: nat) | Save(epochsDone: nat)

  /** A checkpoint is saved after every epoch whose 1-based number is a
      multiple of this. */
  const SaveEvery: nat := 20

  /** The number of epochs the notebook trains for. */
  const Epochs: nat := 20

  /** The first n training steps of epoch e. */
  function EpochSteps(e: nat, n: nat): seq<Event>
  {
    if n == 0 then [] else EpochSteps(e, n - 1) + [TrainStep(e, n - 1)]
  }

  /** Everything epoch e does: one step per batch, then a save when the
      epoch's 1-based number is a multiple of SaveEvery. */
  function EpochEvents(e: nat, batches: nat): seq<Event>
  {
    EpochSteps(e, batches) + (if (e + 1) % SaveEvery == 0 then [Save(e + 1)] else [])
  }

  /** The events of the first m epochs. */
  function Run(m: nat, batches: nat): seq<Event>
  {
    if m == 0 then [] else Run(m - 1, batches) + EpochEvents(m - 1, batches)
  }

  /** The whole schedule: every epoch, then one unconditional save. */
  function Schedule(epochs: nat, batches: nat): seq<Event>
  {
    Run(epochs, batches) + [Save(epochs)]
  }

  function CountSteps(events: seq<Event>): nat
  {
    if events == [] then 0
    else CountSteps(events[..|events| - 1]) + (if events[|events| - 1].TrainStep? then 1 else 0)
  }

  function CountSaves(events: seq<Event>): nat
  {
    if events == [] then 0
    else CountSaves(events[..|events| - 1]) + (if events[|events| - 1].Save? then 1 else 0)
  }

  /** The order in which two events of the schedule may occur: steps in
      (epoch, batch) order, each save after the steps of the epochs it counts
      and before the steps of later epochs. */
  predicate Precedes(a: Event, b: Event)
  {
    match (a, b)
    case (TrainStep(e1, n1), TrainStep(e2, n2)) => e1 < e2 || (e1 == e2 && n1 < n2)
    case (TrainStep(e1, _), Save(k)) => e1 < k
    case (Save(k), TrainStep(e2, _)) => k <= e2
    case (Save(k1), Save(k2)) => k1 <= k2
  }

  predicate InOrder(events: seq<Event>)
  {
    forall p, q :: 0 <= p < q < |events| ==> Precedes(events[p], events[q])
  }

  /** `fit`: for each epoch, one `train_step` per batch with that epoch's
      index, then a save when (epoch + 1) % 20 == 0; after the loop one more
      save. The counters report the steps and saves performed. */
  method Fit(epochs: nat, batches: nat) returns (events: seq<Event>, steps: nat, saves: nat)
    ensures events == Schedule(epochs, batches)
    ensures steps == epochs * batches && steps == CountSteps(events)
    ensures saves == epochs / SaveEvery + 1 && saves == CountSaves(events)
  {
    events, steps, saves := [], 0, 0;
    for epoch := 0 to epochs
      invariant events == Run(epoch, batches)
      invariant steps == epoch * batches
      invariant saves == epoch / SaveEvery
    {
      for n := 0 to batches
        invariant events == Run(epoch, batches) + EpochSteps(epoch, n)
        invariant steps == epoch * batches + n
      {
        events := events + [TrainStep(epoch, n)];
        steps := steps + 1;
      }
      if (epoch + 1) % SaveEvery == 0 {
        events := events + [Save(epoch + 1)];
        saves := saves + 1;
      }
      assert (epoch + 1) * batches == epoch * batches + batches;
    }
    events := events + [Save(epochs)];
    saves := saves + 1;
    ScheduleCounts(epochs, batches);
  }

  lemma {:induction false} CountAppend(a: seq<Event>, b: seq<Event>)
    ensures CountSteps(a + b) == CountSteps(a) + CountSteps(b)
    ensures CountSaves(a + b) == CountSaves(a) + CountSaves(b)
    decreases |b|
  {
    if b == [] {
      assert a + b == a;
    } else {
      var c := b[..|b| - 1];
      assert (a + b)[..|a + b| - 1] == a + c;
      assert (a + b)[|a + b| - 1] == b[|b| - 1];
      CountAppend(a, c);
    }
  }

  lemma {:induction false} EpochStepCounts(e: nat, n: nat)
    ensures CountSteps(EpochSteps(e, n)) == n && CountSaves(EpochSteps(e, n)) == 0
  {
    if n > 0 {
      EpochStepCounts(e, n - 1);
      CountAppend(EpochSteps(e, n - 1), [TrainStep(e, n - 1)]);
      assert CountSteps([TrainStep(e, n - 1)]) == 1 by {
        assert [TrainStep(e, n - 1)][..0] == [];
      }
      assert CountSaves([TrainStep(e, n - 1)]) == 0 by {
        assert [TrainStep(e, n - 1)][..0] == [];
      }
    }
  }

  lemma EpochEventCounts(e: nat, batches: nat)
    ensures CountSteps(EpochEvents(e, batches)) == batches
    ensures CountSaves(EpochEvents(e, batches)) == (if (e + 1) % SaveEvery == 0 then 1 else 0)
  {
    EpochStepCounts(e, batches);
    var tail := if (e + 1) % SaveEvery == 0 then [Save(e + 1)] else [];
    CountAppend(EpochSteps(e, batches), tail);
    if tail != [] {
      assert tail[..0] == [];
    }
  }

  /** `fit(epochs)` runs epochs * batches training steps and saves
      epochs / 20 + 1 checkpoints. */
  lemma {:induction false} ScheduleCounts(epochs: nat, batches: nat)
    ensures CountSteps(Schedule(epochs, batches)) == epochs * batches
    ensures CountSaves(Schedule(epochs, batches)) == epochs / SaveEvery + 1
  {
    RunCounts(epochs, batches);
    CountAppend(Run(epochs, batches), [Save(epochs)]);
    assert [Save(epochs)][..0] == [];
  }

  lemma {:induction false} RunCounts(m: nat, batches: nat)
    ensures CountSteps(Run(m, batches)) == m * batches
    ensures CountSaves(Run(m, batches)) == m / SaveEvery
  {
    if m > 0 {
      var before, epoch := Run(m - 1, batches), EpochEvents(m - 1, batches);
      RunCounts(m - 1, batches);
      EpochEventCounts(m - 1, batches);
      CountAppend(before, epoch);
      MulStep(m, batches);
      SavesStep(m);
    }
  }

  lemma MulStep(m: nat, batches: nat)
    requires m > 0
    ensures (m - 1) * batches + batches == m * batches
  {
  }

  /** The number of multiples of 20 in 1..m grows by one exactly at a multiple. */
  lemma SavesStep(m: nat)
    requires m > 0
    ensures m / SaveEvery == (m - 1) / SaveEvery + (if m % SaveEvery == 0 then 1 else 0)
  {
    var q, r := (m - 1) / SaveEvery, (m - 1) % SaveEvery;
    assert m - 1 == SaveEvery * q + r;
    if r == SaveEvery - 1 {
      assert m == SaveEvery * (q + 1);
    } else {
      assert m == SaveEvery * q + (r + 1);
    }
  }

  lemma {:induction false} EpochStepsMembers(e: nat, n: nat, ev: Event)
    ensures ev in EpochSteps(e, n) <==> ev.TrainStep? && ev.epoch == e && ev.batch < n
  {
    if n > 0 {
      EpochStepsMembers(e, n - 1, ev);
    }
  }

  /** An event of the first e epochs precedes every event of epoch e. */
  lemma EarlierPrecedes(x: Event, y: Event, e: nat)
    requires if x.TrainStep? then x.epoch < e else x.epochsDone <= e
    requires (y.TrainStep? && y.epoch == e) || y == Save(e + 1)
    ensures Precedes(x, y)
  {
  }

  /** The events of epoch e: its steps, and the save after it when due. */
  lemma EpochMembers(e: nat, batches: nat, ev: Event)
    ensures ev in EpochEvents(e, batches) <==>
      (ev.TrainStep? && ev.epoch == e && ev.batch < batches) || (ev == Save(e + 1) && (e + 1) % SaveEvery == 0)
  {
    EpochStepsMembers(e, batches, ev);
  }

  lemma {:induction false} RunMembers(m: nat, batches: nat, ev: Event)
    ensures ev in Run(m, batches) <==>
      if ev.TrainStep? then ev.epoch < m && ev.batch < batches
      else 0 < ev.epochsDone <= m && ev.epochsDone % SaveEvery == 0
  {
    if m > 0 {
      var before, epoch := Run(m - 1, batches), EpochEvents(m - 1, batches);
      assert Run(m, batches) == before + epoch;
      assert ev in before + epoch <==> ev in before || ev in epoch;
      RunMembers(m - 1, batches, ev);
      EpochMembers(m - 1, batches, ev);
      if ev.Save? {
        var k := ev.epochsDone;
        assert (0 < k <= m && k % SaveEvery == 0) <==>
          (0 < k <= m - 1 && k % SaveEvery == 0) || (k == m && m % SaveEvery == 0);
      }
    }
  }

  /** Every batch of every epoch is trained on, and nothing else is: step
      (e, n) occurs exactly when e < epochs and n < batches. A checkpoint
      after k epochs is saved exactly when k is a positive multiple of 20 not
      above epochs, or k is epochs (the final save). */
  lemma ScheduleMembers(epochs: nat, batches: nat, ev: Event)
    ensures ev.TrainStep? ==> (ev in Schedule(epochs, batches) <==> ev.epoch < epochs && ev.batch < batches)
    ensures ev.Save? ==> (ev in Schedule(epochs, batches) <==>
      ev.epochsDone == epochs || (0 < ev.epochsDone <= epochs && ev.epochsDone % SaveEvery == 0))
  {
    RunMembers(epochs, batches, ev);
  }

  lemma {:induction false} EpochStepsBounds(e: nat, n: nat)
    ensures forall k :: 0 <= k < |EpochSteps(e, n)| ==> EpochSteps(e, n)[k] == TrainStep(e, k)
    ensures |EpochSteps(e, n)| == n
  {
    if n > 0 {
      EpochStepsBounds(e, n - 1);
    }
  }

  /** A concatenation is in order when both parts are and everything in the
      first part precedes everything in the second. */
  lemma AppendInOrder(a: seq<Event>, b: seq<Event>)
    requires InOrder(a) && InOrder(b)
    requires forall x, y :: x in a && y in b ==> Precedes(x, y)
    ensures InOrder(a + b)
  {
    var c := a + b;
    forall p, q | 0 <= p < q < |c|
      ensures Precedes(c[p], c[q])
    {
      if q < |a| {
        assert c[p] == a[p] && c[q] == a[q];
      } else if p >= |a| {
        assert c[p] == b[p - |a|] && c[q] == b[q - |a|];
      } else {
        assert c[p] == a[p] && c[q] == b[q - |a|];
      }
    }
  }

  lemma EpochInOrder(e: nat, batches: nat)
    ensures InOrder(EpochEvents(e, batches))
  {
    EpochStepsBounds(e, batches);
    var steps := EpochSteps(e, batches);
    var tail := if (e + 1) % SaveEvery == 0 then [Save(e + 1)] else [];
    assert InOrder(steps) by {
      forall p, q | 0 <= p < q < |steps|
        ensures Precedes(steps[p], steps[q])
      {
        assert steps[p] == TrainStep(e, p) && steps[q] == TrainStep(e, q);
      }
    }
    forall x, y | x in steps && y in tail
      ensures Precedes(x, y)
    {
      EpochStepsMembers(e, batches, x);
    }
    AppendInOrder(steps, tail);
  }

  lemma {:induction false} RunInOrder(m: nat, batches: nat)
    ensures InOrder(Run(m, batches))
  {
    if m > 0 {
      RunInOrder(m - 1, batches);
      EpochInOrder(m - 1, batches);
      var before, epoch := Run(m - 1, batches), EpochEvents(m - 1, batches);
      forall x, y | x in before && y in epoch
        ensures Precedes(x, y)
      {
        RunMembers(m - 1, batches, x);
        EpochMembers(m - 1, batches, y);
        EarlierPrecedes(x, y, m - 1);
      }
      AppendInOrder(before, epoch);
    }
  }

  /** The steps run in (epoch, batch) order, so each occurs once; each save
      comes after the steps of the epochs it counts and before any later
      epoch's steps; the final save is last. */
  lemma ScheduleInOrder(epochs: nat, batches: nat)
    ensures InOrder(Schedule(epochs, batches))
    ensures Schedule(epochs, batches)[|Schedule(epochs, batches)| - 1] == Save(epochs)
  {
    RunInOrder(epochs, batches);
    forall x | x in Run(epochs, batches)
      ensures Precedes(x, Save(epochs))
    {
      RunMembers(epochs, batches, x);
    }
    AppendInOrder(Run(epochs, batches), [Save(epochs)]);
  }

  /** With the notebook's 20 epochs there are two saves, both after the
      twentieth epoch, and they are the last two events. */
  lemma DefaultSchedule(batches: nat)
    ensures CountSaves(Schedule(Epochs, batches)) == 2
    ensures CountSteps(Schedule(Epochs, batches)) == 20 * batches
    ensures var s := Schedule(Epochs, batches);
      |s| >= 2 && s[|s| - 2] == Save(20) && s[|s| - 1] == Save(20)
  {
    ScheduleCounts(Epochs, batches);
    var r := Run(Epochs - 1, batches) + EpochSteps(Epochs - 1, batches);
    assert Run(Epochs, batches) == r + [Save(20)];
  }
}
