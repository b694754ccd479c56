/** The usage counters of the body storages: two separate atomic adds at creation,
    two more at the close that wins, under every interleaving. */
module UsageAccounting {
  import opened Int64Arithmetic

  /** How far a storage has come. Checking* carries the value its atomic add
      returned and that the clamp will look at. */
  datatype Phase =
    | New
    | Counted
    | Open
    | Closing
    | CheckingCount(result: int)
    | Uncounted
    | CheckingBytes(result: int)
    | Gone

  datatype Storage = Storage(size: nat, phase: Phase)

  /** clamps: whether decrements clamp at zero (disk files do, memory buffers do not). */
  datatype State = State(clamps: bool, count: int, bytes: int, storages: seq<Storage>)

  /** A creation passes its check with one size and adds another: a stream is checked
      by its announced length and counted by the bytes written. */
  datatype Action =
    | Create(checked: nat, size: nat)
    | AddCount(i: nat)
    | AddBytes(i: nat)
    | Close(i: nat)
    | SubCount(i: nat)
    | CheckCount(i: nat)
    | SubBytes(i: nat)
    | CheckBytes(i: nat)

  /** Close may be called at any time on a storage its creator has returned. */
  predicate Enabled(s: State, a: Action) {
    match a
    case Create(_, _) => true
    case AddCount(i) => i < |s.storages| && s.storages[i].phase.New?
    case AddBytes(i) => i < |s.storages| && s.storages[i].phase.Counted?
    case Close(i) => i < |s.storages| && !s.storages[i].phase.New? && !s.storages[i].phase.Counted?
    case SubCount(i) => i < |s.storages| && s.storages[i].phase.Closing?
    case CheckCount(i) => i < |s.storages| && s.storages[i].phase.CheckingCount?
    case SubBytes(i) => i < |s.storages| && s.storages[i].phase.Uncounted?
    case CheckBytes(i) => i < |s.storages| && s.storages[i].phase.CheckingBytes?
  }

  function SetPhase(s: State, i: nat, p: Phase): State
    requires i < |s.storages|
  {
    s.(storages := s.storages[i := s.storages[i].(phase := p)])
  }

  function Next(s: State, a: Action): State
    requires Enabled(s, a)
  {
    match a
    case Create(_, size) => s.(storages := s.storages + [Storage(size, New)])
    case AddCount(i) => SetPhase(s, i, Counted).(count := s.count + 1)
    case AddBytes(i) => SetPhase(s, i, Open).(bytes := s.bytes + s.storages[i].size)
    case Close(i) => if s.storages[i].phase.Open? then SetPhase(s, i, Closing) else s
    case SubCount(i) => SetPhase(s, i, CheckingCount(s.count - 1)).(count := s.count - 1)
    case CheckCount(i) =>
      SetPhase(s, i, Uncounted).(count := if s.clamps && s.storages[i].phase.result < 0 then 0 else s.count)
    case SubBytes(i) =>
      SetPhase(s, i, CheckingBytes(s.bytes - s.storages[i].size)).(bytes := s.bytes - s.storages[i].size)
    case CheckBytes(i) =>
      SetPhase(s, i, Gone).(bytes := if s.clamps && s.storages[i].phase.result < 0 then 0 else s.bytes)
  }

  // ----- what the counters mean -----

  function Sum(f: Storage -> nat, xs: seq<Storage>): nat {
    if xs == [] then 0 else f(xs[0]) + Sum(f, xs[1..])
  }

  lemma {:induction false} SumUpdate(f: Storage -> nat, xs: seq<Storage>, i: nat, x: Storage)
    requires i < |xs|
    ensures Sum(f, xs[i := x]) + f(xs[i]) == Sum(f, xs) + f(x)
  {
    var ys := xs[i := x];
    if i == 0 {
      assert ys[1..] == xs[1..];
    } else {
      assert ys[1..] == xs[1..][i - 1 := x];
      SumUpdate(f, xs[1..], i - 1, x);
    }
  }

  lemma {:induction false} SumAppend(f: Storage -> nat, xs: seq<Storage>, x: Storage)
    ensures Sum(f, xs + [x]) == Sum(f, xs) + f(x)
  {
    if xs == [] {
      assert xs + [x] == [x];
    } else {
      assert (xs + [x])[1..] == xs[1..] + [x];
      SumAppend(f, xs[1..], x);
    }
  }

  lemma {:induction false} SumAgree(f: Storage -> nat, g: Storage -> nat, xs: seq<Storage>)
    requires forall x :: x in xs ==> f(x) == g(x)
    ensures Sum(f, xs) == Sum(g, xs)
  {
    if xs != [] {
      assert xs[0] in xs;
      SumAgree(f, g, xs[1..]);
    }
  }

  /** Storages that have been counted and not yet discounted. */
  function InCount(x: Storage): nat {
    if x.phase.Counted? || x.phase.Open? || x.phase.Closing? then 1 else 0
  }

  function InBytes(x: Storage): nat {
    if x.phase.Open? || x.phase.Closing? || x.phase.CheckingCount? || x.phase.Uncounted? then x.size else 0
  }

  function IsOpen(x: Storage): nat {
    if x.phase.Open? then 1 else 0
  }

  function OpenBytes(x: Storage): nat {
    if x.phase.Open? then x.size else 0
  }

  predicate NeverNegative(x: Storage) {
    && (x.phase.CheckingCount? ==> x.phase.result >= 0)
    && (x.phase.CheckingBytes? ==> x.phase.result >= 0)
  }

  ghost predicate Inv(s: State) {
    && s.count == Sum(InCount, s.storages)
    && s.bytes == Sum(InBytes, s.storages)
    && (forall i :: 0 <= i < |s.storages| ==> NeverNegative(s.storages[i]))
  }

  lemma InvStep(s: State, a: Action)
    requires Inv(s) && Enabled(s, a)
    ensures Inv(Next(s, a))
  {
    var t := Next(s, a);
    if a.Create? {
      SumAppend(InCount, s.storages, Storage(a.size, New));
      SumAppend(InBytes, s.storages, Storage(a.size, New));
    } else {
      assert NeverNegative(s.storages[a.i]);
      SumUpdate(InCount, s.storages, a.i, t.storages[a.i]);
      SumUpdate(InBytes, s.storages, a.i, t.storages[a.i]);
      assert t.storages == s.storages[a.i := t.storages[a.i]];
    }
  }

  // ----- whole runs -----

  function Start(clamps: bool): State {
    State(clamps, 0, 0, [])
  }

  ghost predicate IsRun(s: State, actions: seq<Action>)
    decreases |actions|
  {
    actions == [] || (Enabled(s, actions[0]) && IsRun(Next(s, actions[0]), actions[1..]))
  }

  ghost function Final(s: State, actions: seq<Action>): State
    requires IsRun(s, actions)
    decreases |actions|
  {
    if actions == [] then s else Final(Next(s, actions[0]), actions[1..])
  }

  lemma {:induction false} RunKeepsInv(s: State, actions: seq<Action>)
    requires Inv(s) && IsRun(s, actions)
    ensures Inv(Final(s, actions))
    decreases |actions|
  {
    if actions != [] {
      InvStep(s, actions[0]);
      RunKeepsInv(Next(s, actions[0]), actions[1..]);
    }
  }

  predicate Quiescent(s: State) {
    forall x :: x in s.storages ==> x.phase.Open? || x.phase.Gone?
  }

  /** In every reachable state no clamp fires, and at rest the counters are the
      number and the bytes of the open storages, however often each was closed. */
  lemma CountersAreExact(clamps: bool, actions: seq<Action>)
    requires IsRun(Start(clamps), actions)
    ensures var s := Final(Start(clamps), actions);
            && (forall i :: 0 <= i < |s.storages| ==> NeverNegative(s.storages[i]))
            && 0 <= s.count && 0 <= s.bytes
            && (Quiescent(s) ==> s.count == Sum(IsOpen, s.storages) && s.bytes == Sum(OpenBytes, s.storages))
  {
    RunKeepsInv(Start(clamps), actions);
    var s := Final(Start(clamps), actions);
    if Quiescent(s) {
      SumAgree(InCount, IsOpen, s.storages);
      SumAgree(InBytes, OpenBytes, s.storages);
    }
  }

  // ----- the cap on disk usage -----

  /** Creations that passed the check and have not added their bytes yet. */
  function InFlight(x: Storage): nat {
    if x.phase.New? || x.phase.Counted? then x.size else 0
  }

  /** A creation passes IsDiskCacheAvailable against the counter at that moment; the
      sum is an int64. */
  predicate Checked(s: State, a: Action, max: int) {
    a.Create? ==> Wrap64(s.bytes + a.checked) <= max
  }

  /** A creation that writes no more than was checked. */
  predicate Honest(a: Action) {
    a.Create? ==> a.size <= a.checked
  }

  /** A creation that, passing its check alone, cannot exceed the cap: it writes
      nothing, or its check cannot overflow and it is honest or never passes. */
  predicate Sound(checked: nat, size: nat, max: nat) {
    size == 0 || (checked <= MAX_INT64 - max && (size <= checked || checked > max))
  }

  lemma SoundFits(usage: nat, checked: nat, size: nat, max: nat)
    requires usage <= max <= MAX_INT64 && checked <= MAX_INT64 && Sound(checked, size, max)
    requires Wrap64(usage + checked) <= max
    ensures usage + size <= max
  {
    WrapSum(usage, checked);
  }

  /** Every creation passes its check, and no creation starts while another is in flight. */
  ghost predicate OneByOne(s: State, actions: seq<Action>, max: int)
    requires IsRun(s, actions)
    decreases |actions|
  {
    actions == [] ||
    (Checked(s, actions[0], max)
     && (actions[0].Create? ==> Sum(InFlight, s.storages) == 0)
     && OneByOne(Next(s, actions[0]), actions[1..], max))
  }

  /** The same for creations that may overlap. */
  ghost predicate AllChecked(s: State, actions: seq<Action>, max: int)
    requires IsRun(s, actions)
    decreases |actions|
  {
    actions == [] || (Checked(s, actions[0], max) && AllChecked(Next(s, actions[0]), actions[1..], max))
  }

  /** One step within the cap: a creation that starts alone and fits keeps it. */
  lemma StepWithinCap(s: State, a: Action, max: int)
    requires Inv(s) && Enabled(s, a) && s.bytes + Sum(InFlight, s.storages) <= max
    requires a.Create? ==> Sum(InFlight, s.storages) == 0 && s.bytes + a.size <= max
    ensures Inv(Next(s, a)) && Next(s, a).bytes + Sum(InFlight, Next(s, a).storages) <= max
  {
    var t := Next(s, a);
    InvStep(s, a);
    if a.Create? {
      SumAppend(InFlight, s.storages, Storage(a.size, New));
    } else {
      assert NeverNegative(s.storages[a.i]);
      SumUpdate(InFlight, s.storages, a.i, t.storages[a.i]);
      assert t.storages == s.storages[a.i := t.storages[a.i]];
    }
  }

  /** If every creation that passes the check finishes before the next one starts and
      is sound, the cap is a bound on the usage. */
  lemma {:induction false} CapHoldsOneByOne(s: State, actions: seq<Action>, max: nat)
    requires Inv(s) && IsRun(s, actions) && OneByOne(s, actions, max) && max <= MAX_INT64
    requires forall i :: 0 <= i < |actions| && actions[i].Create? ==>
               actions[i].checked <= MAX_INT64 && Sound(actions[i].checked, actions[i].size, max)
    requires s.bytes + Sum(InFlight, s.storages) <= max
    ensures Final(s, actions).bytes <= max
    decreases |actions|
  {
    if actions != [] {
      var a := actions[0];
      if a.Create? {
        SoundFits(s.bytes, a.checked, a.size, max);
      }
      StepWithinCap(s, a, max);
      CapHoldsOneByOne(Next(s, a), actions[1..], max);
    }
  }

  // ----- the three ways past the cap -----

  lemma RunStep(s: State, a: Action, rest: seq<Action>, max: int)
    requires Enabled(s, a) && IsRun(Next(s, a), rest)
    ensures IsRun(s, [a] + rest) && Final(s, [a] + rest) == Final(Next(s, a), rest)
    ensures Checked(s, a, max) && AllChecked(Next(s, a), rest, max) ==> AllChecked(s, [a] + rest, max)
    ensures Checked(s, a, max) && (a.Create? ==> Sum(InFlight, s.storages) == 0) && OneByOne(Next(s, a), rest, max)
            ==> OneByOne(s, [a] + rest, max)
  {
    assert ([a] + rest)[1..] == rest;
  }

  function WithOpen(s: State, size: nat): State {
    s.(count := s.count + 1, bytes := s.bytes + size, storages := s.storages + [Storage(size, Open)])
  }

  lemma AloneRuns(s: State, checked: nat, size: nat, rest: seq<Action>, max: int)
    requires Sum(InFlight, s.storages) == 0 && Wrap64(s.bytes + checked) <= max
    requires IsRun(WithOpen(s, size), rest) && OneByOne(WithOpen(s, size), rest, max)
    ensures var run := [Create(checked, size)] + ([AddCount(|s.storages|)] + ([AddBytes(|s.storages|)] + rest));
            && IsRun(s, run) && OneByOne(s, run, max)
            && Final(s, run) == Final(WithOpen(s, size), rest)
  {
    var i := |s.storages|;
    var s1 := Next(s, Create(checked, size));
    var s2 := Next(s1, AddCount(i));
    var s3 := Next(s2, AddBytes(i));
    assert s3.storages == s.storages + [Storage(size, Open)];
    assert s3 == WithOpen(s, size);
    RunStep(s2, AddBytes(i), rest, max);
    RunStep(s1, AddCount(i), [AddBytes(i)] + rest, max);
    RunStep(s, Create(checked, size), [AddCount(i)] + ([AddBytes(i)] + rest), max);
  }

  /** Two creations, the second after the first. */
  lemma OneThenAnother(first: nat, checked: nat, size: nat, max: nat) returns (run: seq<Action>)
    requires first <= max <= MAX_INT64 && Wrap64(first + checked) <= max
    ensures IsRun(Start(true), run) && OneByOne(Start(true), run, max)
    ensures AmongPlain(Start(true), run, max, checked, size)
    ensures Final(Start(true), run).bytes == first + size
  {
    var s0, s1 := Start(true), WithOpen(Start(true), first);
    assert Sum(InFlight, s1.storages) == 0;
    AloneRuns(s1, checked, size, [], max);
    var last := [Create(checked, size)] + ([AddCount(1)] + ([AddBytes(1)] + []));
    AloneRuns(s0, first, first, last, max);
    run := [Create(first, first)] + ([AddCount(0)] + ([AddBytes(0)] + last));
    PlainThenKind(s0, s1, first, checked, size, max, last, run);
  }

  lemma PlainThenKind(s0: State, s1: State, first: nat, checked: nat, size: nat, max: nat, last: seq<Action>,
                      run: seq<Action>)
    requires s0 == Start(true) && s1 == WithOpen(s0, first) && first <= max
    requires last == [Create(checked, size)] + ([AddCount(1)] + ([AddBytes(1)] + []))
    requires run == [Create(first, first)] + ([AddCount(0)] + ([AddBytes(0)] + last))
    requires IsRun(s1, last) && IsRun(s0, run)
    ensures AmongPlain(s0, run, max, checked, size)
  {
    KindTail(s1, last, max, checked, size, 1);
    var r1, r2 := run[1..], run[2..];
    var t1 := Next(s0, run[0]);
    var t2 := Next(t1, AddCount(0));
    assert r1[1..] == r2 && r2[1..] == last && run[1] == AddCount(0) && run[2] == AddBytes(0);
    assert Next(t2, AddBytes(0)) == s1;
    assert AmongPlain(t2, r2, max, checked, size);
    assert AmongPlain(t1, r1, max, checked, size);
  }

  lemma KindTail(s: State, last: seq<Action>, max: nat, checked: nat, size: nat, i: nat)
    requires last == [Create(checked, size)] + ([AddCount(i)] + ([AddBytes(i)] + [])) && IsRun(s, last)
    ensures AmongPlain(s, last, max, checked, size)
  {
    var r1, r2 := last[1..], last[2..];
    assert r1[1..] == r2 && r2[1..] == [];
    var t1 := Next(s, last[0]);
    assert AmongPlain(Next(t1, r1[0]), r2, max, checked, size);
    assert AmongPlain(t1, r1, max, checked, size);
  }

  /** One creation after the other, the last one larger than announced: for every cap
      and every such pair of sizes the usage ends above the cap. */
  lemma LargerThanAnnounced(checked: nat, size: nat, max: nat) returns (run: seq<Action>)
    requires checked < size && checked <= max <= MAX_INT64
    ensures IsRun(Start(true), run) && OneByOne(Start(true), run, max)
    ensures AmongPlain(Start(true), run, max, checked, size)
    ensures Final(Start(true), run).bytes == max - checked + size > max
  {
    run := OneThenAnother(max - checked, checked, size, max);
  }

  /** A creation announced so large that the sum of the check overflows: with the cap
      used up, anything it writes is above the cap. */
  lemma OverflowPassesTheCheck(checked: nat, size: nat, max: nat) returns (run: seq<Action>)
    requires size > 0 && MAX_INT64 - max < checked <= MAX_INT64 && max <= MAX_INT64
    ensures IsRun(Start(true), run) && OneByOne(Start(true), run, max)
    ensures AmongPlain(Start(true), run, max, checked, size)
    ensures Final(Start(true), run).bytes == max + size > max
  {
    WrapSum(max, checked);
    run := OneThenAnother(max, checked, size, max);
  }

  /** Every creation is of the given kind, or plain: it writes no more than was checked
      and fits at that moment. */
  ghost predicate AmongPlain(s: State, run: seq<Action>, max: int, checked: nat, size: nat)
    requires IsRun(s, run)
    decreases |run|
  {
    run == [] ||
    ((run[0].Create? && run[0] != Create(checked, size) ==> Honest(run[0]) && s.bytes + run[0].checked <= max)
     && AmongPlain(Next(s, run[0]), run[1..], max, checked, size))
  }

  lemma {:induction false} SoundAmongPlain(s: State, run: seq<Action>, checked: nat, size: nat, max: nat)
    requires Inv(s) && IsRun(s, run) && OneByOne(s, run, max) && AmongPlain(s, run, max, checked, size)
    requires max <= MAX_INT64 && checked <= MAX_INT64 && Sound(checked, size, max)
    requires s.bytes + Sum(InFlight, s.storages) <= max
    ensures Final(s, run).bytes <= max
    decreases |run|
  {
    if run != [] {
      var a := run[0];
      if a == Create(checked, size) {
        SoundFits(s.bytes, checked, size, max);
      }
      StepWithinCap(s, a, max);
      SoundAmongPlain(Next(s, a), run[1..], checked, size, max);
    }
  }

  /** Without overlap, the cap survives a kind of creation among plain ones exactly
      when the kind is sound. */
  lemma CapHoldsIff(checked: nat, size: nat, max: nat)
    requires max <= MAX_INT64 && checked <= MAX_INT64
    ensures (forall run :: IsRun(Start(true), run) && OneByOne(Start(true), run, max)
                           && AmongPlain(Start(true), run, max, checked, size)
                           ==> Final(Start(true), run).bytes <= max)
            <==> Sound(checked, size, max)
  {
    if Sound(checked, size, max) {
      forall run | IsRun(Start(true), run) && OneByOne(Start(true), run, max)
                   && AmongPlain(Start(true), run, max, checked, size)
        ensures Final(Start(true), run).bytes <= max
      {
        SoundAmongPlain(Start(true), run, checked, size, max);
      }
    } else if checked > MAX_INT64 - max {
      var _ := OverflowPassesTheCheck(checked, size, max);
    } else {
      var _ := LargerThanAnnounced(checked, size, max);
    }
  }

  /** With two overlapping creations even honest ones pass it: both check, then both add. */
  lemma OverlapExceedsCap(max: nat) returns (run: seq<Action>)
    requires 0 < max <= MAX_INT64
    ensures IsRun(Start(true), run) && AllChecked(Start(true), run, max)
    ensures forall i :: 0 <= i < |run| ==> Honest(run[i])
    ensures Final(Start(true), run).bytes == 2 * max
  {
    var s0 := Start(true);
    var s1 := Next(s0, Create(max, max));
    var s2 := Next(s1, Create(max, max));
    var s3 := Next(s2, AddCount(0));
    var s4 := Next(s3, AddBytes(0));
    var s5 := Next(s4, AddCount(1));
    var s6 := Next(s5, AddBytes(1));
    run := [];
    RunStep(s5, AddBytes(1), run, max);
    run := [AddBytes(1)] + run;
    RunStep(s4, AddCount(1), run, max);
    run := [AddCount(1)] + run;
    RunStep(s3, AddBytes(0), run, max);
    run := [AddBytes(0)] + run;
    RunStep(s2, AddCount(0), run, max);
    run := [AddCount(0)] + run;
    RunStep(s1, Create(max, max), run, max);
    run := [Create(max, max)] + run;
    RunStep(s0, Create(max, max), run, max);
    run := [Create(max, max)] + run;
  }
}
