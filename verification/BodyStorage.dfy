/**
 Request bodies kept on disk or in memory by any number of concurrent requests, and the shared counters of
 how many there are and how many bytes they take. Every atomic operation on a counter is a step of its own.
 Files cached on disk for other purposes go the same way; in memory they are not counted.
 */
module BodyStorage {
  import opened Numbers

  datatype Kind = Disk | Memory

  /**
   Where a body is in its life: `Checked` has passed the disk limit, `Fallback` goes to memory, `Counting`
   has been added to the first counter only, `Closing` has been marked closed, `Uncounting` has been taken
   off the first counter only.
   */
  datatype Phase =
    | Absent
    | Checked
    | Fallback
    | Counting(kind: Kind)
    | Open(kind: Kind)
    | Closing(kind: Kind)
    | Uncounting(kind: Kind)
    | Gone

  /** `asked` is the size the limit is checked with, `size` the bytes stored in the end. */
  datatype Body = Body(asked: nat, size: nat, phase: Phase)

  datatype State = State(bodies: seq<Body>, diskFiles: int, diskBytes: int, memoryBuffers: int, memoryBytes: int)

  datatype Config = Config(enabled: bool, threshold: nat, limit: nat)

  datatype Action =
    | Check                                    // look at the configuration and the bytes in use
    | Write(ok: bool, canFallBack: bool)       // write the file, then count it, or fall back, or give up
    | CountBuffer                              // count a body kept in memory
    | CountBytes
    | Close                                    // the first to mark the body closed goes on
    | Uncount
    | UncountBytes

  function Count(s: State, kind: Kind): int {
    if kind == Disk then s.diskFiles else s.memoryBuffers
  }

  function Bytes(s: State, kind: Kind): int {
    if kind == Disk then s.diskBytes else s.memoryBytes
  }

  function AddCount(s: State, kind: Kind, d: int): State {
    if kind == Disk then s.(diskFiles := s.diskFiles + d) else s.(memoryBuffers := s.memoryBuffers + d)
  }

  function AddBytes(s: State, kind: Kind, d: int): State {
    if kind == Disk then s.(diskBytes := s.diskBytes + d) else s.(memoryBytes := s.memoryBytes + d)
  }

  /** The disk counters are set to zero when they fall below it. */
  function Clamped(s: State): State {
    s.(diskFiles := if s.diskFiles < 0 then 0 else s.diskFiles, diskBytes := if s.diskBytes < 0 then 0 else s.diskBytes)
  }

  function Enters(s: State, i: nat, phase: Phase): State
    requires i < |s.bodies|
  {
    s.(bodies := s.bodies[i := s.bodies[i].(phase := phase)])
  }

  predicate Admitted(s: State, c: Config, b: Body) {
    c.enabled && b.asked >= c.threshold && s.diskBytes + b.asked <= c.limit
  }

  /** One step of body `i`; a step that does not fit its phase changes nothing. */
  function Next(s: State, c: Config, i: nat, a: Action): State
    requires i < |s.bodies|
  {
    var b := s.bodies[i];
    match (b.phase, a)
    case (Absent, Check) => Enters(s, i, if Admitted(s, c, b) then Checked else Fallback)
    case (Checked, Write(ok, canFallBack)) =>
      if ok then AddCount(Enters(s, i, Counting(Disk)), Disk, 1)
          else Enters(s, i, if canFallBack then Fallback else Gone)
    case (Fallback, CountBuffer) => AddCount(Enters(s, i, Counting(Memory)), Memory, 1)
    case (Counting(kind), CountBytes) => AddBytes(Enters(s, i, Open(kind)), kind, b.size)
    case (Open(kind), Close) => Enters(s, i, Closing(kind))
    case (Closing(kind), Uncount) => Clamped(AddCount(Enters(s, i, Uncounting(kind)), kind, -1))
    case (Uncounting(kind), UncountBytes) => Clamped(AddBytes(Enters(s, i, Gone), kind, 0 - b.size))
    case _ => s
  }

  // ---------------------------------------------------------------------------
  // What the counters count
  // ---------------------------------------------------------------------------

  datatype Measure = Counted(kind: Kind) | Sized(kind: Kind) | Pending | Creating

  function Weight(b: Body, m: Measure): nat {
    match m
    case Counted(kind) => if b.phase in {Counting(kind), Open(kind), Closing(kind)} then 1 else 0
    case Sized(kind) => if b.phase in {Open(kind), Closing(kind), Uncounting(kind)} then b.size else 0
    case Pending => if b.phase in {Checked, Counting(Disk)} then b.size else 0
    case Creating => if b.phase in {Checked, Counting(Disk)} then 1 else 0
  }

  function Total(bodies: seq<Body>, m: Measure): nat {
    if bodies == [] then 0 else Total(bodies[..|bodies| - 1], m) + Weight(bodies[|bodies| - 1], m)
  }

  lemma {:induction false} TotalUpdate(bodies: seq<Body>, i: nat, b: Body, m: Measure)
    requires i < |bodies|
    ensures Total(bodies[i := b], m) == Total(bodies, m) - Weight(bodies[i], m) + Weight(b, m)
    ensures Total(bodies, m) >= Weight(bodies[i], m)
  {
    var n := |bodies| - 1;
    if i < n {
      TotalUpdate(bodies[..n], i, b, m);
      assert bodies[i := b][..n] == bodies[..n][i := b];
    } else {
      assert bodies[i := b][..n] == bodies[..n];
    }
  }

  /** Every counter holds what its bodies add up to, at every moment. */
  ghost predicate Inv(s: State) {
    && s.diskFiles == Total(s.bodies, Counted(Disk)) && s.memoryBuffers == Total(s.bodies, Counted(Memory))
    && s.diskBytes == Total(s.bodies, Sized(Disk)) && s.memoryBytes == Total(s.bodies, Sized(Memory))
  }

  function Start(bodies: seq<Body>): State {
    State(bodies, 0, 0, 0, 0)
  }

  ghost predicate AllAbsent(bodies: seq<Body>) {
    forall i :: 0 <= i < |bodies| ==> bodies[i].phase == Absent
  }

  lemma {:induction false} AbsentIsZero(bodies: seq<Body>, m: Measure)
    requires AllAbsent(bodies)
    ensures Total(bodies, m) == 0
  {
    if bodies != [] { AbsentIsZero(bodies[..|bodies| - 1], m); }
  }

  lemma StartInv(bodies: seq<Body>)
    requires AllAbsent(bodies)
    ensures Inv(Start(bodies))
  {
    forall m ensures Total(bodies, m) == 0 { AbsentIsZero(bodies, m); }
  }

  lemma EntersUpdates(s: State, i: nat, phase: Phase, kind: Kind)
    requires i < |s.bodies|
    ensures var b, b', bodies := s.bodies[i], s.bodies[i].(phase := phase), Enters(s, i, phase).bodies;
            && Total(bodies, Counted(kind)) == Total(s.bodies, Counted(kind)) - Weight(b, Counted(kind))
                + Weight(b', Counted(kind))
            && Total(bodies, Sized(kind)) == Total(s.bodies, Sized(kind)) - Weight(b, Sized(kind))
                + Weight(b', Sized(kind))
    ensures Total(s.bodies, Counted(kind)) >= Weight(s.bodies[i], Counted(kind))
    ensures Total(s.bodies, Sized(kind)) >= Weight(s.bodies[i], Sized(kind))
  {
    TotalUpdate(s.bodies, i, s.bodies[i].(phase := phase), Counted(kind));
    TotalUpdate(s.bodies, i, s.bodies[i].(phase := phase), Sized(kind));
  }

  /** A counter never falls below zero, so the clamp never fires. */
  lemma ClampNeverFires(s: State, i: nat)
    requires Inv(s) && i < |s.bodies|
    ensures s.diskFiles >= 0 && s.diskBytes >= 0
    ensures s.bodies[i].phase == Closing(Disk) ==> AddCount(s, Disk, -1).diskFiles >= 0
    ensures s.bodies[i].phase == Uncounting(Disk) ==> AddBytes(s, Disk, 0 - s.bodies[i].size).diskBytes >= 0
  {
    EntersUpdates(s, i, Gone, Disk);
  }

  /** The state with body `i` in another phase and every counter following its weight. */
  ghost function Moved(s: State, i: nat, phase: Phase): State
    requires i < |s.bodies|
  {
    var b, b' := s.bodies[i], s.bodies[i].(phase := phase);
    State(s.bodies[i := b'],
          s.diskFiles - Weight(b, Counted(Disk)) + Weight(b', Counted(Disk)),
          s.diskBytes - Weight(b, Sized(Disk)) + Weight(b', Sized(Disk)),
          s.memoryBuffers - Weight(b, Counted(Memory)) + Weight(b', Counted(Memory)),
          s.memoryBytes - Weight(b, Sized(Memory)) + Weight(b', Sized(Memory)))
  }

  lemma MovedInv(s: State, i: nat, phase: Phase)
    requires Inv(s) && i < |s.bodies|
    ensures Inv(Moved(s, i, phase))
  {
    EntersUpdates(s, i, phase, Disk);
    EntersUpdates(s, i, phase, Memory);
  }

  /** Where a step takes body `i`. */
  function NextPhase(s: State, c: Config, i: nat, a: Action): Phase
    requires i < |s.bodies|
  {
    var b := s.bodies[i];
    match (b.phase, a)
    case (Absent, Check) => if Admitted(s, c, b) then Checked else Fallback
    case (Checked, Write(ok, canFallBack)) => if ok then Counting(Disk) else if canFallBack then Fallback else Gone
    case (Fallback, CountBuffer) => Counting(Memory)
    case (Counting(kind), CountBytes) => Open(kind)
    case (Open(kind), Close) => Closing(kind)
    case (Closing(kind), Uncount) => Uncounting(kind)
    case (Uncounting(kind), UncountBytes) => Gone
    case _ => b.phase
  }

  lemma NextIsMove(s: State, c: Config, i: nat, a: Action)
    requires s.diskFiles >= 0 && s.diskBytes >= 0 && i < |s.bodies|
    requires s.bodies[i].phase == Closing(Disk) ==> s.diskFiles >= 1
    requires s.bodies[i].phase == Uncounting(Disk) ==> s.diskBytes >= s.bodies[i].size
    ensures Next(s, c, i, a) == Moved(s, i, NextPhase(s, c, i, a))
  {
    match (s.bodies[i].phase, a)
    case (Absent, Check) =>
    case (Checked, Write(ok, canFallBack)) =>
    case (Fallback, CountBuffer) =>
    case (Counting(kind), CountBytes) =>
    case (Open(kind), Close) =>
    case (Closing(kind), Uncount) =>
    case (Uncounting(kind), UncountBytes) =>
    case _ => assert s.bodies[i := s.bodies[i]] == s.bodies;
  }

  /** The counters stay exact. */
  lemma NextInv(s: State, c: Config, i: nat, a: Action)
    requires Inv(s) && i < |s.bodies|
    ensures Inv(Next(s, c, i, a)) && Next(s, c, i, a) == Moved(s, i, NextPhase(s, c, i, a))
  {
    ClampNeverFires(s, i);
    NextIsMove(s, c, i, a);
    MovedInv(s, i, NextPhase(s, c, i, a));
  }

  // ---------------------------------------------------------------------------
  // Every interleaving
  // ---------------------------------------------------------------------------

  type Schedule = seq<(nat, Action)>

  function Run(s: State, c: Config, schedule: Schedule): (s': State)
    ensures |s'.bodies| == |s.bodies|
  {
    if schedule == [] then s
    else
      var s', (i, a) := Run(s, c, schedule[..|schedule| - 1]), schedule[|schedule| - 1];
      if i < |s'.bodies| then Next(s', c, i, a) else s'
  }

  lemma {:induction false} RunInv(s: State, c: Config, schedule: Schedule)
    requires Inv(s)
    ensures Inv(Run(s, c, schedule))
  {
    if schedule != [] {
      var n := |schedule| - 1;
      RunInv(s, c, schedule[..n]);
      var s', i, a := Run(s, c, schedule[..n]), schedule[n].0, schedule[n].1;
      if i < |s'.bodies| { NextInv(s', c, i, a); }
    }
  }

  /** No body is between two counters. */
  ghost predicate Quiet(bodies: seq<Body>) {
    forall i :: 0 <= i < |bodies| ==> bodies[i].phase in {Absent, Checked, Fallback, Open(Disk), Open(Memory), Gone}
  }

  function OpenSizes(bodies: seq<Body>, kind: Kind): seq<nat> {
    if bodies == [] then []
    else
      var n := |bodies| - 1;
      OpenSizes(bodies[..n], kind) + (if bodies[n].phase == Open(kind) then [bodies[n].size] else [])
  }

  function Sum(sizes: seq<nat>): nat {
    if sizes == [] then 0 else Sum(sizes[..|sizes| - 1]) + sizes[|sizes| - 1]
  }

  lemma {:induction false} QuietTotals(bodies: seq<Body>, kind: Kind)
    requires Quiet(bodies)
    ensures Total(bodies, Counted(kind)) == |OpenSizes(bodies, kind)|
    ensures Total(bodies, Sized(kind)) == Sum(OpenSizes(bodies, kind))
  {
    if bodies != [] {
      var n := |bodies| - 1;
      QuietTotals(bodies[..n], kind);
      var sizes := OpenSizes(bodies[..n], kind);
      if bodies[n].phase == Open(kind) {
        assert (sizes + [bodies[n].size])[..|sizes|] == sizes;
      } else {
        assert OpenSizes(bodies, kind) == sizes;
      }
    }
  }

  /**
   After any interleaving that comes to rest, the counters are the number of open bodies of each kind and
   the bytes they hold.
   */
  lemma CountersAreExact(bodies: seq<Body>, c: Config, schedule: Schedule)
    requires AllAbsent(bodies) && Quiet(Run(Start(bodies), c, schedule).bodies)
    ensures var s := Run(Start(bodies), c, schedule);
            forall kind ::
                Count(s, kind) == |OpenSizes(s.bodies, kind)| && Bytes(s, kind) == Sum(OpenSizes(s.bodies, kind))
  {
    StartInv(bodies);
    RunInv(Start(bodies), c, schedule);
    QuietTotals(Run(Start(bodies), c, schedule).bodies, Disk);
    QuietTotals(Run(Start(bodies), c, schedule).bodies, Memory);
  }

  /** The clean-up deletes an old file and takes it off both counters, whether or not a body still owns it. */
  function CleanUp(s: State, size: nat): State {
    Clamped(AddBytes(Clamped(AddCount(s, Disk, -1)), Disk, 0 - size))
  }

  /**
   So it keeps the counters exact only at start-up, before anything is on disk: exactly when there is
   nothing to take off.
   */
  lemma CleanUpExactIff(s: State, size: nat)
    requires Inv(s)
    ensures Inv(CleanUp(s, size)) <==> s.diskFiles == 0 && (s.diskBytes == 0 || size == 0)
  {
  }

  // ---------------------------------------------------------------------------
  // The limit on disk
  // ---------------------------------------------------------------------------

  /** Bodies of at most `most` bytes, none larger than the size it was checked with by more than `excess`. */
  ghost predicate Sizes(bodies: seq<Body>, most: nat, excess: nat) {
    forall i :: 0 <= i < |bodies| ==> bodies[i].size <= most && bodies[i].size <= bodies[i].asked + excess
  }

  lemma {:induction false} PendingBound(bodies: seq<Body>, most: nat)
    requires forall i :: 0 <= i < |bodies| ==> bodies[i].size <= most
    ensures Total(bodies, Pending) <= Total(bodies, Creating) * most
  {
    if bodies != [] {
      var n := |bodies| - 1;
      PendingBound(bodies[..n], most);
      assert (Total(bodies[..n], Creating) + 1) * most == Total(bodies[..n], Creating) * most + most;
    }
  }

  /** The bytes on disk and those on their way there. */
  function Committed(s: State): int {
    s.diskBytes + Total(s.bodies, Pending)
  }

  /** Only an admission adds to them. */
  lemma CommittedStep(s: State, c: Config, i: nat, a: Action)
    requires Inv(s) && i < |s.bodies|
    ensures Committed(Next(s, c, i, a)) <= Committed(s)
            || (a.Check? && Admitted(s, c, s.bodies[i]) && Committed(Next(s, c, i, a)) == Committed(s)
                + s.bodies[i].size)
  {
    NextInv(s, c, i, a);
    var b := s.bodies[i].(phase := NextPhase(s, c, i, a));
    TotalUpdate(s.bodies, i, b, Pending);
  }

  /** Whenever a body is checked, at most `others` have been admitted and are not counted yet. */
  ghost predicate Uncrowded(s: State, c: Config, schedule: Schedule, others: nat) {
    forall k :: 0 <= k < |schedule| && schedule[k].1.Check? ==>
        Total(Run(s, c, schedule[..k]).bodies, Creating) <= others
  }

  lemma NextKeepsSizes(s: State, c: Config, i: nat, a: Action, most: nat, excess: nat)
    requires Inv(s) && i < |s.bodies| && Sizes(s.bodies, most, excess)
    ensures Sizes(Next(s, c, i, a).bodies, most, excess)
  {
    NextInv(s, c, i, a);
  }

  lemma LimitStep(s: State, c: Config, i: nat, a: Action, most: nat, excess: nat, others: nat)
    requires Inv(s) && i < |s.bodies| && Sizes(s.bodies, most, excess)
    requires Committed(s) <= c.limit + excess + others * most
    requires a.Check? ==> Total(s.bodies, Creating) <= others
    ensures Committed(Next(s, c, i, a)) <= c.limit + excess + others * most
  {
    CommittedStep(s, c, i, a);
    if a.Check? {
      PendingBound(s.bodies, most);
      ProductOrder(Total(s.bodies, Creating), others, most);
    }
  }

  /**
   The limit can be overshot, but only by bodies checked at the same time: with at most `others` more on
   their way at any check, the bytes on disk never exceed the limit by more than `others` bodies.
   */
  lemma {:induction false} LimitHolds(bodies: seq<Body>, c: Config, schedule: Schedule, most: nat, excess: nat,
      others: nat)
    requires AllAbsent(bodies) && Sizes(bodies, most, excess) && Uncrowded(Start(bodies), c, schedule, others)
    ensures var s := Run(Start(bodies), c, schedule);
            && Inv(s) && Sizes(s.bodies, most, excess)
            && Committed(s) <= c.limit + excess + others * most
            && 0 <= s.diskBytes <= c.limit + excess + others * most
    decreases |schedule|
  {
    var s0 := Start(bodies);
    StartInv(bodies);
    RunInv(s0, c, schedule);
    if schedule == [] {
      AbsentIsZero(bodies, Pending);
      ProductOrder(0, others, most);
    } else {
      var n := |schedule| - 1;
      assert forall k :: 0 <= k < n ==> schedule[..n][k] == schedule[k] && schedule[..n][..k] == schedule[..k];
      LimitHolds(bodies, c, schedule[..n], most, excess, others);
      var s, i, a := Run(s0, c, schedule[..n]), schedule[n].0, schedule[n].1;
      if i < |s.bodies| {
        NextKeepsSizes(s, c, i, a, most, excess);
        LimitStep(s, c, i, a, most, excess, others);
      }
    }
  }

  // The bound is attained: k bodies as large as the limit, all checked before any is counted.

  function Together(k: nat, limit: nat, checked: nat, stored: nat): State {
    State(seq(k, i => Body(limit, limit, if i < stored then Open(Disk) else if i < checked then Checked else Absent)),
          stored, stored * limit, 0, 0)
  }

  function CheckAll(n: nat): Schedule {
    if n == 0 then [] else CheckAll(n - 1) + [(n - 1, Check)]
  }

  function StoreAll(n: nat): Schedule {
    if n == 0 then [] else StoreAll(n - 1) + [(n - 1, Write(true, true)), (n - 1, CountBytes)]
  }

  lemma {:induction false} AllChecked(k: nat, c: Config, n: nat)
    requires n <= k && c.enabled && c.threshold <= c.limit
    ensures Run(Together(k, c.limit, 0, 0), c, CheckAll(n)) == Together(k, c.limit, n, 0)
  {
    if n > 0 {
      AllChecked(k, c, n - 1);
      var s := Together(k, c.limit, n - 1, 0);
      RunSnoc(Together(k, c.limit, 0, 0), c, CheckAll(n - 1), n - 1, Check);
      assert Next(s, c, n - 1, Check).bodies == Together(k, c.limit, n, 0).bodies;
    }
  }

  lemma StoreOne(k: nat, c: Config, n: nat)
    requires n < k
    ensures Next(Next(Together(k, c.limit, k, n), c, n, Write(true, true)), c, n, CountBytes)
        == Together(k, c.limit, k, n + 1)
  {
    var s := Together(k, c.limit, k, n);
    var s' := Next(s, c, n, Write(true, true));
    var s'' := Next(s', c, n, CountBytes);
    assert s''.bodies == Together(k, c.limit, k, n + 1).bodies;
    assert (n + 1) * c.limit == n * c.limit + c.limit;
  }

  lemma {:induction false} AllStored(k: nat, c: Config, n: nat)
    requires n <= k && c.enabled && c.threshold <= c.limit
    ensures Run(Together(k, c.limit, 0, 0), c, CheckAll(k) + StoreAll(n)) == Together(k, c.limit, k, n)
  {
    if n == 0 {
      AllChecked(k, c, k);
      assert CheckAll(k) + [] == CheckAll(k);
    } else {
      AllStored(k, c, n - 1);
      StoreOne(k, c, n - 1);
      RunSnocTwo(Together(k, c.limit, 0, 0), c, CheckAll(k) + StoreAll(n - 1), n - 1, Write(true, true), CountBytes);
      assert CheckAll(k) + StoreAll(n) == CheckAll(k) + StoreAll(n - 1)
          + [(n - 1, Write(true, true)), (n - 1, CountBytes)];
    }
  }

  lemma RunSnocTwo(s: State, c: Config, schedule: Schedule, i: nat, a: Action, b: Action)
    requires i < |s.bodies|
    ensures Run(s, c, schedule + [(i, a), (i, b)]) == Next(Next(Run(s, c, schedule), c, i, a), c, i, b)
  {
    RunSnoc(s, c, schedule, i, a);
    RunSnoc(s, c, schedule + [(i, a)], i, b);
    assert schedule + [(i, a), (i, b)] == schedule + [(i, a)] + [(i, b)];
  }

  lemma RunSnoc(s: State, c: Config, schedule: Schedule, i: nat, a: Action)
    requires i < |s.bodies|
    ensures Run(s, c, schedule + [(i, a)]) == Next(Run(s, c, schedule), c, i, a)
  {
    assert (schedule + [(i, a)])[..|schedule|] == schedule;
  }

  lemma LimitBoundIsAttained(k: nat, c: Config)
    requires k > 0 && c.enabled && c.threshold <= c.limit
    ensures var bodies := seq(k, _ => Body(c.limit, c.limit, Absent));
            && AllAbsent(bodies) && Sizes(bodies, c.limit, 0)
            && Run(Start(bodies), c, CheckAll(k) + StoreAll(k)).diskBytes == c.limit + (k - 1) * c.limit
  {
    var bodies := seq(k, _ => Body(c.limit, c.limit, Absent));
    assert Start(bodies) == Together(k, c.limit, 0, 0) by { assert bodies == Together(k, c.limit, 0, 0).bodies; }
    AllStored(k, c, k);
    assert k * c.limit == c.limit + (k - 1) * c.limit;
  }
}
