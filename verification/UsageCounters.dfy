/** The global counters of active bodies and their bytes, under any interleaving of
    creations and (repeated, concurrent) closes.  Every atomic add and store is a step. */
module UsageCounters {
  import opened Basics

  datatype Backend = Disk | Memory

  datatype Meter = Count(b: Backend) | Bytes(b: Backend)

  /** How far the creation and the one effective close of a body have come. */
  datatype Phase =
    | Created      // before any counter moved
    | Counted      // count added
    | Live         // count and bytes added
    | Closing      // the compare-and-swap on the closed flag won
    | CountBelow   // count subtracted and seen negative: about to be set to 0
    | Uncounted    // count settled
    | BytesBelow   // bytes subtracted and seen negative: about to be set to 0
    | Closed

  datatype Body = Body(backend: Backend, size: nat, phase: Phase)

  datatype State = State(bodies: seq<Body>, diskFiles: int, diskBytes: int, memoryBuffers: int, memoryBytes: int)

  function Read(s: State, m: Meter): int {
    match m
    case Count(Disk) => s.diskFiles
    case Bytes(Disk) => s.diskBytes
    case Count(Memory) => s.memoryBuffers
    case Bytes(Memory) => s.memoryBytes
  }

  function Write(s: State, m: Meter, value: int): (t: State)
    ensures t.bodies == s.bodies && forall other :: Read(t, other) == if other == m then value else Read(s, other)
  {
    match m
    case Count(Disk) => s.(diskFiles := value)
    case Bytes(Disk) => s.(diskBytes := value)
    case Count(Memory) => s.(memoryBuffers := value)
    case Bytes(Memory) => s.(memoryBytes := value)
  }

  datatype Step =
    | Create(backend: Backend, size: nat)
    | AddCount(i: nat)
    | AddBytes(i: nat)
    | Close(i: nat)
    | SubtractCount(i: nat)
    | ResetCount(i: nat)
    | SubtractBytes(i: nat)
    | ResetBytes(i: nat)

  /** The phase a body must be in for a step of its own. */
  predicate Enabled(s: State, step: Step) {
    step.Create? || (step.i < |s.bodies| &&
      var phase := s.bodies[step.i].phase;
      match step
      case AddCount(_) => phase == Created
      case AddBytes(_) => phase == Counted
      case Close(_) => phase != Created && phase != Counted
      case SubtractCount(_) => phase == Closing
      case ResetCount(_) => phase == CountBelow
      case SubtractBytes(_) => phase == Uncounted
      case ResetBytes(_) => phase == BytesBelow)
  }

  function Enter(s: State, i: nat, phase: Phase): (t: State)
    requires i < |s.bodies|
    ensures forall m :: Read(t, m) == Read(s, m)
  {
    s.(bodies := s.bodies[i := s.bodies[i].(phase := phase)])
  }

  /** Only the disk counters are guarded against falling below zero. */
  function Apply(s: State, step: Step): State
    requires Enabled(s, step)
  {
    match step
    case Create(backend, size) => s.(bodies := s.bodies + [Body(backend, size, Created)])
    case AddCount(i) =>
      var m := Count(s.bodies[i].backend);
      Enter(Write(s, m, Read(s, m) + 1), i, Counted)
    case AddBytes(i) =>
      var m := Bytes(s.bodies[i].backend);
      Enter(Write(s, m, Read(s, m) + s.bodies[i].size), i, Live)
    case Close(i) =>
      if s.bodies[i].phase == Live then Enter(s, i, Closing) else s
    case SubtractCount(i) =>
      var m := Count(s.bodies[i].backend);
      var left := Read(s, m) - 1;
      Enter(Write(s, m, left), i, if s.bodies[i].backend == Disk && left < 0 then CountBelow else Uncounted)
    case ResetCount(i) => Enter(Write(s, Count(s.bodies[i].backend), 0), i, Uncounted)
    case SubtractBytes(i) =>
      var m := Bytes(s.bodies[i].backend);
      var left := Read(s, m) - s.bodies[i].size;
      Enter(Write(s, m, left), i, if s.bodies[i].backend == Disk && left < 0 then BytesBelow else Closed)
    case ResetBytes(i) => Enter(Write(s, Bytes(s.bodies[i].backend), 0), i, Closed)
  }

  const INIT := State([], 0, 0, 0, 0)

  /** The steps can happen one after the other. */
  predicate Runs(steps: seq<Step>)
    decreases |steps|, 0
  {
    steps == [] || (Runs(Most(steps)) && Enabled(After(Most(steps)), Last(steps)))
  }

  function After(steps: seq<Step>): State
    requires Runs(steps)
    decreases |steps|, 1
  {
    if steps == [] then INIT else Apply(After(Most(steps)), Last(steps))
  }

  // ---------- the accounts ----------

  /** What a body contributes to a meter right now. */
  function Share(b: Body, m: Meter): nat {
    if m.b != b.backend then 0
    else
      match m
      case Count(_) => if b.phase in {Counted, Live, Closing} then 1 else 0
      case Bytes(_) => if b.phase in {Live, Closing, CountBelow, Uncounted} then b.size else 0
  }

  function Total(bodies: seq<Body>, m: Meter): nat {
    if bodies == [] then 0 else Total(Most(bodies), m) + Share(Last(bodies), m)
  }

  lemma {:induction false} TotalOfUpdate(bodies: seq<Body>, i: nat, b: Body, m: Meter)
    requires i < |bodies|
    ensures Total(bodies[i := b], m) == Total(bodies, m) - Share(bodies[i], m) + Share(b, m)
    ensures Share(bodies[i], m) <= Total(bodies, m)
  {
    var updated := bodies[i := b];
    if i == |bodies| - 1 {
      assert Most(updated) == Most(bodies);
    } else {
      TotalOfUpdate(Most(bodies), i, b, m);
      assert Most(updated) == Most(bodies)[i := b];
    }
  }

  predicate Settled(b: Body) {
    b.phase != CountBelow && b.phase != BytesBelow
  }

  ghost predicate Inv(s: State) {
    && (forall m :: Read(s, m) == Total(s.bodies, m))
    && (forall i :: 0 <= i < |s.bodies| ==> Settled(s.bodies[i]))
  }

  /** A step of a settled body moves every meter by the change of the body's share. */
  lemma StepMoves(s: State, step: Step, m: Meter)
    requires Enabled(s, step) && !step.Create? && Settled(s.bodies[step.i])
    ensures var t := Apply(s, step);
      && t.bodies == s.bodies[step.i := t.bodies[step.i]]
      && Read(t, m) - Read(s, m) == Share(t.bodies[step.i], m) - Share(s.bodies[step.i], m)
  {
  }

  lemma MeterKept(s: State, step: Step, m: Meter)
    requires Inv(s) && Enabled(s, step)
    ensures Read(Apply(s, step), m) == Total(Apply(s, step).bodies, m)
  {
    var t := Apply(s, step);
    if step.Create? {
      assert Most(t.bodies) == s.bodies;
    } else {
      StepMoves(s, step, m);
      TotalOfUpdate(s.bodies, step.i, t.bodies[step.i], m);
    }
  }

  /** A subtraction never goes below zero: the body's own share is still in the counter. */
  lemma SettledKept(s: State, step: Step)
    requires Inv(s) && Enabled(s, step)
    ensures forall i :: 0 <= i < |Apply(s, step).bodies| ==> Settled(Apply(s, step).bodies[i])
  {
    if !step.Create? {
      var b := s.bodies[step.i];
      assert Settled(b);
      TotalOfUpdate(s.bodies, step.i, b, Count(b.backend));
      TotalOfUpdate(s.bodies, step.i, b, Bytes(b.backend));
    }
  }

  lemma {:induction false} InvAlways(steps: seq<Step>)
    requires Runs(steps)
    ensures Inv(After(steps))
  {
    if steps == [] {
      assert forall m :: Read(INIT, m) == 0;
    } else {
      var s := After(Most(steps));
      InvAlways(Most(steps));
      SettledKept(s, Last(steps));
      forall m
        ensures Read(After(steps), m) == Total(After(steps).bodies, m)
      {
        MeterKept(s, Last(steps), m);
      }
    }
  }

  // ---------- what follows ----------

  /** At every moment all counters are non-negative. */
  lemma NeverNegative(steps: seq<Step>, m: Meter)
    requires Runs(steps)
    ensures Read(After(steps), m) >= 0
  {
    InvAlways(steps);
  }

  /** So the guards against negative counters never fire. */
  lemma {:induction false} NeverReset(steps: seq<Step>)
    requires Runs(steps)
    ensures forall step :: step in steps ==> !step.ResetCount? && !step.ResetBytes?
  {
    if steps != [] {
      NeverReset(Most(steps));
      InvAlways(Most(steps));
      NoResetEnabled(After(Most(steps)), Last(steps));
      assert forall x :: x in steps ==> x in Most(steps) || x == Last(steps);
    }
  }

  lemma NoResetEnabled(s: State, step: Step)
    requires Inv(s) && Enabled(s, step)
    ensures !step.ResetCount? && !step.ResetBytes?
  {
    assert !step.Create? ==> Settled(s.bodies[step.i]);
  }

  predicate Quiet(s: State) {
    forall i :: 0 <= i < |s.bodies| ==> s.bodies[i].phase == Live || s.bodies[i].phase == Closed
  }

  predicate IsUnclosed(body: Body, b: Backend) {
    body.backend == b && body.phase == Live
  }

  function Unclosed(bodies: seq<Body>, b: Backend): nat {
    if bodies == [] then 0
    else Unclosed(Most(bodies), b) + if IsUnclosed(Last(bodies), b) then 1 else 0
  }

  function UnclosedBytes(bodies: seq<Body>, b: Backend): nat {
    if bodies == [] then 0
    else UnclosedBytes(Most(bodies), b) + if IsUnclosed(Last(bodies), b) then Last(bodies).size else 0
  }

  lemma {:induction false} QuietTotals(bodies: seq<Body>, b: Backend)
    requires forall i :: 0 <= i < |bodies| ==> bodies[i].phase == Live || bodies[i].phase == Closed
    ensures Total(bodies, Count(b)) == Unclosed(bodies, b)
    ensures Total(bodies, Bytes(b)) == UnclosedBytes(bodies, b)
  {
    if bodies != [] {
      QuietTotals(Most(bodies), b);
    }
  }

  /** At quiescence each backend's counters are the number and total size of its unclosed
      bodies. */
  lemma QuietExact(steps: seq<Step>, b: Backend)
    requires Runs(steps) && Quiet(After(steps))
    ensures Read(After(steps), Count(b)) == Unclosed(After(steps).bodies, b)
    ensures Read(After(steps), Bytes(b)) == UnclosedBytes(After(steps).bodies, b)
  {
    InvAlways(steps);
    QuietTotals(After(steps).bodies, b);
  }

  /** The number of unclosed bodies. */
  lemma {:induction false} UnclosedIsCardinality(bodies: seq<Body>, b: Backend)
    ensures Unclosed(bodies, b) == |set i | 0 <= i < |bodies| && bodies[i].backend == b && bodies[i].phase == Live|
  {
    var now := set i | 0 <= i < |bodies| && bodies[i].backend == b && bodies[i].phase == Live;
    if bodies == [] {
      assert now == {};
    } else {
      UnclosedIsCardinality(Most(bodies), b);
      var before := set i | 0 <= i < |Most(bodies)| && Most(bodies)[i].backend == b && Most(bodies)[i].phase == Live;
      var last := |bodies| - 1;
      assert forall i :: 0 <= i < last ==> Most(bodies)[i] == bodies[i];
      assert before == set i | 0 <= i < last && bodies[i].backend == b && bodies[i].phase == Live;
      if IsUnclosed(bodies[last], b) {
        assert now == before + {last};
      } else {
        assert now == before;
      }
    }
  }

  /** Their total size: taking a body away takes its size away if it is one of them. */
  lemma {:induction false} UnclosedBytesAdd(bodies: seq<Body>, b: Backend, i: nat)
    requires i < |bodies|
    ensures UnclosedBytes(bodies, b) == UnclosedBytes(bodies[..i] + bodies[i + 1..], b)
      + if bodies[i].backend == b && bodies[i].phase == Live then bodies[i].size else 0
    ensures UnclosedBytes([], b) == 0
  {
    var rest := bodies[..i] + bodies[i + 1..];
    if i == |bodies| - 1 {
      assert rest == Most(bodies);
    } else {
      UnclosedBytesAdd(Most(bodies), b, i);
      assert Most(rest) == Most(bodies)[..i] + Most(bodies)[i + 1..] && Last(rest) == Last(bodies);
    }
  }

  function Rank(b: Body): nat {
    match b.phase
    case Created => 7
    case Counted => 6
    case Live => 5
    case Closing => 4
    case CountBelow => 3
    case Uncounted => 2
    case BytesBelow => 1
    case Closed => 0
  }

  lemma OnlyForward(s: State, step: Step, i: nat)
    requires Enabled(s, step) && i < |s.bodies|
    ensures i < |Apply(s, step).bodies|
    ensures Apply(s, step).bodies[i].backend == s.bodies[i].backend && Apply(s, step).bodies[i].size == s.bodies[i].size
    ensures Rank(Apply(s, step).bodies[i]) <= Rank(s.bodies[i])
  {
  }

  /** Once a close has won, a body never comes back, and closing it again at any later
      moment is possible and changes nothing. */
  lemma {:induction false} ClosedForGood(earlier: seq<Step>, steps: seq<Step>, i: nat)
    requires Runs(steps) && Runs(earlier) && earlier <= steps
    requires i < |After(earlier).bodies| && Rank(After(earlier).bodies[i]) <= 4
    ensures i < |After(steps).bodies| && Rank(After(steps).bodies[i]) <= Rank(After(earlier).bodies[i])
    ensures Enabled(After(steps), Close(i)) && Apply(After(steps), Close(i)) == After(steps)
    decreases |steps|
  {
    if earlier != steps {
      assert earlier <= Most(steps);
      ClosedForGood(earlier, Most(steps), i);
      OnlyForward(After(Most(steps)), Last(steps), i);
    }
  }
}
