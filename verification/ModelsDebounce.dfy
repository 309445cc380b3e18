/**
 Coalescing of ModelsUpdated events (`Bus::publish_models_updated` in
 crates/jcode-base/src/bus.rs) as a state machine: any number of calls and one
 clock, each lock block, timer and publish being one step.
 */
module ModelsDebounce {
  import opened Prelude

  /** Nanoseconds. */
  type Time = nat

  const DEBOUNCE: Time := 750_000_000

  type CallId = nat

  /** Where a call, or the delayed task it spawned, stands. */
  datatype Pc =
    | Entered(now: Time)        // read the clock, about to take the lock
    | WillDelay(delay: Time)    // set publish_pending, about to look for a runtime
    | NoRuntime                 // found none, about to take the lock again
    | Sleeping(due: Time)       // the delayed task waits for its timer
    | WillEmit                  // about to send the event

  /** When a call began and how many events had been sent by then. */
  datatype Start = Start(at: Time, sent: nat)

  datatype Bus = Bus(
    clock: Time,
    lastPublishedAt: Option<Time>,
    publishPending: bool,
    active: map<CallId, Pc>,
    started: map<CallId, Start>,
    emissions: seq<Time>,       // when events were sent
    recorded: seq<Time>)        // every value written to lastPublishedAt

  datatype Action =
    | Call(c: CallId)
    | Advance(c: CallId)
    | FindRuntime(c: CallId, present: bool)
    | Tick(span: Time)

  function Initial(clock: Time): Bus {
    Bus(clock, None, false, map[], map[], [], [])
  }

  function Goto(b: Bus, c: CallId, pc: Pc): Bus {
    b.(active := b.active[c := pc])
  }

  function Gone(b: Bus, c: CallId): Bus {
    b.(active := b.active - {c})
  }

  function Record(b: Bus, at: Time): Bus {
    b.(lastPublishedAt := Some(at), recorded := b.recorded + [at])
  }

  /** The first lock block. `elapsed` saturates: the clock was read before the lock. */
  function Decide(b: Bus, c: CallId, now: Time): Bus {
    match b.lastPublishedAt
    case None => Record(Goto(b, c, WillEmit), now)
    case Some(last) =>
      var elapsed := if now > last then now - last else 0;
      if elapsed >= DEBOUNCE then Record(Goto(b, c, WillEmit), now)
      else if b.publishPending then Gone(b, c)
      else Goto(b, c, WillDelay(DEBOUNCE - elapsed)).(publishPending := true)
  }

  /** The second lock block, of the delayed task or of a call without a runtime. */
  function Release(b: Bus, c: CallId): Bus {
    Record(Goto(b, c, WillEmit), b.clock).(publishPending := false)
  }

  function Step(b: Bus, a: Action): Bus {
    match a
    case Tick(span) => b.(clock := b.clock + span)
    case Call(c) =>
      if c in b.started then b
      else Goto(b, c, Entered(b.clock)).(started := b.started[c := Start(b.clock, |b.emissions|)])
    case FindRuntime(c, present) =>
      if c !in b.active || !b.active[c].WillDelay? then b
      else if present then Goto(b, c, Sleeping(b.clock + b.active[c].delay))
      else Goto(b, c, NoRuntime)
    case Advance(c) =>
      if c !in b.active then b else
      match b.active[c]
      case Entered(now) => Decide(b, c, now)
      case WillDelay(_) => b
      case NoRuntime => Release(b, c)
      case Sleeping(due) => if b.clock >= due then Release(b, c) else b
      case WillEmit => Gone(b, c).(emissions := b.emissions + [b.clock])
  }

  function Run(b: Bus, actions: seq<Action>): Bus
    decreases actions
  {
    if actions == [] then b else Run(Step(b, actions[0]), actions[1..])
  }

  // ----- coverage: any interleaving, any timer lateness -----

  /** The one delayed publisher. */
  predicate Delayed(pc: Pc) {
    pc.WillDelay? || pc.NoRuntime? || pc.Sleeping?
  }

  ghost predicate Covered(b: Bus, c: CallId)
    requires c in b.started
  {
    b.started[c].sent < |b.emissions|
  }

  ghost predicate Owed(b: Bus) {
    exists d :: d in b.active && !b.active[d].Entered?
  }

  ghost predicate OneDelayed(b: Bus) {
    && (b.publishPending <==> exists d :: d in b.active && Delayed(b.active[d]))
    && (forall d, e :: d in b.active && e in b.active && Delayed(b.active[d]) && Delayed(b.active[e]) ==> d == e)
  }

  ghost predicate Coverage(b: Bus) {
    && (forall c :: c in b.active ==> c in b.started)
    && (forall c :: c in b.started ==> Covered(b, c) || c in b.active || Owed(b))
  }

  ghost predicate Bounded(b: Bus) {
    && (forall c :: c in b.started ==> b.started[c].sent <= |b.emissions|)
    && |b.emissions| + |b.active| <= |b.started|
  }

  ghost predicate Inv(b: Bus) {
    OneDelayed(b) && Coverage(b) && Bounded(b)
  }

  lemma StepOneDelayed(b: Bus, a: Action)
    requires OneDelayed(b) && Coverage(b)
    ensures OneDelayed(Step(b, a))
  {
    hide Covered, Owed;
    var b' := Step(b, a);
    if b'.publishPending && b.publishPending {
      var d :| d in b.active && Delayed(b.active[d]);
      assert d in b'.active && Delayed(b'.active[d]);
    } else if b'.publishPending {
      assert a.Advance? && a.c in b'.active && Delayed(b'.active[a.c]);
    }
  }

  lemma StepCovers(b: Bus, a: Action, c: CallId)
    requires OneDelayed(b) && c in b.started && b.started[c].sent <= |b.emissions|
    requires forall d :: d in b.active ==> d in b.started
    requires Covered(b, c) || c in b.active || Owed(b)
    ensures var b' := Step(b, a); c in b'.started && (Covered(b', c) || c in b'.active || Owed(b'))
  {
    var b' := Step(b, a);
    if !Covered(b', c) && c !in b'.active {
      var d :| d in b.active && !b.active[d].Entered?;
      assert d in b'.active && !b'.active[d].Entered?;
    }
  }

  lemma StepCoverage(b: Bus, a: Action)
    requires Inv(b)
    ensures Coverage(Step(b, a))
  {
    var b' := Step(b, a);
    forall c | c in b'.started ensures Covered(b', c) || c in b'.active || Owed(b') {
      if c in b.started {
        StepCovers(b, a, c);
      }
    }
    hide OneDelayed, Covered, Owed;
  }

  lemma Sizes<T>(m: map<CallId, T>, c: CallId, x: T)
    ensures |m[c := x]| == if c in m then |m| else |m| + 1
    ensures |m - {c}| == if c in m then |m| - 1 else |m|
  {
    assert m[c := x].Keys == m.Keys + {c};
    assert (m - {c}).Keys == m.Keys - {c};
    assert |m| == |m.Keys| && |m - {c}| == |(m - {c}).Keys| && |m[c := x]| == |m[c := x].Keys|;
  }

  /** Sending an event, or being absorbed, takes the call out of the active ones. */
  lemma AdvanceCounts(b: Bus, c: CallId)
    requires c in b.active
    ensures var b' := Step(b, Advance(c));
            |b'.emissions| + |b'.active| <= |b.emissions| + |b.active| && b'.started == b.started
  {
    Sizes(b.active, c, WillEmit);
    match b.active[c]
    case Entered(now) =>
      if b.lastPublishedAt.Some? && now < b.lastPublishedAt.value + DEBOUNCE {
        var elapsed := if now > b.lastPublishedAt.value then now - b.lastPublishedAt.value else 0;
        Sizes(b.active, c, WillDelay(DEBOUNCE - elapsed));
      }
    case _ =>
  }

  lemma StepCounts(b: Bus, a: Action)
    requires forall c :: c in b.active ==> c in b.started
    ensures var b' := Step(b, a);
            |b'.emissions| + |b'.active| - |b'.started| <= |b.emissions| + |b.active| - |b.started|
  {
    match a
    case Tick(_) =>
    case Call(c) =>
      Sizes(b.active, c, Entered(b.clock));
      Sizes(b.started, c, Start(b.clock, |b.emissions|));
    case FindRuntime(c, _) =>
      Sizes(b.active, c, NoRuntime);
      if c in b.active && b.active[c].WillDelay? {
        Sizes(b.active, c, Sleeping(b.clock + b.active[c].delay));
      }
    case Advance(c) =>
      if c in b.active {
        AdvanceCounts(b, c);
      }
  }

  lemma StepBounded(b: Bus, a: Action)
    requires Coverage(b) && Bounded(b)
    ensures Bounded(Step(b, a))
  {
    StepCounts(b, a);
  }

  lemma StepInv(b: Bus, a: Action)
    requires Inv(b)
    ensures Inv(Step(b, a))
  {
    hide Step, OneDelayed, Coverage, Bounded;
    StepOneDelayed(b, a);
    StepCoverage(b, a);
    StepBounded(b, a);
  }

  lemma {:induction false} RunInv(b: Bus, actions: seq<Action>)
    requires Inv(b)
    ensures Inv(Run(b, actions))
    decreases actions
  {
    if actions != [] {
      StepInv(b, actions[0]);
      RunInv(Step(b, actions[0]), actions[1..]);
    }
  }

  /** Whatever the interleaving and however late the timers. */
  lemma EveryCallIsAnnounced(clock: Time, actions: seq<Action>)
    ensures var b := Run(Initial(clock), actions);
            && OneDelayed(b)
            && |b.emissions| <= |b.started|
            && (b.active == map[] ==> forall c :: c in b.started ==> Covered(b, c))
  {
    RunInv(Initial(clock), actions);
  }

  // ----- spacing: exactly when events keep the debounce time apart -----

  /** Neighbours are at least 750 ms apart. */
  ghost predicate Spaced(times: seq<Time>) {
    forall i, j :: 0 <= i && j == i + 1 < |times| ==> times[i] + 750_000_000 <= times[j]
  }

  lemma SpacedAppend(times: seq<Time>, t: Time)
    ensures Spaced(times + [t]) <==> Spaced(times) && (times == [] || times[|times| - 1] + DEBOUNCE <= t)
  {
    var more := times + [t];
    assert forall i :: 0 <= i < |times| ==> more[i] == times[i];
    if Spaced(more) {
      assert times == [] || more[|times| - 1] + DEBOUNCE <= more[|times|];
      assert forall i, j :: 0 <= i && j == i + 1 < |times| ==> more[i] + DEBOUNCE <= more[j];
    }
  }

  /** The second lock block is about to run. */
  predicate Releases(b: Bus, pc: Pc) {
    pc.NoRuntime? || (pc.Sleeping? && pc.due <= b.clock)
  }

  /** It runs although the debounce time since the last record has not passed. */
  predicate Early(b: Bus, a: Action) {
    && a.Advance? && a.c in b.active && Releases(b, b.active[a.c])
    && b.lastPublishedAt.Some? && b.clock < b.lastPublishedAt.value + DEBOUNCE
  }

  ghost predicate NeverEarly(b: Bus, actions: seq<Action>)
    decreases actions
  {
    actions != [] ==> !Early(b, actions[0]) && NeverEarly(Step(b, actions[0]), actions[1..])
  }

  ghost predicate LastIsRecorded(b: Bus) {
    if b.recorded == [] then b.lastPublishedAt == None
    else b.lastPublishedAt == Some(b.recorded[|b.recorded| - 1])
  }

  lemma StepRecords(b: Bus, a: Action)
    requires LastIsRecorded(b)
    ensures LastIsRecorded(Step(b, a))
    ensures Spaced(Step(b, a).recorded) <==> Spaced(b.recorded) && !Early(b, a)
  {
    hide Spaced;
    SpacedAppend(b.recorded, b.clock);
    if a.Advance? && a.c in b.active && b.active[a.c].Entered? {
      SpacedAppend(b.recorded, b.active[a.c].now);
    }
  }

  lemma {:induction false} RunRecords(b: Bus, actions: seq<Action>)
    requires LastIsRecorded(b)
    ensures Spaced(Run(b, actions).recorded) <==> Spaced(b.recorded) && NeverEarly(b, actions)
    decreases actions
  {
    hide Spaced, Step, Early, LastIsRecorded;
    if actions != [] {
      StepRecords(b, actions[0]);
      RunRecords(Step(b, actions[0]), actions[1..]);
    }
  }

  /** Over every run at all, the recorded times are spaced exactly when no second lock block runs early. */
  lemma RecordsSpacedIff(clock: Time, actions: seq<Action>)
    ensures Spaced(Run(Initial(clock), actions).recorded) <==> NeverEarly(Initial(clock), actions)
  {
    RunRecords(Initial(clock), actions);
  }

  /** A call finds a delayed publisher pending and sends all the same, its own elapsed time being long enough. */
  predicate Overtakes(b: Bus, a: Action) {
    && a.Advance? && a.c in b.active && b.active[a.c].Entered? && b.publishPending
    && b.lastPublishedAt.Some? && b.lastPublishedAt.value + DEBOUNCE <= b.active[a.c].now
  }

  ghost predicate OrderlyRun(b: Bus, actions: seq<Action>)
    decreases actions
  {
    actions != [] ==>
      && !Overtakes(b, actions[0]) && (actions[0].FindRuntime? ==> actions[0].present)
      && OrderlyRun(Step(b, actions[0]), actions[1..])
  }

  /** A delayed publisher will not release before the debounce time since the last record. */
  ghost predicate WaitsLongEnough(b: Bus, pc: Pc) {
    match pc
    case Entered(now) => now <= b.clock
    case WillDelay(delay) =>
      b.lastPublishedAt.Some? && b.lastPublishedAt.value + DEBOUNCE <= b.clock + delay
    case NoRuntime => false
    case Sleeping(due) => b.lastPublishedAt.Some? && b.lastPublishedAt.value + DEBOUNCE <= due
    case WillEmit => true
  }

  ghost predicate Patient(b: Bus) {
    && (b.lastPublishedAt.Some? ==> b.lastPublishedAt.value <= b.clock)
    && forall d :: d in b.active ==> WaitsLongEnough(b, b.active[d])
  }

  lemma StepWaits(b: Bus, a: Action, d: CallId)
    requires OneDelayed(b) && Patient(b) && !Overtakes(b, a) && (a.FindRuntime? ==> a.present)
    ensures d in Step(b, a).active ==> WaitsLongEnough(Step(b, a), Step(b, a).active[d])
  {
    if d in b.active {
      assert WaitsLongEnough(b, b.active[d]);
      assert Delayed(b.active[d]) ==> b.publishPending;
    }
    if a.Advance? && a.c in b.active {
      assert WaitsLongEnough(b, b.active[a.c]);
    }
  }

  lemma StepPatient(b: Bus, a: Action)
    requires OneDelayed(b) && Patient(b) && !Overtakes(b, a) && (a.FindRuntime? ==> a.present)
    ensures Patient(Step(b, a)) && !Early(b, a)
  {
    forall d | d in Step(b, a).active ensures WaitsLongEnough(Step(b, a), Step(b, a).active[d]) {
      StepWaits(b, a, d);
    }
    if a.Advance? && a.c in b.active {
      assert WaitsLongEnough(b, b.active[a.c]);
    }
    hide OneDelayed;
  }

  lemma {:induction false} RunPatient(b: Bus, actions: seq<Action>)
    requires Inv(b) && Patient(b) && OrderlyRun(b, actions)
    ensures NeverEarly(b, actions)
    decreases actions
  {
    hide Step, Patient, Early, Overtakes;
    if actions != [] {
      StepPatient(b, actions[0]);
      StepInv(b, actions[0]);
      RunPatient(Step(b, actions[0]), actions[1..]);
    }
  }

  /** However late the timers and slow the calls: with a runtime, only an overtaking call breaks the spacing. */
  lemma OrderlyRecordsSpaced(clock: Time, actions: seq<Action>)
    requires OrderlyRun(Initial(clock), actions)
    ensures NeverEarly(Initial(clock), actions) && Spaced(Run(Initial(clock), actions).recorded)
  {
    RunPatient(Initial(clock), actions);
    RecordsSpacedIff(clock, actions);
  }

  /** A call takes no time from its start to its send; timers may still be late and runtimes missing. */
  ghost predicate Instant(b: Bus, a: Action) {
    a.Tick? ==> forall d :: d in b.active ==> b.active[d].Sleeping?
  }

  ghost predicate InstantRun(b: Bus, actions: seq<Action>)
    decreases actions
  {
    actions != [] ==> Instant(b, actions[0]) && InstantRun(Step(b, actions[0]), actions[1..])
  }

  ghost function Senders(active: map<CallId, Pc>): set<CallId> {
    set d | d in active && active[d].WillEmit?
  }

  /** What is recorded is what was sent, and then the present moment once for every outstanding sender. */
  ghost predicate SentAsRecorded(b: Bus) {
    && (forall d :: d in b.active ==> d in b.started && (b.active[d].Entered? ==> b.active[d].now == b.clock))
    && |b.recorded| == |b.emissions| + |Senders(b.active)|
    && b.emissions <= b.recorded
    && forall i :: |b.emissions| <= i < |b.recorded| ==> b.recorded[i] == b.clock
  }

  lemma SendersChange(active: map<CallId, Pc>, c: CallId, pc: Pc)
    ensures Senders(active[c := pc]) == if pc.WillEmit? then Senders(active) + {c} else Senders(active) - {c}
    ensures Senders(active - {c}) == Senders(active) - {c}
  {
    forall d ensures d in Senders(active[c := pc]) <==> if d == c then pc.WillEmit? else d in Senders(active) {
    }
  }

  lemma SendersCount(active: map<CallId, Pc>, c: CallId, pc: Pc)
    ensures var was := if c in active && active[c].WillEmit? then 1 else 0;
            && |Senders(active[c := pc])| + was == |Senders(active)| + (if pc.WillEmit? then 1 else 0)
            && |Senders(active - {c})| + was == |Senders(active)|
  {
    assert c in Senders(active) <==> c in active && active[c].WillEmit?;
    SendersChange(active, c, pc);
    hide Senders;
    SetSizes(Senders(active), c);
  }

  lemma SetSizes(s: set<CallId>, c: CallId)
    ensures |s + {c}| == |s - {c}| + 1
    ensures |s| == |s - {c}| + if c in s then 1 else 0
  {
    assert s + {c} == s - {c} + {c};
    assert s == s - {c} + if c in s then {c} else {};
  }

  ghost function Unsent(b: Bus): int {
    |b.recorded| - |b.emissions| - |Senders(b.active)|
  }

  /** A step adds a sender as it records, or removes one as it sends. */
  lemma AdvanceUnsent(b: Bus, c: CallId)
    requires c in b.active
    ensures Unsent(Step(b, Advance(c))) == Unsent(b)
  {
    hide Senders;
    SendersCount(b.active, c, WillEmit);
    if b.active[c].Entered? && b.lastPublishedAt.Some? {
      var now, last := b.active[c].now, b.lastPublishedAt.value;
      if now < last + DEBOUNCE {
        SendersCount(b.active, c, WillDelay(DEBOUNCE - if now > last then now - last else 0));
      }
    }
  }

  lemma StepUnsent(b: Bus, a: Action)
    requires forall d :: d in b.active ==> d in b.started
    ensures Unsent(Step(b, a)) == Unsent(b)
  {
    hide Senders;
    match a
    case Tick(_) =>
    case Call(c) =>
      SendersCount(b.active, c, Entered(b.clock));
    case FindRuntime(c, _) =>
      if c in b.active && b.active[c].WillDelay? {
        SendersCount(b.active, c, NoRuntime);
        SendersCount(b.active, c, Sleeping(b.clock + b.active[c].delay));
      }
    case Advance(c) =>
      if c in b.active {
        AdvanceUnsent(b, c);
      }
  }

  lemma StepSentAsRecorded(b: Bus, a: Action)
    requires SentAsRecorded(b) && Instant(b, a)
    ensures SentAsRecorded(Step(b, a))
  {
    StepUnsent(b, a);
    if a.Tick? {
      assert Senders(b.active) == {};
    }
    if a.Advance? && a.c in b.active && b.active[a.c].WillEmit? {
      assert a.c in Senders(b.active);
      assert b.recorded[|b.emissions|] == b.clock;
    }
    hide Senders;
  }

  lemma {:induction false} RunSentAsRecorded(b: Bus, actions: seq<Action>)
    requires SentAsRecorded(b) && InstantRun(b, actions)
    ensures SentAsRecorded(Run(b, actions))
    decreases actions
  {
    hide SentAsRecorded, Instant, Step;
    if actions != [] {
      StepSentAsRecorded(b, actions[0]);
      RunSentAsRecorded(Step(b, actions[0]), actions[1..]);
    }
  }

  lemma SpacedPrefix(a: seq<Time>, b: seq<Time>)
    requires a <= b && Spaced(b)
    ensures Spaced(a)
  {
    assert forall i :: 0 <= i < |a| ==> a[i] == b[i];
  }

  /** With calls that take no time, the events themselves are spaced exactly when nothing is released early. */
  lemma EventsSpacedIff(clock: Time, actions: seq<Action>)
    requires InstantRun(Initial(clock), actions)
    ensures var b := Run(Initial(clock), actions);
            && (NeverEarly(Initial(clock), actions) ==> Spaced(b.emissions))
            && (!Emitting(b) ==> (Spaced(b.emissions) <==> NeverEarly(Initial(clock), actions)))
  {
    var b := Run(Initial(clock), actions);
    assert Senders(Initial(clock).active) == {};
    RunSentAsRecorded(Initial(clock), actions);
    RecordsSpacedIff(clock, actions);
    if Spaced(b.recorded) {
      SpacedPrefix(b.emissions, b.recorded);
    }
    if !Emitting(b) {
      assert Senders(b.active) == {};
      assert b.emissions == b.recorded;
    }
  }

  lemma {:induction false} SpanOf(times: seq<Time>)
    requires Spaced(times) && |times| > 0
    ensures times[0] + (|times| - 1) * DEBOUNCE <= times[|times| - 1]
  {
    if |times| > 1 {
      SpanOf(times[..|times| - 1]);
    }
  }

  /** At least the debounce time apart, so that n events span n - 1 times that. */
  ghost predicate WellSpread(times: seq<Time>) {
    && Spaced(times)
    && (|times| > 0 ==> times[0] + (|times| - 1) * DEBOUNCE <= times[|times| - 1])
  }

  /** With calls that take no time, a runtime and no overtaking call, events are spaced however late the timers. */
  lemma OrderlyEventsSpaced(clock: Time, actions: seq<Action>)
    requires InstantRun(Initial(clock), actions) && OrderlyRun(Initial(clock), actions)
    ensures WellSpread(Run(Initial(clock), actions).emissions)
  {
    OrderlyRecordsSpaced(clock, actions);
    EventsSpacedIff(clock, actions);
    var times := Run(Initial(clock), actions).emissions;
    if |times| > 0 {
      SpanOf(times);
    }
  }

  // ----- in time: every call is announced within the debounce time and the lateness of its timer -----

  /** Calls take no time and no timer runs later than `late`; runtimes and the order of calls are arbitrary. */
  ghost predicate Punctual(b: Bus, a: Action, late: Time) {
    a.Tick? ==> forall d :: d in b.active ==> b.active[d].Sleeping? && b.clock + a.span <= b.active[d].due + late
  }

  ghost predicate PunctualRun(b: Bus, actions: seq<Action>, late: Time)
    decreases actions
  {
    actions != [] ==> Punctual(b, actions[0], late) && PunctualRun(Step(b, actions[0]), actions[1..], late)
  }

  ghost predicate Emitting(b: Bus) {
    exists d :: d in b.active && b.active[d].WillEmit?
  }

  /** When a delayed publisher may release at the latest, were its timer on time. */
  function Deadline(b: Bus, pc: Pc): Time {
    match pc
    case WillDelay(delay) => b.clock + delay
    case Sleeping(due) => due
    case _ => b.clock
  }

  ghost predicate DelayedBy(b: Bus, limit: Time) {
    exists d :: d in b.active && Delayed(b.active[d]) && Deadline(b, b.active[d]) <= limit
  }

  /** Delayed publishers are due when the debounce time since the last record is over, or before. */
  ghost predicate Near(b: Bus, d: CallId)
    requires d in b.active
  {
    && (Delayed(b.active[d]) ==>
          b.lastPublishedAt.Some? && Deadline(b, b.active[d]) <= b.lastPublishedAt.value + DEBOUNCE)
    && (b.active[d].Entered? ==> d in b.started && b.started[d].at == b.clock == b.active[d].now)
  }

  ghost predicate DeadlinesNear(b: Bus) {
    && (b.lastPublishedAt.Some? ==> b.lastPublishedAt.value <= b.clock)
    && (b.emissions != [] ==> b.emissions[|b.emissions| - 1] <= b.clock)
    && forall d :: d in b.active ==> Near(b, d)
  }

  /** The earliest moment at which a call may be announced: at once, or the debounce time after the event before. */
  ghost function Earliest(b: Bus, c: CallId): Time
    requires c in b.started && b.started[c].sent <= |b.emissions|
  {
    var Start(at, sent) := b.started[c];
    if sent > 0 && at < b.emissions[sent - 1] + DEBOUNCE then b.emissions[sent - 1] + DEBOUNCE else at
  }

  /** A call is announced in time, or still will be: by itself, by a sender, or by a delayed publisher. */
  ghost predicate AnnouncedWithin(b: Bus, c: CallId, late: Time)
    requires c in b.started
  {
    b.started[c].sent <= |b.emissions| &&
    var limit := Earliest(b, c);
    && limit <= b.started[c].at + DEBOUNCE
    && if Covered(b, c) then b.emissions[b.started[c].sent] <= limit + late
       else
         && b.clock <= limit + late
         && ((c in b.active && b.active[c].Entered?) || Emitting(b) || DelayedBy(b, limit))
  }

  ghost predicate AllAnnounced(b: Bus, late: Time) {
    forall c :: c in b.started ==> AnnouncedWithin(b, c, late)
  }

  lemma StepNear(b: Bus, a: Action, d: CallId, late: Time)
    requires Punctual(b, a, late) && (b.lastPublishedAt.Some? ==> b.lastPublishedAt.value <= b.clock)
    requires (d in b.active ==> Near(b, d)) && (a.Advance? && a.c in b.active ==> Near(b, a.c))
    requires a.Call? && a.c in b.active ==> a.c in b.started
    ensures d in Step(b, a).active ==> Near(Step(b, a), d)
  {
  }

  lemma StepTimes(b: Bus, a: Action)
    requires DeadlinesNear(b)
    ensures var b' := Step(b, a);
            && (b'.lastPublishedAt.Some? ==> b'.lastPublishedAt.value <= b'.clock)
            && (b'.emissions != [] ==> b'.emissions[|b'.emissions| - 1] <= b'.clock)
  {
    if a.Advance? && a.c in b.active {
      assert Near(b, a.c);
    }
  }

  lemma StepDeadlines(b: Bus, a: Action, late: Time)
    requires Inv(b) && DeadlinesNear(b) && Punctual(b, a, late)
    ensures DeadlinesNear(Step(b, a))
  {
    StepTimes(b, a);
    forall d | d in Step(b, a).active ensures Near(Step(b, a), d) {
      StepNear(b, a, d, late);
    }
    hide Step, OneDelayed, Bounded, Near, Punctual;
  }

  /** A sender sends, or goes on sending. */
  lemma StepEmitting(b: Bus, a: Action)
    requires Coverage(b) && Emitting(b)
    ensures Emitting(Step(b, a)) || Step(b, a).emissions == b.emissions + [b.clock]
  {
    var d :| d in b.active && b.active[d].WillEmit?;
    assert Step(b, a).emissions == b.emissions ==> d in Step(b, a).active && Step(b, a).active[d].WillEmit?;
  }

  /** A delayed publisher becomes a sender, or goes on waiting with no later deadline. */
  lemma StepDelayed(b: Bus, a: Action, limit: Time)
    requires Coverage(b) && DelayedBy(b, limit) && (a.Tick? ==> forall d :: d in b.active ==> b.active[d].Sleeping?)
    ensures Emitting(Step(b, a)) || DelayedBy(Step(b, a), limit)
  {
    hide Covered, Owed;
    var d :| d in b.active && Delayed(b.active[d]) && Deadline(b, b.active[d]) <= limit;
    var b' := Step(b, a);
    assert d in b'.active;
    assert b'.active[d].WillEmit? || (Delayed(b'.active[d]) && Deadline(b', b'.active[d]) <= limit);
  }

  /** With no sender about, the last record is the last event. */
  lemma LastIsSent(b: Bus)
    requires SentAsRecorded(b) && LastIsRecorded(b) && !Emitting(b)
    ensures if b.emissions == [] then b.lastPublishedAt == None
            else b.lastPublishedAt == Some(b.emissions[|b.emissions| - 1])
  {
    assert Senders(b.active) == {};
    assert b.emissions == b.recorded;
  }

  /** A call that has just begun becomes a sender, a delayed publisher, or leaves it to the one there is. */
  lemma StepEntered(b: Bus, c: CallId)
    requires OneDelayed(b) && DeadlinesNear(b) && SentAsRecorded(b) && LastIsRecorded(b)
    requires c in b.active && b.active[c].Entered? && !Emitting(b)
    requires c in b.started && b.started[c].sent == |b.emissions|
    ensures var b' := Step(b, Advance(c)); Emitting(b') || DelayedBy(b', Earliest(b, c))
  {
    LastIsSent(b);
    hide SentAsRecorded, LastIsRecorded;
    var b' := Step(b, Advance(c));
    assert Near(b, c);
    if c in b'.active {
      assert b'.active[c].WillEmit? || (Delayed(b'.active[c]) && Deadline(b', b'.active[c]) <= Earliest(b, c));
    } else {
      var d :| d in b.active && Delayed(b.active[d]);
      assert Near(b, d);
      assert d in b'.active && Deadline(b', b'.active[d]) <= Earliest(b, c);
    }
  }

  /** What a step leaves of a call that has begun. */
  lemma StepBasics(b: Bus, a: Action, c: CallId)
    requires c in b.started
    ensures var b' := Step(b, a);
            && c in b'.started && b'.started[c] == b.started[c]
            && (b'.emissions == b.emissions || (b'.emissions == b.emissions + [b.clock] && !a.Tick?))
            && b'.clock == b.clock + (if a.Tick? then a.span else 0)
            && (c in b.active && b.active[c].Entered? && a != Advance(c) ==>
                  c in b'.active && b'.active[c] == b.active[c])
  {
  }

  lemma TickInTime(b: Bus, a: Action, limit: Time, late: Time)
    requires Punctual(b, a, late) && a.Tick? && DelayedBy(b, limit)
    ensures b.clock + a.span <= limit + late
  {
    var d :| d in b.active && Delayed(b.active[d]) && Deadline(b, b.active[d]) <= limit;
  }

  ghost predicate PunctualInv(b: Bus) {
    Inv(b) && DeadlinesNear(b) && SentAsRecorded(b) && LastIsRecorded(b)
  }

  lemma StepPunctual(b: Bus, a: Action, late: Time)
    requires PunctualInv(b) && Punctual(b, a, late)
    ensures PunctualInv(Step(b, a))
  {
    assert Instant(b, a);
    hide Step, Inv, DeadlinesNear, SentAsRecorded, LastIsRecorded, Punctual, Instant, Spaced, Early;
    StepInv(b, a);
    StepDeadlines(b, a, late);
    StepSentAsRecorded(b, a);
    StepRecords(b, a);
  }

  lemma StepStillWillBe(b: Bus, a: Action, c: CallId, late: Time)
    requires PunctualInv(b) && Punctual(b, a, late)
    requires c in b.started && AnnouncedWithin(b, c, late) && !Covered(b, c) && Step(b, a).emissions == b.emissions
    ensures var b', limit := Step(b, a), Earliest(b, c);
            && b'.clock <= limit + late
            && ((c in b'.active && b'.active[c].Entered?) || Emitting(b') || DelayedBy(b', limit))
  {
    var limit := Earliest(b, c);
    StepBasics(b, a, c);
    assert a.Tick? ==> forall d :: d in b.active ==> b.active[d].Sleeping?;
    hide SentAsRecorded, LastIsRecorded;
    if a == Advance(c) && c in b.active && b.active[c].Entered? && !Emitting(b) {
      StepEntered(b, c);
    }
    hide Step, OneDelayed, Coverage, Bounded, DeadlinesNear, Covered, DelayedBy, Earliest;
    if Emitting(b) {
      StepEmitting(b, a);
    } else if DelayedBy(b, limit) {
      StepDelayed(b, a, limit);
      if a.Tick? {
        TickInTime(b, a, limit, late);
      }
    }
  }

  lemma EarliestStays(b: Bus, a: Action, c: CallId)
    requires c in b.started && b.started[c].sent <= |b.emissions|
    ensures var b' := Step(b, a);
            c in b'.started && b'.started[c].sent <= |b'.emissions| && Earliest(b', c) == Earliest(b, c)
  {
    StepBasics(b, a, c);
    hide Step;
  }

  lemma NewCallAnnounced(b: Bus, a: Action, c: CallId, late: Time)
    requires DeadlinesNear(b) && c !in b.started && c in Step(b, a).started
    ensures AnnouncedWithin(Step(b, a), c, late)
  {
    assert a == Call(c);
  }

  lemma OldCallAnnounced(b: Bus, a: Action, c: CallId, late: Time)
    requires PunctualInv(b) && Punctual(b, a, late) && c in b.started && AnnouncedWithin(b, c, late)
    ensures c in Step(b, a).started && AnnouncedWithin(Step(b, a), c, late)
  {
    hide Step, PunctualInv, DelayedBy, Emitting, Punctual, Earliest;
    StepBasics(b, a, c);
    EarliestStays(b, a, c);
    if !Covered(b, c) && Step(b, a).emissions == b.emissions {
      StepStillWillBe(b, a, c, late);
    }
  }

  lemma StepAnnounced(b: Bus, a: Action, c: CallId, late: Time)
    requires PunctualInv(b) && Punctual(b, a, late)
    requires c in b.started ==> AnnouncedWithin(b, c, late)
    ensures c in Step(b, a).started ==> AnnouncedWithin(Step(b, a), c, late)
  {
    hide Step, Inv, DeadlinesNear, SentAsRecorded, LastIsRecorded, Punctual, AnnouncedWithin;
    if c in b.started {
      OldCallAnnounced(b, a, c, late);
    } else if c in Step(b, a).started {
      NewCallAnnounced(b, a, c, late);
    }
  }

  lemma {:induction false} RunAnnounced(b: Bus, actions: seq<Action>, late: Time)
    requires PunctualInv(b) && AllAnnounced(b, late) && PunctualRun(b, actions, late)
    ensures AllAnnounced(Run(b, actions), late)
    decreases actions
  {
    hide Step, PunctualInv, AnnouncedWithin, Punctual;
    if actions != [] {
      var a := actions[0];
      StepPunctual(b, a, late);
      forall c | c in Step(b, a).started ensures AnnouncedWithin(Step(b, a), c, late) {
        StepAnnounced(b, a, c, late);
      }
      RunAnnounced(Step(b, a), actions[1..], late);
    }
  }

  /**
   Whatever the runtimes and the order of calls and timers, each call is announced as soon as the
   event before it is the debounce time ago, but for the lateness of a timer.
   */
  lemma AnnouncedInTime(clock: Time, actions: seq<Action>, late: Time)
    requires PunctualRun(Initial(clock), actions, late)
    ensures var b := Run(Initial(clock), actions);
            forall c :: c in b.started ==>
              && b.started[c].sent <= |b.emissions| && Earliest(b, c) <= b.started[c].at + DEBOUNCE
              && if Covered(b, c) then b.emissions[b.started[c].sent] <= Earliest(b, c) + late
                 else b.clock <= Earliest(b, c) + late
  {
    assert Senders(Initial(clock).active) == {};
    RunAnnounced(Initial(clock), actions, late);
    var b := Run(Initial(clock), actions);
    assert AllAnnounced(b, late);
  }

  // ----- progress: the bus can always come to rest -----

  predicate NoCalls(actions: seq<Action>) {
    forall i :: 0 <= i < |actions| ==> !actions[i].Call?
  }

  lemma {:induction false} RunConcat(b: Bus, x: seq<Action>, y: seq<Action>)
    ensures Run(b, x + y) == Run(Run(b, x), y)
    decreases x
  {
    if x == [] {
      assert x + y == y;
    } else {
      assert (x + y)[1..] == x[1..] + y;
      RunConcat(Step(b, x[0]), x[1..], y);
    }
  }

  function StagesLeft(b: Bus, pc: Pc): nat {
    match pc
    case Entered(_) => 5
    case WillDelay(_) => 4
    case Sleeping(due) => if b.clock < due then 3 else 2
    case NoRuntime => 2
    case WillEmit => 1
  }

  /** What brings an actor on. */
  function Next(b: Bus, c: CallId): Action
    requires c in b.active
  {
    match b.active[c]
    case WillDelay(_) => FindRuntime(c, true)
    case Sleeping(due) => if b.clock < due then Tick(due - b.clock) else Advance(c)
    case _ => Advance(c)
  }

  ghost predicate OthersStay(b: Bus, b': Bus, c: CallId) {
    && b'.started == b.started && b'.active - {c} == b.active - {c}
    && b.emissions <= b'.emissions
  }

  lemma NextBringsOn(b: Bus, c: CallId)
    requires c in b.active
    ensures var b' := Step(b, Next(b, c));
            OthersStay(b, b', c) && (c in b'.active ==> StagesLeft(b', b'.active[c]) < StagesLeft(b, b.active[c]))
  {
  }

  /** Every actor, wherever it stands, is at its end after at most five steps. */
  lemma {:induction false} FinishActor(b: Bus, c: CallId) returns (actions: seq<Action>)
    requires c in b.active
    ensures NoCalls(actions) && |actions| <= StagesLeft(b, b.active[c])
    ensures c !in Run(b, actions).active && OthersStay(b, Run(b, actions), c)
    decreases StagesLeft(b, b.active[c])
  {
    hide Step;
    NextBringsOn(b, c);
    var first := [Next(b, c)];
    var b' := Step(b, Next(b, c));
    assert Run(b, first) == b' by { assert first[1..] == []; }
    actions := first;
    if c in b'.active {
      var rest := FinishActor(b', c);
      RunConcat(b, first, rest);
      actions := first + rest;
    }
  }

  lemma {:induction false} FinishAll(b: Bus) returns (actions: seq<Action>)
    ensures NoCalls(actions) && Run(b, actions).active == map[] && Run(b, actions).started == b.started
    decreases b.active.Keys
  {
    if b.active == map[] {
      actions := [];
    } else {
      var c :| c in b.active;
      var first := FinishActor(b, c);
      var b' := Run(b, first);
      assert b'.active == b'.active - {c};
      assert c in b.active.Keys && b'.active.Keys <= b.active.Keys;
      var rest := FinishAll(b');
      RunConcat(b, first, rest);
      actions := first + rest;
    }
  }

  /** From every reachable state, without further calls, there is a way on which every call is announced. */
  lemma CanAlwaysAnnounce(clock: Time, actions: seq<Action>) returns (more: seq<Action>)
    ensures NoCalls(more)
    ensures var b, b' := Run(Initial(clock), actions), Run(Run(Initial(clock), actions), more);
            b'.active == map[] && b'.started == b.started && forall c :: c in b'.started ==> Covered(b', c)
  {
    var b := Run(Initial(clock), actions);
    more := FinishAll(b);
    RunInv(Initial(clock), actions);
    RunInv(b, more);
  }

  // ----- both, with a runtime and timers that run when they are due -----

  ghost predicate DueNow(b: Bus) {
    exists d :: d in b.active && b.active[d].Sleeping? && b.active[d].due <= b.clock
  }

  /**
   Calls take no time, time never passes a timer that is due, a due timer goes before
   a new call, and there is a runtime.
   */
  ghost predicate Prompt(b: Bus, a: Action) {
    match a
    case Tick(span) => forall d :: d in b.active ==> b.active[d].Sleeping? && b.clock + span <= b.active[d].due
    case Call(_) => !DueNow(b)
    case FindRuntime(_, present) => present
    case Advance(_) => true
  }

  ghost predicate PromptRun(b: Bus, actions: seq<Action>)
    decreases actions
  {
    actions != [] ==> Prompt(b, actions[0]) && PromptRun(Step(b, actions[0]), actions[1..])
  }

  /** Each kind of actor is timed against the last publication. */
  ghost predicate Timed(b: Bus, pc: Pc) {
    match pc
    case Entered(now) => now == b.clock
    case WillDelay(delay) =>
      b.lastPublishedAt.Some? && delay > 0 && b.clock + delay == b.lastPublishedAt.value + DEBOUNCE
    case NoRuntime => false
    case Sleeping(due) => b.lastPublishedAt.Some? && due == b.lastPublishedAt.value + DEBOUNCE && due >= b.clock
    case WillEmit => b.lastPublishedAt == Some(b.clock)
  }

  /** A due timer has the bus to itself. */
  ghost predicate DueAlone(b: Bus) {
    DueNow(b) ==> forall d :: d in b.active ==> b.active[d].Sleeping?
  }

  ghost predicate ActorsTimed(b: Bus) {
    && (forall d :: d in b.active ==> Timed(b, b.active[d]))
    && DueAlone(b)
    && (b.lastPublishedAt.Some? ==> b.lastPublishedAt.value <= b.clock)
  }

  /** The acting call or task itself. */
  lemma ActorTimed(b: Bus, c: CallId)
    requires OneDelayed(b) && ActorsTimed(b) && c in b.active
    ensures var b' := Step(b, Advance(c)); c in b'.active ==> Timed(b', b'.active[c])
  {
    assert Timed(b, b.active[c]);
  }

  /** Whoever records the time leaves no one behind who was timed against the old one. */
  lemma OtherTimed(b: Bus, c: CallId, d: CallId)
    requires OneDelayed(b) && ActorsTimed(b) && c in b.active && d in b.active && d != c
    ensures var b' := Step(b, Advance(c)); d in b'.active && Timed(b', b'.active[d])
  {
    assert Timed(b, b.active[c]) && Timed(b, b.active[d]);
    assert Releases(b, b.active[c]) ==> DueNow(b);
    assert Delayed(b.active[c]) && Delayed(b.active[d]) ==> false;
  }

  lemma StepActorTimed(b: Bus, a: Action, d: CallId)
    requires Prompt(b, a) && OneDelayed(b) && ActorsTimed(b)
    ensures d in Step(b, a).active ==> Timed(Step(b, a), Step(b, a).active[d])
  {
    if a.Advance? && a.c in b.active && d in b.active {
      if d == a.c { ActorTimed(b, d); } else { OtherTimed(b, a.c, d); }
    }
  }

  lemma StepDueAlone(b: Bus, a: Action)
    requires Prompt(b, a) && OneDelayed(b) && ActorsTimed(b)
    ensures DueAlone(Step(b, a))
  {
  }

  lemma StepActorsTimed(b: Bus, a: Action)
    requires Prompt(b, a) && OneDelayed(b) && ActorsTimed(b)
    ensures ActorsTimed(Step(b, a))
  {
    forall d | d in Step(b, a).active ensures Timed(Step(b, a), Step(b, a).active[d]) {
      StepActorTimed(b, a, d);
    }
    StepDueAlone(b, a);
    hide Prompt, OneDelayed, DueAlone, Timed;
  }

  ghost predicate TimedInv(b: Bus) {
    Inv(b) && ActorsTimed(b)
  }

  lemma StepTimed(b: Bus, a: Action)
    requires TimedInv(b) && Prompt(b, a)
    ensures TimedInv(Step(b, a))
  {
    hide Step, OneDelayed, Coverage, Bounded, ActorsTimed, Prompt;
    StepInv(b, a);
    StepActorsTimed(b, a);
  }

  /** In prompt steps no call overtakes the delayed publisher. */
  lemma PromptIsOnTime(b: Bus, a: Action)
    requires TimedInv(b) && Prompt(b, a)
    ensures Instant(b, a) && Punctual(b, a, 0) && !Overtakes(b, a) && (a.FindRuntime? ==> a.present)
  {
    assert a.Advance? && a.c in b.active ==> Timed(b, b.active[a.c]);
  }

  lemma {:induction false} RunTimed(b: Bus, actions: seq<Action>)
    requires TimedInv(b) && PromptRun(b, actions)
    ensures InstantRun(b, actions) && PunctualRun(b, actions, 0) && OrderlyRun(b, actions)
    decreases actions
  {
    hide TimedInv, Prompt, Step, Instant, Punctual, Overtakes;
    if actions != [] {
      PromptIsOnTime(b, actions[0]);
      StepTimed(b, actions[0]);
      RunTimed(Step(b, actions[0]), actions[1..]);
    }
  }

  /** So prompt runs are spaced, and announce every call within the debounce time by AnnouncedInTime. */
  lemma PromptRunsSpaced(clock: Time, actions: seq<Action>)
    requires PromptRun(Initial(clock), actions)
    ensures OrderlyRun(Initial(clock), actions) && PunctualRun(Initial(clock), actions, 0)
    ensures WellSpread(Run(Initial(clock), actions).emissions)
  {
    RunTimed(Initial(clock), actions);
    OrderlyEventsSpaced(clock, actions);
  }

  // ----- runs from the start in which spacing fails -----

  /** One more action at the end of a run. */
  lemma {:induction false} RunLast(b: Bus, actions: seq<Action>, a: Action)
    ensures Run(b, actions + [a]) == Step(Run(b, actions), a)
    ensures InstantRun(b, actions + [a]) <==> InstantRun(b, actions) && Instant(Run(b, actions), a)
    ensures NeverEarly(b, actions + [a]) <==> NeverEarly(b, actions) && !Early(Run(b, actions), a)
    decreases actions
  {
    hide Step, Instant, Early;
    if actions == [] {
      assert [] + [a] == [a] && [a][1..] == [];
    } else {
      assert (actions + [a])[1..] == actions[1..] + [a] && (actions + [a])[0] == actions[0];
      RunLast(Step(b, actions[0]), actions[1..], a);
    }
  }

  /** A call after the debounce time sends at once. */
  lemma DirectSend(actions: seq<Action>, b: Bus, c: CallId) returns (longer: seq<Action>, b': Bus)
    requires Run(Initial(0), actions) == b && c !in b.active && c !in b.started
    requires b.lastPublishedAt.Some? ==> b.lastPublishedAt.value + DEBOUNCE <= b.clock
    ensures longer == actions + [Call(c), Advance(c), Advance(c)] && Run(Initial(0), longer) == b'
    ensures b' == b.(lastPublishedAt := Some(b.clock), recorded := b.recorded + [b.clock],
                     emissions := b.emissions + [b.clock], started := b.started[c := Start(b.clock, |b.emissions|)])
    ensures InstantRun(Initial(0), longer) <==> InstantRun(Initial(0), actions)
    ensures NeverEarly(Initial(0), longer) <==> NeverEarly(Initial(0), actions)
  {
    hide Run, InstantRun, NeverEarly;
    var l1, l2 := actions + [Call(c)], actions + [Call(c)] + [Advance(c)];
    RunLast(Initial(0), actions, Call(c));
    RunLast(Initial(0), l1, Advance(c));
    RunLast(Initial(0), l2, Advance(c));
    longer := l2 + [Advance(c)];
    assert longer == actions + [Call(c), Advance(c), Advance(c)];
    b' := Step(Step(Step(b, Call(c)), Advance(c)), Advance(c));
    assert b'.active == b.active;
  }

  lemma CloseTogether(times: seq<Time>, i: nat)
    requires i + 1 < |times| && times[i + 1] < times[i] + DEBOUNCE
    ensures !Spaced(times)
  {
    var j := i + 1;
    assert !(times[i] + DEBOUNCE <= times[j]);
  }

  /** One event at time 0, and a second call a moment later that has to wait. */
  lemma SecondCallWaits() returns (actions: seq<Action>, b: Bus)
    ensures Run(Initial(0), actions) == b && InstantRun(Initial(0), actions)
    ensures actions == [Call(0), Advance(0), Advance(0), Tick(1), Call(1), Advance(1)]
    ensures b == Bus(1, Some(0), true, map[1 := WillDelay(DEBOUNCE - 1)],
                     map[0 := Start(0, 0), 1 := Start(1, 1)], [0], [0])
  {
    assert Run(Initial(0), []) == Initial(0) && InstantRun(Initial(0), []);
    hide Run, InstantRun, NeverEarly;
    var first, b1 := DirectSend([], Initial(0), 0);
    RunLast(Initial(0), first, Tick(1));
    RunLast(Initial(0), first + [Tick(1)], Call(1));
    RunLast(Initial(0), first + [Tick(1)] + [Call(1)], Advance(1));
    actions := first + [Tick(1)] + [Call(1)] + [Advance(1)];
    b := Step(Step(Step(b1, Tick(1)), Call(1)), Advance(1));
  }

  /** It finds no runtime and sends at once. */
  lemma MissingRuntimeBreaksSpacing() returns (actions: seq<Action>)
    ensures actions == [Call(0), Advance(0), Advance(0), Tick(1),
                        Call(1), Advance(1), FindRuntime(1, false), Advance(1), Advance(1)]
    ensures InstantRun(Initial(0), actions) && !Spaced(Run(Initial(0), actions).emissions)
  {
    hide Run, InstantRun, NeverEarly, Spaced;
    var waits, b := SecondCallWaits();
    RunLast(Initial(0), waits, FindRuntime(1, false));
    RunLast(Initial(0), waits + [FindRuntime(1, false)], Advance(1));
    RunLast(Initial(0), waits + [FindRuntime(1, false)] + [Advance(1)], Advance(1));
    actions := waits + [FindRuntime(1, false)] + [Advance(1)] + [Advance(1)];
    CloseTogether(Run(Initial(0), actions).emissions, 0);
  }

  /** Its timer runs late: a third call sends, and so does the delayed task at the same moment. */
  lemma LateTimerBreaksSpacing() returns (actions: seq<Action>)
    ensures actions == [Call(0), Advance(0), Advance(0), Tick(1),
                        Call(1), Advance(1), FindRuntime(1, true), Tick(DEBOUNCE),
                        Call(2), Advance(2), Advance(2), Advance(1), Advance(1)]
    ensures InstantRun(Initial(0), actions) && !Spaced(Run(Initial(0), actions).emissions)
  {
    hide Run, InstantRun, NeverEarly, Spaced;
    var waits, b := SecondCallWaits();
    RunLast(Initial(0), waits, FindRuntime(1, true));
    RunLast(Initial(0), waits + [FindRuntime(1, true)], Tick(DEBOUNCE));
    var overdue := Step(Step(b, FindRuntime(1, true)), Tick(DEBOUNCE));
    assert overdue.active == map[1 := Sleeping(DEBOUNCE)];
    var direct, b' := DirectSend(waits + [FindRuntime(1, true)] + [Tick(DEBOUNCE)], overdue, 2);
    RunLast(Initial(0), direct, Advance(1));
    RunLast(Initial(0), direct + [Advance(1)], Advance(1));
    actions := direct + [Advance(1)] + [Advance(1)];
    CloseTogether(Run(Initial(0), actions).emissions, 1);
  }

  /** No timer and no missing runtime at all: a call that takes its time between recording and sending. */
  lemma SlowCallBreaksSpacing() returns (actions: seq<Action>)
    ensures NeverEarly(Initial(0), actions) && !Spaced(Run(Initial(0), actions).emissions)
    ensures actions == [Call(0), Advance(0), Tick(1), Advance(0), Tick(DEBOUNCE - 1), Call(1), Advance(1), Advance(1)]
  {
    assert Run(Initial(0), []) == Initial(0) && NeverEarly(Initial(0), []);
    hide Run, InstantRun, NeverEarly, Spaced;
    var l1 := [Call(0)];
    assert [] + [Call(0)] == l1;
    RunLast(Initial(0), [], Call(0));
    RunLast(Initial(0), l1, Advance(0));
    RunLast(Initial(0), l1 + [Advance(0)], Tick(1));
    RunLast(Initial(0), l1 + [Advance(0)] + [Tick(1)], Advance(0));
    var b1 := Step(Step(Step(Step(Initial(0), Call(0)), Advance(0)), Tick(1)), Advance(0));
    assert b1 == Bus(1, Some(0), false, map[], map[0 := Start(0, 0)], [1], [0]);
    var l4 := l1 + [Advance(0)] + [Tick(1)] + [Advance(0)];
    RunLast(Initial(0), l4, Tick(DEBOUNCE - 1));
    var l5, b2 := l4 + [Tick(DEBOUNCE - 1)], Step(b1, Tick(DEBOUNCE - 1));
    var direct, b' := DirectSend(l5, b2, 1);
    actions := direct;
    CloseTogether(Run(Initial(0), actions).emissions, 0);
  }
}
