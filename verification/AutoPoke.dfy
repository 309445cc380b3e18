/**
 The auto-poke drivers of `jcode run` (src/cli/commands.rs) over the follow-up
 decision they share, with the todo checks of crates/jcode-base/src/todo.rs.
 The agent's turns and the todo lists they leave behind are arbitrary inputs.
 */
module AutoPoke {
  import opened Prelude

  datatype Todo = Todo(
    status: string, confidence: Option<nat>, completionConfidence: Option<nat>, confidenceHistory: seq<nat>)

  const CONFIDENCE_THRESHOLD := 90
  const CONFIDENCE_SPIKE := 15

  datatype Message =
    | Prompt(text: string)
    | Poke(incomplete: nat)
    | CompletionContinuation
    | SpikeContinuation

  datatype FollowUp =
    | Incomplete(count: nat, message: Message)
    | ConfidenceSummary(totalTodos: nat, message: Message, spikeChallenge: bool)

  // ----- the decision after a turn -----

  predicate Closed(t: Todo) {
    t.status == "completed" || t.status == "cancelled"
  }

  function OpenTodos(todos: seq<Todo>): seq<Todo> {
    if todos == [] then []
    else
      var last := todos[|todos| - 1];
      OpenTodos(todos[..|todos| - 1]) + if Closed(last) then [] else [last]
  }

  function Completed(todos: seq<Todo>): seq<Todo> {
    if todos == [] then []
    else (if todos[0].status == "completed" then [todos[0]] else []) + Completed(todos[1..])
  }

  predicate Sure(t: Todo) {
    t.completionConfidence.Some? && t.completionConfidence.value >= CONFIDENCE_THRESHOLD
  }

  function SaturatingSub(a: nat, b: nat): nat {
    if a > b then a - b else 0
  }

  /** The final recorded confidence step was abrupt. */
  predicate Spiked(t: Todo) {
    var n := |t.confidenceHistory|;
    if n == 0 then
      t.confidence.Some? && t.completionConfidence.Some?
      && SaturatingSub(t.completionConfidence.value, t.confidence.value) >= CONFIDENCE_SPIKE
    else n > 1 && SaturatingSub(t.confidenceHistory[n - 1], t.confidenceHistory[n - 2]) >= CONFIDENCE_SPIKE
  }

  function ValidationMessage(todos: seq<Todo>, allowSpikeChallenge: bool): Option<(Message, bool)> {
    var completed := Completed(todos);
    if completed == [] then None
    else if exists t :: t in completed && !Sure(t) then Some((CompletionContinuation, false))
    else if allowSpikeChallenge && exists t :: t in completed && Spiked(t) then Some((SpikeContinuation, true))
    else None
  }

  function FollowUpFor(todos: seq<Todo>, challenged: bool): Option<FollowUp> {
    var open := OpenTodos(todos);
    if open != [] then Some(Incomplete(|open|, Poke(|open|)))
    else if todos == [] then None
    else
      match ValidationMessage(todos, !challenged)
      case None => None
      case Some((message, spike)) => Some(ConfidenceSummary(|todos|, message, spike))
  }

  predicate LimitReached(turnsCompleted: nat, maxTurns: Option<nat>) {
    maxTurns.Some? && turnsCompleted >= maxTurns.value
  }

  // ----- what the decision means, told from the todos' own fields -----

  ghost predicate Unfinished(t: Todo) {
    t.status != "completed" && t.status != "cancelled"
  }

  ghost function UnfinishedAt(todos: seq<Todo>): set<nat> {
    set i: nat | i < |todos| && Unfinished(todos[i])
  }

  /** Completed without a score, or with one below 90. */
  ghost predicate Unproven(t: Todo) {
    t.status == "completed" && (t.completionConfidence == None || t.completionConfidence.value < 90)
  }

  /** The recorded scores; an old record without a history has its first and its last one. */
  ghost function Scores(t: Todo): seq<nat> {
    if t.confidenceHistory != [] then t.confidenceHistory
    else if t.confidence == None || t.completionConfidence == None then []
    else [t.confidence.value, t.completionConfidence.value]
  }

  /** Completed with a last score at least 15 above the one before it. */
  ghost predicate Jumped(t: Todo) {
    var scores := Scores(t);
    var n := |scores|;
    t.status == "completed" && n >= 2 && scores[n - 2] + 15 <= scores[n - 1]
  }

  /** As many todos are listed as there are positions with an open one. */
  lemma {:induction false} OpenCount(todos: seq<Todo>)
    ensures |OpenTodos(todos)| == |UnfinishedAt(todos)|
  {
    if todos != [] {
      var n := |todos| - 1;
      OpenCount(todos[..n]);
      assert forall i :: 0 <= i < n ==> todos[..n][i] == todos[i];
      assert UnfinishedAt(todos) == UnfinishedAt(todos[..n]) + if Unfinished(todos[n]) then {n} else {};
    }
  }

  lemma NoneOpen(todos: seq<Todo>)
    ensures OpenTodos(todos) == [] <==> UnfinishedAt(todos) == {}
  {
    OpenCount(todos);
  }

  lemma {:induction false} CompletedMembers(todos: seq<Todo>, t: Todo)
    ensures t in Completed(todos) <==> t in todos && t.status == "completed"
  {
    if todos != [] {
      CompletedMembers(todos[1..], t);
    }
  }

  /** What the validation looks at. */
  lemma CompletedKinds(todos: seq<Todo>)
    ensures (exists t :: t in Completed(todos) && !Sure(t)) <==> exists t :: t in todos && Unproven(t)
    ensures (exists t :: t in Completed(todos) && Spiked(t)) <==> exists t :: t in todos && Jumped(t)
    ensures Completed(todos) == [] ==> forall t :: t in todos ==> !Unproven(t) && !Jumped(t)
  {
    forall t ensures t in Completed(todos) <==> t in todos && t.status == "completed" {
      CompletedMembers(todos, t);
    }
    forall t: Todo ensures Unproven(t) <==> t.status == "completed" && !Sure(t) {
    }
    forall t ensures Jumped(t) <==> t.status == "completed" && Spiked(t) {
    }
    hide Completed, Sure, Spiked, Unproven, Jumped;
  }

  /** The work is done: everything closed, every completed item sure, no spike left to challenge. */
  ghost predicate NothingToDo(todos: seq<Todo>, challenged: bool) {
    && UnfinishedAt(todos) == {}
    && (forall t :: t in todos ==> !Unproven(t))
    && (challenged || forall t :: t in todos ==> !Jumped(t))
  }

  /** No follow-up is made exactly when nothing is left to do. */
  lemma NoFollowUpIff(todos: seq<Todo>, challenged: bool)
    ensures FollowUpFor(todos, challenged) == None <==> NothingToDo(todos, challenged)
  {
    hide OpenTodos, Completed, Sure, Spiked, UnfinishedAt, Unproven, Jumped;
    NoneOpen(todos);
    CompletedKinds(todos);
  }

  /** And otherwise it is fixed by the todos: open ones first, then unsure ones, then an unchallenged spike. */
  lemma FollowUpExactly(todos: seq<Todo>, challenged: bool, f: FollowUp)
    requires FollowUpFor(todos, challenged) == Some(f)
    ensures var open := |UnfinishedAt(todos)|;
            if open > 0 then f == Incomplete(open, Poke(open))
            else if exists t :: t in todos && Unproven(t) then
              f == ConfidenceSummary(|todos|, CompletionContinuation, false)
            else
              && !challenged && (exists t :: t in todos && Jumped(t))
              && f == ConfidenceSummary(|todos|, SpikeContinuation, true)
  {
    hide OpenTodos, Completed, Sure, Spiked, UnfinishedAt, Unproven, Jumped;
    OpenCount(todos);
    CompletedKinds(todos);
  }

  // ----- a whole run, told without any of the loops -----

  /** One turn of the agent and what it leaves behind. */
  datatype Turn = Turn(ok: bool, reply: string, pokingEnabled: bool, todos: seq<Todo>)

  datatype StopReason = Disabled | Done | LimitIncomplete(count: nat) | LimitConfidence

  datatype Status = Running(next: Message) | Failed | Stopped(reason: StopReason)

  datatype Outcome = Outcome(sent: seq<Message>, status: Status)

  function LimitReason(f: FollowUp): StopReason {
    match f
    case Incomplete(count, _) => LimitIncomplete(count)
    case ConfidenceSummary(_, _, _) => LimitConfidence
  }

  predicate Challenges(f: FollowUp) {
    f.ConfidenceSummary? && f.spikeChallenge
  }

  /** What is sent over the given turns; a run longer than them is still running. */
  function Drive(next: Message, turnsCompleted: nat, challenged: bool, maxTurns: Option<nat>, env: seq<Turn>): Outcome
    decreases env
  {
    if env == [] then Outcome([], Running(next))
    else if !env[0].ok then Outcome([next], Failed)
    else if !env[0].pokingEnabled then Outcome([next], Stopped(Disabled))
    else
      match FollowUpFor(env[0].todos, challenged)
      case None => Outcome([next], Stopped(Done))
      case Some(f) =>
        if LimitReached(turnsCompleted + 1, maxTurns) then Outcome([next], Stopped(LimitReason(f)))
        else
          var rest := Drive(f.message, turnsCompleted + 1, challenged || Challenges(f), maxTurns, env[1..]);
          Outcome([next] + rest.sent, rest.status)
  }

  /** At most one turn per allowed turn. */
  lemma {:induction false} NeverPastLimit(next: Message, turns: nat, challenged: bool, max: nat, env: seq<Turn>)
    requires turns < max
    ensures turns + |Drive(next, turns, challenged, Some(max), env).sent| <= max
    decreases env
  {
    if env != [] && env[0].ok && env[0].pokingEnabled && turns + 1 < max {
      match FollowUpFor(env[0].todos, challenged)
      case None =>
      case Some(f) => NeverPastLimit(f.message, turns + 1, challenged || Challenges(f), max, env[1..]);
    }
  }

  ghost function Challenged(sent: seq<Message>): nat {
    if sent == [] then 0 else (if sent[0] == SpikeContinuation then 1 else 0) + Challenged(sent[1..])
  }

  /** A challenge goes out only with the latch open, and closes it. */
  lemma ChallengeClosesLatch(todos: seq<Todo>, challenged: bool, f: FollowUp)
    requires FollowUpFor(todos, challenged) == Some(f)
    ensures f.message == SpikeContinuation <==> Challenges(f)
    ensures Challenges(f) ==> !challenged
    ensures if f.Incomplete? then f.count == |UnfinishedAt(todos)| > 0 else UnfinishedAt(todos) == {}
  {
    OpenCount(todos);
  }

  lemma {:induction false} ChallengedAtMostOnce(
    next: Message, turns: nat, challenged: bool, maxTurns: Option<nat>, env: seq<Turn>)
    requires next == SpikeContinuation ==> challenged
    ensures Challenged(Drive(next, turns, challenged, maxTurns, env).sent)
         <= if next == SpikeContinuation || !challenged then 1 else 0
    decreases env
  {
    if env != [] && env[0].ok && env[0].pokingEnabled {
      match FollowUpFor(env[0].todos, challenged)
      case None =>
      case Some(f) =>
        if !LimitReached(turns + 1, maxTurns) {
          var latch := challenged || Challenges(f);
          ChallengeClosesLatch(env[0].todos, challenged, f);
          ChallengedAtMostOnce(f.message, turns + 1, latch, maxTurns, env[1..]);
          var rest := Drive(f.message, turns + 1, latch, maxTurns, env[1..]).sent;
          assert ([next] + rest)[1..] == rest;
        }
    }
  }

  /** No further turn is allowed. */
  ghost predicate AtLimit(turns: nat, maxTurns: Option<nat>) {
    maxTurns.Some? && maxTurns.value <= turns
  }

  /** The condition under which the turn that ended a run ended it. */
  ghost predicate Justified(reason: StopReason, last: Turn, turns: nat, maxTurns: Option<nat>, challenged: bool) {
    last.ok &&
    match reason
    case Disabled => !last.pokingEnabled
    case Done => last.pokingEnabled && NothingToDo(last.todos, challenged)
    case LimitIncomplete(count) =>
      last.pokingEnabled && AtLimit(turns, maxTurns) && count == |UnfinishedAt(last.todos)| > 0
    case LimitConfidence =>
      last.pokingEnabled && AtLimit(turns, maxTurns) && UnfinishedAt(last.todos) == {}
      && !NothingToDo(last.todos, challenged)
  }

  /** A run of successful turns stops only for one of these reasons, and says which. */
  lemma {:induction false} StopIsJustified(
    next: Message, turns: nat, challenged: bool, maxTurns: Option<nat>, env: seq<Turn>)
    requires next == SpikeContinuation ==> challenged
    ensures var o := Drive(next, turns, challenged, maxTurns, env);
            && |o.sent| <= |env|
            && (o.status.Running? ==> |o.sent| == |env|)
            && (o.status == Failed ==> |o.sent| > 0 && !env[|o.sent| - 1].ok)
            && (o.status.Stopped? ==>
                  |o.sent| > 0 && Justified(o.status.reason, env[|o.sent| - 1], turns + |o.sent|, maxTurns,
                                            challenged || SpikeContinuation in o.sent))
    decreases env
  {
    hide FollowUpFor, NothingToDo, UnfinishedAt;
    if env != [] && env[0].ok && env[0].pokingEnabled {
      NoFollowUpIff(env[0].todos, challenged);
      match FollowUpFor(env[0].todos, challenged)
      case None =>
      case Some(f) =>
        ChallengeClosesLatch(env[0].todos, challenged, f);
        if !LimitReached(turns + 1, maxTurns) {
          var latch := challenged || Challenges(f);
          StopIsJustified(f.message, turns + 1, latch, maxTurns, env[1..]);
          SentFirst(f.message, turns + 1, latch, maxTurns, env[1..]);
          var rest := Drive(f.message, turns + 1, latch, maxTurns, env[1..]);
          assert Challenges(f) && rest.sent != [] ==> SpikeContinuation in rest.sent;
          assert forall m :: m in [next] + rest.sent <==> m == next || m in rest.sent;
        }
    }
  }

  lemma SentFirst(next: Message, turns: nat, challenged: bool, maxTurns: Option<nat>, env: seq<Turn>)
    ensures var sent := Drive(next, turns, challenged, maxTurns, env).sent;
            if env == [] then sent == [] else sent != [] && sent[0] == next
  {
  }

  /** The message that the todos of a turn call for. */
  ghost predicate CalledFor(todos: seq<Todo>, challenged: bool, message: Message) {
    var open := |UnfinishedAt(todos)|;
    if open > 0 then message == Poke(open)
    else if exists t :: t in todos && Unproven(t) then message == CompletionContinuation
    else !challenged && (exists t :: t in todos && Jumped(t)) && message == SpikeContinuation
  }

  /** The follow-up after turn i is the one that turn calls for, given the challenges up to then. */
  ghost predicate FollowsTurn(sent: seq<Message>, challenged: bool, env: seq<Turn>, i: nat)
    requires i < |env| && i + 1 < |sent|
  {
    && env[i].ok && env[i].pokingEnabled
    && CalledFor(env[i].todos, challenged || SpikeContinuation in sent[..i + 1], sent[i + 1])
  }

  ghost predicate EachCalledFor(sent: seq<Message>, challenged: bool, env: seq<Turn>) {
    forall i :: 0 <= i < |env| && i + 1 < |sent| ==> FollowsTurn(sent, challenged, env, i)
  }

  lemma CalledForFirst(
    next: Message, challenged: bool, f: FollowUp, rest: seq<Message>, env: seq<Turn>)
    requires env != [] && env[0].ok && env[0].pokingEnabled && FollowUpFor(env[0].todos, challenged) == Some(f)
    requires next == SpikeContinuation ==> challenged
    requires rest != [] ==> rest[0] == f.message
    requires EachCalledFor(rest, challenged || Challenges(f), env[1..])
    ensures EachCalledFor([next] + rest, challenged, env)
  {
    hide FollowUpFor;
    FollowUpExactly(env[0].todos, challenged, f);
    assert rest != [] ==> CalledFor(env[0].todos, challenged, rest[0]);
    ChallengeClosesLatch(env[0].todos, challenged, f);
    hide CalledFor, Challenges;
    var sent := [next] + rest;
    forall i | 0 <= i < |env| && i + 1 < |sent| ensures FollowsTurn(sent, challenged, env, i) {
      if i == 0 {
        assert sent[..1] == [next];
      } else {
        assert FollowsTurn(rest, challenged || Challenges(f), env[1..], i - 1);
        assert sent[..i + 1] == [next] + rest[..i] && rest[..i][0] == f.message;
      }
    }
  }

  lemma {:induction false} FollowUpsCalledFor(
    next: Message, turns: nat, challenged: bool, maxTurns: Option<nat>, env: seq<Turn>)
    requires next == SpikeContinuation ==> challenged
    ensures EachCalledFor(Drive(next, turns, challenged, maxTurns, env).sent, challenged, env)
    decreases env
  {
    hide FollowUpFor, CalledFor, Challenges;
    if env != [] && env[0].ok && env[0].pokingEnabled && !LimitReached(turns + 1, maxTurns) {
      match FollowUpFor(env[0].todos, challenged)
      case None =>
      case Some(f) =>
        var latch := challenged || Challenges(f);
        ChallengeClosesLatch(env[0].todos, challenged, f);
        FollowUpsCalledFor(f.message, turns + 1, latch, maxTurns, env[1..]);
        SentFirst(f.message, turns + 1, latch, maxTurns, env[1..]);
        CalledForFirst(next, challenged, f, Drive(f.message, turns + 1, latch, maxTurns, env[1..]).sent, env);
    }
  }

  /** With open todos after every successful turn, only the limit ends the run. */
  lemma {:induction false} PersistsWhileOpen(
    next: Message, turns: nat, challenged: bool, maxTurns: Option<nat>, env: seq<Turn>)
    requires forall t :: t in env ==> t.ok && t.pokingEnabled && UnfinishedAt(t.todos) != {}
    requires maxTurns.Some? ==> turns < maxTurns.value
    ensures var sent := Drive(next, turns, challenged, maxTurns, env).sent;
            |sent| == if maxTurns.Some? && maxTurns.value - turns < |env| then maxTurns.value - turns else |env|
    decreases env
  {
    if env != [] {
      assert env[0] in env;
      NoneOpen(env[0].todos);
      if !LimitReached(turns + 1, maxTurns) {
        var f := FollowUpFor(env[0].todos, challenged).value;
        PersistsWhileOpen(f.message, turns + 1, challenged || Challenges(f), maxTurns, env[1..]);
      }
    }
  }

  // ----- the three drivers -----

  /** `JCODE_RUN_AUTO_POKE_MAX_TURNS` once parsed: zero means no limit. */
  function MaxTurns(parsed: Option<nat>): (m: Option<nat>)
    ensures m.Some? <==> parsed.Some? && parsed.value > 0
    ensures m.Some? ==> m == parsed
  {
    if parsed == Some(0) then None else parsed
  }

  /** Everything promised about a run, for whatever turns the agent makes. */
  lemma RunGuarantees(message: string, parsed: Option<nat>, env: seq<Turn>)
    ensures var maxTurns := MaxTurns(parsed);
            var o := Drive(Prompt(message), 0, false, maxTurns, env);
            && (maxTurns.Some? ==> |o.sent| <= maxTurns.value)
            && Challenged(o.sent) <= 1
            && |o.sent| <= |env| && EachCalledFor(o.sent, false, env)
            && (o.status.Stopped? ==>
                  |o.sent| > 0 && Justified(o.status.reason, env[|o.sent| - 1], |o.sent|, maxTurns,
                                            SpikeContinuation in o.sent))
  {
    hide Drive, Justified, Challenged, EachCalledFor;
    var maxTurns := MaxTurns(parsed);
    if maxTurns.Some? {
      NeverPastLimit(Prompt(message), 0, false, maxTurns.value, env);
    }
    ChallengedAtMostOnce(Prompt(message), 0, false, maxTurns, env);
    StopIsJustified(Prompt(message), 0, false, maxTurns, env);
    FollowUpsCalledFor(Prompt(message), 0, false, maxTurns, env);
  }

  datatype Note = Announced(message: Message) | Halted(reason: StopReason)

  function Announcements(sent: seq<Message>): seq<Note> {
    seq(|sent|, i requires 0 <= i < |sent| => Announced(sent[i]))
  }

  function Halt(status: Status): seq<Note> {
    if status.Stopped? && status.reason != Disabled && status.reason != Done then [Halted(status.reason)] else []
  }

  function Pending(status: Status): seq<Message> {
    if status.Running? then [status.next] else []
  }

  /** What the stderr notices and the NDJSON records say: each follow-up as it is chosen, and a limit hit. */
  function NotesOf(o: Outcome): seq<Note> {
    var all := o.sent + Pending(o.status);
    (if all == [] then [] else Announcements(all[1..])) + Halt(o.status)
  }

  /** Where a driver stands: what was sent, what comes next, and the run that must come of it. */
  ghost predicate OnTrack(
    whole: Outcome, sent: seq<Message>, next: Message, turns: nat, challenged: bool, maxTurns: Option<nat>,
    env: seq<Turn>)
  {
    turns <= |env| &&
    var rest := Drive(next, turns, challenged, maxTurns, env[turns..]);
    whole == Outcome(sent + rest.sent, rest.status)
  }

  lemma TrackEnds(
    whole: Outcome, sent: seq<Message>, next: Message, turns: nat, challenged: bool, maxTurns: Option<nat>,
    env: seq<Turn>)
    requires OnTrack(whole, sent, next, turns, challenged, maxTurns, env)
    ensures turns == |env| ==> whole == Outcome(sent, Running(next))
    ensures turns < |env| && !env[turns].ok ==> whole == Outcome(sent + [next], Failed)
    ensures turns < |env| && env[turns].ok && !env[turns].pokingEnabled ==>
              whole == Outcome(sent + [next], Stopped(Disabled))
  {
  }

  lemma TrackStep(
    whole: Outcome, sent: seq<Message>, next: Message, turns: nat, challenged: bool, maxTurns: Option<nat>,
    env: seq<Turn>)
    requires OnTrack(whole, sent, next, turns, challenged, maxTurns, env)
    requires turns < |env| && env[turns].ok && env[turns].pokingEnabled
    ensures match FollowUpFor(env[turns].todos, challenged)
            case None => whole == Outcome(sent + [next], Stopped(Done))
            case Some(f) =>
              if LimitReached(turns + 1, maxTurns) then whole == Outcome(sent + [next], Stopped(LimitReason(f)))
              else OnTrack(whole, sent + [next], f.message, turns + 1, challenged || Challenges(f), maxTurns, env)
  {
  }

  function NotesSoFar(sent: seq<Message>, next: Message): seq<Note> {
    Announcements((sent + [next])[1..])
  }

  lemma NotesStep(sent: seq<Message>, next: Message, later: Message)
    ensures NotesSoFar(sent + [next], later) == NotesSoFar(sent, next) + [Announced(later)]
    ensures NotesOf(Outcome(sent, Running(next))) == NotesSoFar(sent, next)
    ensures forall status: Status :: !status.Running? ==>
              NotesOf(Outcome(sent + [next], status)) == NotesSoFar(sent, next) + Halt(status)
  {
  }

  lemma StartTrack(message: string, maxTurns: Option<nat>, env: seq<Turn>)
    ensures OnTrack(Drive(Prompt(message), 0, false, maxTurns, env), [], Prompt(message), 0, false, maxTurns, env)
    ensures NotesSoFar([], Prompt(message)) == []
  {
  }

  method RunPlain(message: string, maxTurns: Option<nat>, env: seq<Turn>) returns (o: Outcome, notices: seq<Note>)
    ensures o == Drive(Prompt(message), 0, false, maxTurns, env)
    ensures notices == NotesOf(o)
  {
    hide FollowUpFor, NotesSoFar, NotesOf, OnTrack;
    ghost var whole := Drive(Prompt(message), 0, false, maxTurns, env);
    StartTrack(message, maxTurns, env);
    var next, turnsCompleted, challenged := Prompt(message), 0, false;
    var sent: seq<Message> := [];
    notices := [];
    while turnsCompleted < |env|
      invariant turnsCompleted <= |env| && OnTrack(whole, sent, next, turnsCompleted, challenged, maxTurns, env)
      invariant notices == NotesSoFar(sent, next)
    {
      TrackEnds(whole, sent, next, turnsCompleted, challenged, maxTurns, env);
      var turn := env[turnsCompleted];
      NotesStep(sent, next, next);
      if !turn.ok {
        return Outcome(sent + [next], Failed), notices;
      }
      if turn.pokingEnabled {
        TrackStep(whole, sent, next, turnsCompleted, challenged, maxTurns, env);
      }
      sent := sent + [next];
      turnsCompleted := turnsCompleted + 1;
      if !turn.pokingEnabled {
        return Outcome(sent, Stopped(Disabled)), notices;
      }
      match FollowUpFor(turn.todos, challenged)
      case Some(ConfidenceSummary(_, message, spikeChallenge)) =>
        if LimitReached(turnsCompleted, maxTurns) {
          return Outcome(sent, Stopped(LimitConfidence)), notices + [Halted(LimitConfidence)];
        }
        challenged := challenged || spikeChallenge;
        NotesStep(sent[..|sent| - 1], next, message);
        next := message;
        notices := notices + [Announced(message)];
      case Some(Incomplete(count, message)) =>
        if LimitReached(turnsCompleted, maxTurns) {
          return Outcome(sent, Stopped(LimitIncomplete(count))), notices + [Halted(LimitIncomplete(count))];
        }
        NotesStep(sent[..|sent| - 1], next, message);
        next := message;
        notices := notices + [Announced(message)];
      case None =>
        return Outcome(sent, Stopped(Done)), notices;
    }
    TrackEnds(whole, sent, next, turnsCompleted, challenged, maxTurns, env);
    NotesStep(sent, next, next);
    o := Outcome(sent, Running(next));
  }

  datatype Output = Reply(text: string) | StopNotice(reason: StopReason)

  function Replies(env: seq<Turn>): seq<Output> {
    seq(|env|, i requires 0 <= i < |env| => Reply(env[i].reply))
  }

  function StopNotices(status: Status): seq<Output> {
    if status.Stopped? && status.reason != Disabled && status.reason != Done then [StopNotice(status.reason)] else []
  }

  /** Collects the replies; an error discards them. */
  method RunCapture(message: string, maxTurns: Option<nat>, env: seq<Turn>) returns (o: Outcome, outputs: seq<Output>)
    ensures o == Drive(Prompt(message), 0, false, maxTurns, env)
    ensures |o.sent| <= |env|
    ensures outputs == if o.status.Failed? then [] else Replies(env[..|o.sent|]) + StopNotices(o.status)
  {
    hide FollowUpFor, OnTrack;
    ghost var whole := Drive(Prompt(message), 0, false, maxTurns, env);
    StartTrack(message, maxTurns, env);
    var next, turnsCompleted, challenged := Prompt(message), 0, false;
    var sent: seq<Message> := [];
    outputs := [];
    while turnsCompleted < |env|
      invariant |sent| == turnsCompleted <= |env|
      invariant OnTrack(whole, sent, next, turnsCompleted, challenged, maxTurns, env)
      invariant outputs == Replies(env[..turnsCompleted])
    {
      TrackEnds(whole, sent, next, turnsCompleted, challenged, maxTurns, env);
      var turn := env[turnsCompleted];
      if !turn.ok {
        return Outcome(sent + [next], Failed), [];
      }
      if turn.pokingEnabled {
        TrackStep(whole, sent, next, turnsCompleted, challenged, maxTurns, env);
      }
      sent := sent + [next];
      outputs := outputs + [Reply(turn.reply)];
      turnsCompleted := turnsCompleted + 1;
      if !turn.pokingEnabled {
        return Outcome(sent, Stopped(Disabled)), outputs;
      }
      match FollowUpFor(turn.todos, challenged)
      case Some(ConfidenceSummary(_, message, spikeChallenge)) =>
        if LimitReached(turnsCompleted, maxTurns) {
          return Outcome(sent, Stopped(LimitConfidence)), outputs + [StopNotice(LimitConfidence)];
        }
        challenged := challenged || spikeChallenge;
        next := message;
      case Some(Incomplete(count, message)) =>
        if LimitReached(turnsCompleted, maxTurns) {
          return Outcome(sent, Stopped(LimitIncomplete(count))), outputs + [StopNotice(LimitIncomplete(count))];
        }
        next := message;
      case None =>
        return Outcome(sent, Stopped(Done)), outputs;
    }
    TrackEnds(whole, sent, next, turnsCompleted, challenged, maxTurns, env);
    o := Outcome(sent, Running(next));
  }

  /** Keeps the result in a variable and leaves the loop by `break`. */
  method RunNdjson(message: string, maxTurns: Option<nat>, env: seq<Turn>) returns (o: Outcome, records: seq<Note>)
    ensures o == Drive(Prompt(message), 0, false, maxTurns, env)
    ensures records == NotesOf(o)
  {
    hide FollowUpFor, NotesSoFar, NotesOf, OnTrack;
    ghost var whole := Drive(Prompt(message), 0, false, maxTurns, env);
    StartTrack(message, maxTurns, env);
    var next, turnsCompleted, challenged := Prompt(message), 0, false;
    var sent: seq<Message> := [];
    var status := Running(next);
    records := [];
    while turnsCompleted < |env|
      invariant turnsCompleted <= |env| && status == Running(next)
      invariant OnTrack(whole, sent, next, turnsCompleted, challenged, maxTurns, env)
      invariant records == NotesSoFar(sent, next)
    {
      TrackEnds(whole, sent, next, turnsCompleted, challenged, maxTurns, env);
      ghost var before := sent;
      NotesStep(before, next, next);
      var turn := env[turnsCompleted];
      if turn.ok && turn.pokingEnabled {
        TrackStep(whole, sent, next, turnsCompleted, challenged, maxTurns, env);
      }
      sent := sent + [next];
      if !turn.ok {
        status := Failed;
        break;
      }
      turnsCompleted := turnsCompleted + 1;
      if !turn.pokingEnabled {
        status := Stopped(Disabled);
        break;
      }
      var followUp := FollowUpFor(turn.todos, challenged);
      if followUp == None {
        status := Stopped(Done);
        break;
      }
      var f := followUp.value;
      if LimitReached(turnsCompleted, maxTurns) {
        var reason := if f.Incomplete? then LimitIncomplete(f.count) else LimitConfidence;
        records := records + [Halted(reason)];
        status := Stopped(reason);
        break;
      }
      if f.ConfidenceSummary? {
        challenged := challenged || f.spikeChallenge;
      }
      NotesStep(before, next, f.message);
      next := f.message;
      status := Running(next);
      records := records + [Announced(next)];
    }
    if status.Running? {
      TrackEnds(whole, sent, next, turnsCompleted, challenged, maxTurns, env);
      NotesStep(sent, next, next);
    }
    o := Outcome(sent, status);
  }
}
