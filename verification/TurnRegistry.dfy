/**
 The process-wide registry of cancel signals of running turns
 (crates/jcode-app-core/src/turn_cancel_registry.rs) and the cancel that fires them
 (crates/jcode-app-core/src/server/state.rs). Each call is one step.
 */
module TurnRegistry {
  import opened Prelude

  /** An interrupt signal seen at whole-call granularity; clones share the object. */
  class Signal {
    var flag: bool
    var epoch: nat

    constructor ()
      ensures !flag && epoch == 0
    {
      flag, epoch := false, 0;
    }

    method Fire()
      modifies this
      ensures flag && epoch == old(epoch) + 1
    {
      epoch := epoch + 1;
      flag := true;
    }

    method Reset()
      modifies this`flag
      ensures !flag
    {
      flag := false;
    }
  }

  /** The registration a running turn holds until it ends. */
  datatype Guard = Guard(session: string, token: nat, signal: Signal)

  type Entry = (nat, Signal)

  // ----- what the registry should hold, told from the live guards -----

  function EntriesOf(live: seq<Guard>, session: string): seq<Entry> {
    if live == [] then []
    else (if live[0].session == session then [(live[0].token, live[0].signal)] else [])
         + EntriesOf(live[1..], session)
  }

  function SignalsOf(entries: seq<Entry>): seq<Signal> {
    seq(|entries|, i requires 0 <= i < |entries| => entries[i].1)
  }

  function WithoutToken(live: seq<Guard>, token: nat): seq<Guard> {
    if live == [] then []
    else (if live[0].token == token then [] else [live[0]]) + WithoutToken(live[1..], token)
  }

  /** `entries.retain(|(token, _)| *token != token)` */
  function Retain(entries: seq<Entry>, token: nat): seq<Entry> {
    if entries == [] then []
    else (if entries[0].0 == token then [] else [entries[0]]) + Retain(entries[1..], token)
  }

  predicate TokensDistinct(live: seq<Guard>) {
    forall i, j :: 0 <= i < j < |live| ==> live[i].token != live[j].token
  }

  lemma {:induction false} EntriesAppend(live: seq<Guard>, g: Guard, session: string)
    ensures EntriesOf(live + [g], session)
         == EntriesOf(live, session) + if g.session == session then [(g.token, g.signal)] else []
  {
    if live == [] {
      assert [] + [g] == [g];
    } else {
      EntriesAppend(live[1..], g, session);
      assert (live + [g])[1..] == live[1..] + [g];
    }
  }

  lemma {:induction false} RetainConcat(a: seq<Entry>, b: seq<Entry>, token: nat)
    ensures Retain(a + b, token) == Retain(a, token) + Retain(b, token)
  {
    if a == [] {
      assert a + b == b;
    } else {
      RetainConcat(a[1..], b, token);
      assert (a + b)[1..] == a[1..] + b && (a + b)[0] == a[0];
      Assoc(if a[0].0 == token then [] else [a[0]], Retain(a[1..], token), Retain(b, token));
    }
  }

  lemma {:induction false} EntriesConcat(a: seq<Guard>, b: seq<Guard>, session: string)
    ensures EntriesOf(a + b, session) == EntriesOf(a, session) + EntriesOf(b, session)
  {
    if a == [] {
      assert a + b == b;
    } else {
      EntriesConcat(a[1..], b, session);
      assert (a + b)[1..] == a[1..] + b && (a + b)[0] == a[0];
      Assoc(if a[0].session == session then [(a[0].token, a[0].signal)] else [],
            EntriesOf(a[1..], session), EntriesOf(b, session));
    }
  }

  lemma RetainFollowsGuard(g: Guard, token: nat, session: string)
    ensures EntriesOf(WithoutToken([g], token), session) == Retain(EntriesOf([g], session), token)
  {
  }

  /** Dropping a token from the guards drops it from every session's list. */
  lemma {:induction false} RetainFollowsGuards(live: seq<Guard>, token: nat, session: string)
    ensures EntriesOf(WithoutToken(live, token), session) == Retain(EntriesOf(live, session), token)
  {
    if live != [] {
      var g, rest := live[0], live[1..];
      RetainFollowsGuards(rest, token, session);
      RetainFollowsGuard(g, token, session);
      RetainConcat(EntriesOf([g], session), EntriesOf(rest, session), token);
      EntriesConcat([g], rest, session);
      EntriesConcat(WithoutToken([g], token), WithoutToken(rest, token), session);
      assert live == [g] + rest;
      hide EntriesOf, Retain;
      assert WithoutToken(live, token) == WithoutToken([g], token) + WithoutToken(rest, token);
    }
  }

  lemma {:induction false} WithoutTokenMembers(live: seq<Guard>, token: nat, g: Guard)
    ensures g in WithoutToken(live, token) <==> g in live && g.token != token
  {
    if live != [] {
      WithoutTokenMembers(live[1..], token, g);
    }
  }

  lemma {:induction false} WithoutTokenDistinct(live: seq<Guard>, token: nat)
    requires TokensDistinct(live)
    ensures TokensDistinct(WithoutToken(live, token))
  {
    if live != [] {
      var rest := WithoutToken(live[1..], token);
      WithoutTokenDistinct(live[1..], token);
      forall i | 0 <= i < |rest| ensures live[0].token != rest[i].token {
        WithoutTokenMembers(live[1..], token, rest[i]);
      }
    }
  }

  /** Only the guards of other sessions keep their lists untouched. */
  lemma {:induction false} OtherSessions(live: seq<Guard>, g: Guard, session: string)
    requires TokensDistinct(live) && g in live && g.session != session
    ensures Retain(EntriesOf(live, session), g.token) == EntriesOf(live, session)
  {
    forall e | e in EntriesOf(live, session) ensures e.0 != g.token {
      EntryHasGuard(live, session, e);
    }
    RetainAll(EntriesOf(live, session), g.token);
  }

  lemma {:induction false} RetainAll(entries: seq<Entry>, token: nat)
    requires forall e :: e in entries ==> e.0 != token
    ensures Retain(entries, token) == entries
  {
    if entries != [] {
      RetainAll(entries[1..], token);
    }
  }

  /** The entries of a session are exactly the pairs of its live guards. */
  lemma {:induction false} EntryHasGuard(live: seq<Guard>, session: string, e: Entry)
    ensures e in EntriesOf(live, session) <==> Guard(session, e.0, e.1) in live
  {
    if live != [] {
      EntryHasGuard(live[1..], session, e);
    }
  }

  /** The map mirrors the live guards: their entries in registration order, no empty list. */
  ghost predicate Mirrors(turns: map<string, seq<Entry>>, live: seq<Guard>) {
    && (forall s :: s in turns ==> turns[s] != [] && turns[s] == EntriesOf(live, s))
    && (forall s :: EntriesOf(live, s) != [] ==> s in turns)
  }

  /** What dropping a guard leaves of the map. */
  function Unregistered(turns: map<string, seq<Entry>>, guard: Guard): map<string, seq<Entry>> {
    if guard.session !in turns || Retain(turns[guard.session], guard.token) == [] then turns - {guard.session}
    else turns[guard.session := Retain(turns[guard.session], guard.token)]
  }

  lemma DropEntries(live: seq<Guard>, guard: Guard, s: string)
    requires TokensDistinct(live) && guard in live
    ensures EntriesOf(WithoutToken(live, guard.token), s)
         == if s == guard.session then Retain(EntriesOf(live, s), guard.token) else EntriesOf(live, s)
  {
    hide EntriesOf, WithoutToken, Retain, TokensDistinct;
    RetainFollowsGuards(live, guard.token, s);
    if s != guard.session {
      OtherSessions(live, guard, s);
    }
  }

  lemma DropKeepsMirror(turns: map<string, seq<Entry>>, live: seq<Guard>, guard: Guard)
    requires Mirrors(turns, live) && TokensDistinct(live) && guard in live
    ensures Mirrors(Unregistered(turns, guard), WithoutToken(live, guard.token))
  {
    hide EntriesOf, WithoutToken, Retain, TokensDistinct;
    RetainNothing(guard.token);
    forall s ensures EntriesOf(WithoutToken(live, guard.token), s)
                  == if s == guard.session then Retain(EntriesOf(live, s), guard.token) else EntriesOf(live, s) {
      DropEntries(live, guard, s);
    }
  }

  lemma RegisterKeepsMirror(turns: map<string, seq<Entry>>, live: seq<Guard>, guard: Guard)
    requires Mirrors(turns, live)
    ensures var listed := if guard.session in turns then turns[guard.session] else [];
            Mirrors(turns[guard.session := listed + [(guard.token, guard.signal)]], live + [guard])
  {
    forall s ensures EntriesOf(live + [guard], s)
                  == EntriesOf(live, s) + if s == guard.session then [(guard.token, guard.signal)] else [] {
      EntriesAppend(live, guard, s);
    }
    hide EntriesOf;
  }

  lemma RetainNothing(token: nat)
    ensures Retain([], token) == []
  {
  }

  lemma SignalIsListed(live: seq<Guard>, g: Guard)
    requires g in live
    ensures g.signal in SignalsOf(EntriesOf(live, g.session))
  {
    EntryHasGuard(live, g.session, (g.token, g.signal));
    var entries := EntriesOf(live, g.session);
    var k :| 0 <= k < |entries| && entries[k] == (g.token, g.signal);
    assert SignalsOf(entries)[k] == g.signal;
  }

  /** How often s is among the first n. */
  ghost function Times(signals: seq<Signal>, s: Signal, n: nat): nat
    requires n <= |signals|
  {
    if n == 0 then 0 else Times(signals, s, n - 1) + if signals[n - 1] == s then 1 else 0
  }

  /** Fires every listed signal other than the handle's own, once for each time it is listed. */
  method FireOthers(handle: Signal, signals: seq<Signal>)
    modifies signals
    ensures handle.flag == old(handle.flag) && handle.epoch == old(handle.epoch)
    ensures forall s :: s in signals && s != handle ==>
              s.flag && s.epoch == old(s.epoch) + Times(signals, s, |signals|)
  {
    for i := 0 to |signals|
      invariant handle.flag == old(handle.flag) && handle.epoch == old(handle.epoch)
      invariant forall s :: s in signals && s != handle ==> s.epoch == old(s.epoch) + Times(signals, s, i)
      invariant forall j :: 0 <= j < i && signals[j] != handle ==> signals[j].flag
    {
      if signals[i] != handle {
        signals[i].Fire();
      }
    }
  }

  class Registry {
    var nextToken: nat
    var activeTurns: map<string, seq<Entry>>
    ghost var live: seq<Guard>

    ghost predicate Valid()
      reads this
    {
      && TokensDistinct(live)
      && (forall g :: g in live ==> g.token < nextToken)
      && Mirrors(activeTurns, live)
    }

    constructor ()
      ensures Valid() && live == []
    {
      nextToken, activeTurns, live := 1, map[], [];
    }

    method Register(session: string, signal: Signal) returns (guard: Guard)
      requires Valid()
      modifies this
      ensures Valid() && live == old(live) + [guard]
      ensures guard.session == session && guard.signal == signal
      ensures guard.token == old(nextToken) && nextToken == old(nextToken) + 1
    {
      hide EntriesOf, Mirrors;
      var token := nextToken;
      nextToken := nextToken + 1;
      var entry := if session in activeTurns then activeTurns[session] else [];
      activeTurns := activeTurns[session := entry + [(token, signal)]];
      guard := Guard(session, token, signal);
      live := live + [guard];
      RegisterKeepsMirror(old(activeTurns), old(live), guard);
    }

    method ActiveTurnSignals(session: string) returns (signals: seq<Signal>)
      requires Valid()
      ensures signals == SignalsOf(EntriesOf(live, session))
      ensures var entries := EntriesOf(live, session);
              |signals| == |entries| && forall i :: 0 <= i < |entries| ==> signals[i] == entries[i].1
    {
      signals := if session in activeTurns then SignalsOf(activeTurns[session]) else [];
    }

    /** Drop of an ActiveTurnGuard: nothing but the map and the turn's own flag changes. */
    method DropGuard(guard: Guard)
      requires Valid() && guard in live
      modifies this`activeTurns, this`live, guard.signal`flag
      ensures Valid() && live == WithoutToken(old(live), guard.token)
      ensures forall g :: g in live <==> g in old(live) && g.token != guard.token
      ensures !guard.signal.flag
      ensures forall g :: g in old(live) ==> g.signal.flag == (old(g.signal.flag) && g.signal != guard.signal)
    {
      hide EntriesOf, WithoutToken, Retain, Mirrors;
      var remaining := 0;
      if guard.session in activeTurns {
        var entries := Retain(activeTurns[guard.session], guard.token);
        activeTurns := activeTurns[guard.session := entries];
        remaining := |entries|;
      }
      if remaining == 0 {
        activeTurns := activeTurns - {guard.session};
      }
      assert activeTurns == Unregistered(old(activeTurns), guard);
      live := WithoutToken(live, guard.token);
      DropKeepsMirror(old(activeTurns), old(live), guard);
      WithoutTokenDistinct(old(live), guard.token);
      forall g ensures g in live <==> g in old(live) && g.token != guard.token {
        WithoutTokenMembers(old(live), guard.token, g);
      }
      guard.signal.Reset();
    }

    /** `SessionControlHandle::request_cancel`: the handle's own signal, then every registered other one. */
    method RequestCancel(session: string, handle: Signal) returns (epoch: nat)
      requires Valid()
      modifies handle, SignalsOf(EntriesOf(live, session))
      ensures handle.flag && epoch == handle.epoch == old(handle.epoch) + 1
      ensures forall g :: g in live && g.session == session ==> g.signal.flag
      ensures var signals := SignalsOf(EntriesOf(live, session));
              forall s :: s in signals && s != handle ==> s.epoch == old(s.epoch) + Times(signals, s, |signals|)
    {
      hide Mirrors, TokensDistinct, EntriesOf, Times;
      ghost var listed := SignalsOf(EntriesOf(live, session));
      handle.Fire();
      assert forall i :: 0 <= i < |listed| && listed[i] != handle ==> listed[i].epoch == old(listed[i].epoch);
      var signals := ActiveTurnSignals(session);
      FireOthers(handle, signals);
      forall g | g in live && g.session == session ensures g.signal.flag {
        SignalIsListed(live, g);
      }
      epoch := handle.epoch;
    }
  }
}
