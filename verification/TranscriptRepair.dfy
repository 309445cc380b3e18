/**
 Repair of missing tool outputs in a session transcript
 (`Agent::repair_missing_tool_outputs` in crates/jcode-app-core/src/agent.rs).
 */
module TranscriptRepair {
  import opened Prelude

  type Id = string

  datatype Role = User | Assistant

  datatype Block =
    | Text(text: string)
    | ToolUse(id: Id)
    | ToolResult(toolUseId: Id, content: string, isError: Option<bool>)

  datatype Message = Message(role: Role, content: seq<Block>)

  const TOOL_OUTPUT_MISSING_TEXT :=
    "Tool output missing (session interrupted before tool execution completed)"

  // ----- what a transcript says -----

  /** Ids answered by one message: its tool results, if the user role carries it. */
  function ResultsIn(m: Message): set<Id> {
    if m.role == User then set b | b in m.content && b.ToolResult? :: b.toolUseId else {}
  }

  function Results(ms: seq<Message>): set<Id> {
    set m, id | m in ms && id in ResultsIn(m) :: id
  }

  function UseIds(blocks: seq<Block>): seq<Id> {
    if blocks == [] then []
    else
      var last := blocks[|blocks| - 1];
      UseIds(blocks[..|blocks| - 1]) + if last.ToolUse? then [last.id] else []
  }

  /** Tool uses of one message in order: only the assistant role makes any. */
  function Uses(m: Message): seq<Id> {
    if m.role == Assistant then UseIds(m.content) else []
  }

  function AllUses(ms: seq<Message>): set<Id> {
    set m, id | m in ms && id in Uses(m) :: id
  }

  function Unanswered(ids: seq<Id>, have: set<Id>): seq<Id> {
    if ids == [] then []
    else (if ids[0] in have then [] else [ids[0]]) + Unanswered(ids[1..], have)
  }

  function Synthetic(id: Id): Message {
    Message(User, [ToolResult(id, TOOL_OUTPUT_MISSING_TEXT, Some(true))])
  }

  function Synthetics(ids: seq<Id>): seq<Message> {
    seq(|ids|, i requires 0 <= i < |ids| => Synthetic(ids[i]))
  }

  function WithAnswers(m: Message, have: set<Id>): seq<Message> {
    [m] + Synthetics(Unanswered(Uses(m), have))
  }

  /** Every message, each followed by one synthetic result per tool use not in `have`. */
  function Answered(ms: seq<Message>, have: set<Id>): seq<Message> {
    if ms == [] then []
    else WithAnswers(ms[0], have) + Answered(ms[1..], have)
  }

  /** Repairing from scratch: answers are looked up in the whole transcript. */
  function FullRepair(ms: seq<Message>): seq<Message> {
    Answered(ms, Results(ms))
  }

  // ----- the same told block by block, in no particular order of reading -----

  /** Some user message holds a result for the id. */
  ghost predicate HasResult(ms: seq<Message>, id: Id) {
    exists m, b :: m in ms && m.role == User && b in m.content && b.ToolResult? && b.toolUseId == id
  }

  /** Every tool use of every assistant message has a result. */
  ghost predicate Complete(ms: seq<Message>) {
    forall m, b :: m in ms && m.role == Assistant && b in m.content && b.ToolUse? ==> HasResult(ms, b.id)
  }

  lemma {:induction false} UseIdsMembers(blocks: seq<Block>, id: Id)
    ensures id in UseIds(blocks) <==> ToolUse(id) in blocks
  {
    if blocks != [] {
      UseIdsMembers(blocks[..|blocks| - 1], id);
      assert blocks == blocks[..|blocks| - 1] + [blocks[|blocks| - 1]];
    }
  }

  lemma ResultsMembers(ms: seq<Message>, id: Id)
    ensures id in Results(ms) <==> HasResult(ms, id)
  {
    if id in Results(ms) {
      var m :| m in ms && id in ResultsIn(m);
      var b :| b in m.content && b.ToolResult? && b.toolUseId == id;
      assert m.role == User;
    }
    if HasResult(ms, id) {
      var m, b :| m in ms && m.role == User && b in m.content && b.ToolResult? && b.toolUseId == id;
      assert id in ResultsIn(m);
    }
  }

  lemma AllUsesMembers(ms: seq<Message>, id: Id)
    ensures id in AllUses(ms) <==> exists m :: m in ms && m.role == Assistant && ToolUse(id) in m.content
  {
    hide UseIds;
    if id in AllUses(ms) {
      var m :| m in ms && id in Uses(m);
      UseIdsMembers(m.content, id);
      assert m.role == Assistant && ToolUse(id) in m.content;
    }
    if m :| m in ms && m.role == Assistant && ToolUse(id) in m.content {
      UseIdsMembers(m.content, id);
      assert id in Uses(m);
    }
  }

  lemma CompleteIff(ms: seq<Message>)
    ensures Complete(ms) <==> AllUses(ms) <= Results(ms)
  {
    hide HasResult, AllUses, Results;
    forall id ensures id in Results(ms) <==> HasResult(ms, id) {
      ResultsMembers(ms, id);
    }
    forall id ensures id in AllUses(ms) <==> exists m :: m in ms && m.role == Assistant && ToolUse(id) in m.content {
      AllUsesMembers(ms, id);
    }
    if AllUses(ms) <= Results(ms) {
      forall m, b | m in ms && m.role == Assistant && b in m.content && b.ToolUse? ensures HasResult(ms, b.id) {
        assert b == ToolUse(b.id) && b.id in AllUses(ms);
      }
    }
  }

  // ----- facts about answering -----

  lemma ResultsConcat(a: seq<Message>, b: seq<Message>)
    ensures Results(a + b) == Results(a) + Results(b)
    ensures AllUses(a + b) == AllUses(a) + AllUses(b)
  {
  }

  lemma {:induction false} AnsweredConcat(a: seq<Message>, b: seq<Message>, have: set<Id>)
    ensures Answered(a + b, have) == Answered(a, have) + Answered(b, have)
  {
    hide WithAnswers;
    if a == [] {
      assert a + b == b;
    } else {
      AnsweredConcat(a[1..], b, have);
      assert (a + b)[1..] == a[1..] + b && (a + b)[0] == a[0];
      Assoc(WithAnswers(a[0], have), Answered(a[1..], have), Answered(b, have));
    }
  }

  lemma {:induction false} UnansweredMembers(ids: seq<Id>, have: set<Id>, id: Id)
    ensures id in Unanswered(ids, have) <==> id in ids && id !in have
  {
    if ids != [] {
      UnansweredMembers(ids[1..], have, id);
    }
  }

  lemma {:induction false} UnansweredAppend(ids: seq<Id>, id: Id, have: set<Id>)
    ensures Unanswered(ids + [id], have) == Unanswered(ids, have) + if id in have then [] else [id]
  {
    if ids == [] {
      assert [] + [id] == [id];
    } else {
      UnansweredAppend(ids[1..], id, have);
      assert (ids + [id])[1..] == ids[1..] + [id];
    }
  }

  lemma {:induction false} UnansweredNone(ids: seq<Id>, have: set<Id>)
    requires forall id :: id in ids ==> id in have
    ensures Unanswered(ids, have) == []
  {
    if ids != [] {
      UnansweredNone(ids[1..], have);
    }
  }

  lemma {:induction false} AnsweredNone(ms: seq<Message>, have: set<Id>)
    requires AllUses(ms) <= have
    ensures Answered(ms, have) == ms
  {
    if ms != [] {
      UnansweredNone(Uses(ms[0]), have);
      assert AllUses(ms[1..]) <= AllUses(ms);
      AnsweredNone(ms[1..], have);
    }
  }

  lemma NoMessages()
    ensures AllUses([]) == {} && Results([]) == {}
  {
  }

  lemma OneMessage(m: Message)
    ensures AllUses([m]) == set id | id in Uses(m)
    ensures Results([m]) == ResultsIn(m)
  {
  }

  lemma UnansweredSet(ids: seq<Id>, have: set<Id>)
    ensures (set id | id in Unanswered(ids, have)) == (set id | id in ids) - have
  {
    forall id ensures id in Unanswered(ids, have) <==> id in ids && id !in have {
      UnansweredMembers(ids, have, id);
    }
  }

  lemma WithAnswersSets(m: Message, have: set<Id>)
    ensures AllUses(WithAnswers(m, have)) == AllUses([m])
    ensures Results(WithAnswers(m, have)) == Results([m]) + (AllUses([m]) - have)
  {
    hide AllUses;
    hide Results;
    var missing := Unanswered(Uses(m), have);
    SyntheticSets(missing);
    UnansweredSet(Uses(m), have);
    OneMessage(m);
    ResultsConcat([m], Synthetics(missing));
  }

  /** Answering makes no new uses and answers exactly the open ones. */
  lemma {:induction false} AnsweredSets(ms: seq<Message>, have: set<Id>)
    ensures AllUses(Answered(ms, have)) == AllUses(ms)
    ensures Results(Answered(ms, have)) == Results(ms) + (AllUses(ms) - have)
  {
    hide AllUses;
    hide Results;
    hide WithAnswers;
    if ms != [] {
      AnsweredSets(ms[1..], have);
      WithAnswersSets(ms[0], have);
      ResultsConcat(WithAnswers(ms[0], have), Answered(ms[1..], have));
      ResultsConcat([ms[0]], ms[1..]);
      assert ms == [ms[0]] + ms[1..];
    } else {
      NoMessages();
    }
  }

  lemma SyntheticSets(ids: seq<Id>)
    ensures AllUses(Synthetics(ids)) == {}
    ensures Results(Synthetics(ids)) == set id | id in ids
  {
    forall id | id in ids ensures id in Results(Synthetics(ids)) {
      var i :| 0 <= i < |ids| && ids[i] == id;
      assert Synthetics(ids)[i] == Synthetic(id);
      assert ToolResult(id, TOOL_OUTPUT_MISSING_TEXT, Some(true)) in Synthetic(id).content;
      assert id in ResultsIn(Synthetic(id));
    }
  }

  /** A repaired transcript is complete and needs no second repair. */
  lemma RepairCompletes(ms: seq<Message>)
    ensures Complete(FullRepair(ms))
    ensures FullRepair(FullRepair(ms)) == FullRepair(ms)
  {
    AnsweredSets(ms, Results(ms));
    AnsweredNone(FullRepair(ms), Results(FullRepair(ms)));
    CompleteIff(FullRepair(ms));
    hide Complete;
  }

  // ----- where the results go, block by block -----

  /** The block at position p is a tool use that nothing in `have` answers. */
  ghost predicate OpenUse(m: Message, have: set<Id>, p: nat)
    requires p < |m.content|
  {
    m.role == Assistant && m.content[p].ToolUse? && m.content[p].id !in have
  }

  /** One error result for every open tool use of m, in the order of their positions. */
  ghost predicate AnswersOf(m: Message, have: set<Id>, at: seq<nat>, added: seq<Message>) {
    && |at| == |added|
    && (forall i, j :: 0 <= i < j < |at| ==> at[i] < at[j])
    && (forall i :: 0 <= i < |at| ==>
          && at[i] < |m.content| && OpenUse(m, have, at[i])
          && added[i] == Message(User, [ToolResult(m.content[at[i]].id, TOOL_OUTPUT_MISSING_TEXT, Some(true))]))
    && (forall p :: 0 <= p < |m.content| && OpenUse(m, have, p) ==> p in at)
  }

  ghost predicate Piece(m: Message, have: set<Id>, piece: seq<Message>) {
    piece != [] && piece[0] == m && exists at :: AnswersOf(m, have, at, piece[1..])
  }

  /** Message i begins the piece from start[i] to start[i + 1], and the rest of it answers the message. */
  ghost predicate PieceAt(ms: seq<Message>, have: set<Id>, r: seq<Message>, start: seq<nat>, i: nat)
    requires i < |ms| && |start| == |ms| + 1
  {
    start[i] <= start[i + 1] <= |r| && Piece(ms[i], have, r[start[i]..start[i + 1]])
  }

  /** The pieces of all messages, one after the other, are the whole of r. */
  ghost predicate LaidOut(ms: seq<Message>, have: set<Id>, r: seq<Message>, start: seq<nat>) {
    && |start| == |ms| + 1 && start[0] == 0 && start[|ms|] == |r|
    && forall i :: 0 <= i < |ms| ==> PieceAt(ms, have, r, start, i)
  }

  /** One more block adds an answer exactly if it is an open tool use. */
  lemma AnswersGrow(m: Message, have: set<Id>, at: seq<nat>, added: seq<Message>, b: Block)
    requires AnswersOf(m, have, at, added)
    ensures var n, longer := |m.content|, m.(content := m.content + [b]);
            if m.role == Assistant && b.ToolUse? && b.id !in have then
              AnswersOf(longer, have, at + [n], added + [Synthetic(b.id)])
            else AnswersOf(longer, have, at, added)
  {
    var longer := m.(content := m.content + [b]);
    assert forall p :: 0 <= p < |m.content| ==>
        longer.content[p] == m.content[p] && OpenUse(longer, have, p) == OpenUse(m, have, p);
  }

  lemma UseIdsAppend(blocks: seq<Block>, b: Block, have: set<Id>)
    ensures Synthetics(Unanswered(UseIds(blocks + [b]), have))
         == Synthetics(Unanswered(UseIds(blocks), have))
            + if b.ToolUse? && b.id !in have then [Synthetic(b.id)] else []
  {
    assert (blocks + [b])[..|blocks|] == blocks;
    if b.ToolUse? {
      UnansweredAppend(UseIds(blocks), b.id, have);
    } else {
      assert UseIds(blocks) + [] == UseIds(blocks);
    }
  }

  /** The open tool uses among the blocks are those of the unanswered ids, in the same order. */
  lemma {:induction false} OpenPositions(m: Message, have: set<Id>) returns (at: seq<nat>)
    requires m.role == Assistant
    ensures AnswersOf(m, have, at, Synthetics(Unanswered(UseIds(m.content), have)))
    decreases m.content
  {
    if m.content == [] {
      at := [];
    } else {
      hide AnswersOf, UseIds, Unanswered, Synthetics;
      var n := |m.content| - 1;
      var fewer, b := m.(content := m.content[..n]), m.content[n];
      at := OpenPositions(fewer, have);
      AnswersGrow(fewer, have, at, Synthetics(Unanswered(UseIds(fewer.content), have)), b);
      UseIdsAppend(fewer.content, b, have);
      assert m.content == fewer.content + [b];
      if b.ToolUse? && b.id !in have {
        at := at + [n];
      }
    }
  }

  lemma WithAnswersIsPiece(m: Message, have: set<Id>)
    ensures Piece(m, have, WithAnswers(m, have))
  {
    var at: seq<nat> := [];
    if m.role == Assistant {
      at := OpenPositions(m, have);
    }
    assert WithAnswers(m, have)[1..] == Synthetics(Unanswered(Uses(m), have));
    assert AnswersOf(m, have, at, WithAnswers(m, have)[1..]);
  }

  lemma LayoutGrows(ms: seq<Message>, have: set<Id>, r: seq<Message>, start: seq<nat>, m: Message, piece: seq<Message>)
    requires LaidOut(ms, have, r, start) && Piece(m, have, piece)
    ensures LaidOut(ms + [m], have, r + piece, start + [|r| + |piece|])
  {
    hide Piece;
    var ms', r', start' := ms + [m], r + piece, start + [|r| + |piece|];
    forall i | 0 <= i < |ms'| ensures PieceAt(ms', have, r', start', i) {
      if i < |ms| {
        assert PieceAt(ms, have, r, start, i);
        assert r'[start[i]..start[i + 1]] == r[start[i]..start[i + 1]];
      } else {
        assert r'[start'[i]..start'[i + 1]] == piece;
      }
    }
  }

  lemma {:induction false} AnsweredLayout(ms: seq<Message>, have: set<Id>) returns (start: seq<nat>)
    ensures LaidOut(ms, have, Answered(ms, have), start)
  {
    if ms == [] {
      start := [0];
    } else {
      hide WithAnswers, Piece, Answered, LaidOut;
      var n := |ms| - 1;
      var front, piece := Answered(ms[..n], have), WithAnswers(ms[n], have);
      start := AnsweredLayout(ms[..n], have);
      WithAnswersIsPiece(ms[n], have);
      LayoutGrows(ms[..n], have, front, start, ms[n], piece);
      start := start + [|front| + |piece|];
      assert ms == ms[..n] + [ms[n]];
      AnsweredConcat(ms[..n], [ms[n]], have);
      AnsweredOne(ms[n], have);
    }
  }

  lemma AnsweredOne(m: Message, have: set<Id>)
    ensures Answered([m], have) == WithAnswers(m, have)
  {
  }

  /** A full repair keeps every message and puts behind it the answers to its tool uses without a result. */
  lemma RepairLayout(ms: seq<Message>) returns (have: set<Id>, start: seq<nat>)
    ensures forall id :: id in have <==> HasResult(ms, id)
    ensures LaidOut(ms, have, FullRepair(ms), start)
  {
    have := Results(ms);
    start := AnsweredLayout(ms, have);
    forall id ensures id in have <==> HasResult(ms, id) {
      ResultsMembers(ms, id);
    }
  }

  // ----- the lists the repair works with -----

  type Entry = (nat, seq<Id>)

  /** The assistant messages with tool uses, from position lo on. */
  ghost function EntriesFrom(ms: seq<Message>, lo: nat): seq<Entry>
    decreases |ms| - lo
  {
    if lo >= |ms| then []
    else (if Uses(ms[lo]) != [] then [(lo, Uses(ms[lo]))] else []) + EntriesFrom(ms, lo + 1)
  }

  ghost function Missing(entries: seq<Entry>, have: set<Id>): seq<Entry> {
    if entries == [] then []
    else (var ids := Unanswered(entries[0].1, have); if ids != [] then [(entries[0].0, ids)] else [])
         + Missing(entries[1..], have)
  }

  ghost function IdsOf(entries: seq<Entry>): set<Id> {
    set e, id | e in entries && id in e.1 :: id
  }

  /** Positions strictly increase, starting at lo or later, and stay inside the transcript. */
  ghost predicate InOrder(ms: seq<Message>, lo: nat, entries: seq<Entry>)
    decreases entries
  {
    if entries == [] then lo <= |ms|
    else lo <= entries[0].0 < |ms| && InOrder(ms, entries[0].0 + 1, entries[1..])
  }

  /** The transcript from lo on with each entry's synthetic results behind its message. */
  ghost function Spliced(ms: seq<Message>, lo: nat, entries: seq<Entry>): seq<Message>
    requires InOrder(ms, lo, entries)
    decreases entries
  {
    if entries == [] then ms[lo..]
    else ms[lo..entries[0].0 + 1] + (Synthetics(entries[0].1) + Spliced(ms, entries[0].0 + 1, entries[1..]))
  }

  lemma MissingCons(e: Entry, rest: seq<Entry>, have: set<Id>)
    ensures Missing([e] + rest, have)
         == (if Unanswered(e.1, have) != [] then [(e.0, Unanswered(e.1, have))] else []) + Missing(rest, have)
  {
    assert ([e] + rest)[1..] == rest;
  }

  lemma {:induction false} SplicedEarlier(ms: seq<Message>, lo: nat, entries: seq<Entry>)
    requires lo < |ms| && InOrder(ms, lo + 1, entries)
    ensures InOrder(ms, lo, entries)
    ensures Spliced(ms, lo, entries) == [ms[lo]] + Spliced(ms, lo + 1, entries)
  {
    hide Synthetics;
    if entries != [] {
      var i := entries[0].0;
      var tail := Synthetics(entries[0].1) + Spliced(ms, i + 1, entries[1..]);
      assert ms[lo..i + 1] == [ms[lo]] + ms[lo + 1..i + 1];
      Assoc([ms[lo]], ms[lo + 1..i + 1], tail);
    } else {
      assert ms[lo..] == [ms[lo]] + ms[lo + 1..];
    }
  }

  /** Splicing the missing ids in is the same as answering every message. */
  lemma {:induction false} SpliceAnswers(ms: seq<Message>, lo: nat, have: set<Id>)
    requires lo <= |ms|
    ensures InOrder(ms, lo, Missing(EntriesFrom(ms, lo), have))
    ensures Spliced(ms, lo, Missing(EntriesFrom(ms, lo), have)) == Answered(ms[lo..], have)
    decreases |ms| - lo
  {
    if lo < |ms| {
      SpliceAnswers(ms, lo + 1, have);
      var later := EntriesFrom(ms, lo + 1);
      var ids := Unanswered(Uses(ms[lo]), have);
      MissingFirst(ms, lo, have);
      AnsweredFirst(ms, lo, have);
      if ids == [] {
        SplicedEarlier(ms, lo, Missing(later, have));
      } else {
        assert ([(lo, ids)] + Missing(later, have))[1..] == Missing(later, have);
        assert ms[lo..lo + 1] == [ms[lo]];
      }
    }
  }

  lemma AnsweredFirst(ms: seq<Message>, lo: nat, have: set<Id>)
    requires lo < |ms|
    ensures Unanswered(Uses(ms[lo]), have) == [] ==>
              Answered(ms[lo..], have) == [ms[lo]] + Answered(ms[lo + 1..], have)
    ensures Answered(ms[lo..], have)
         == [ms[lo]] + (Synthetics(Unanswered(Uses(ms[lo]), have)) + Answered(ms[lo + 1..], have))
  {
    assert ms[lo..][1..] == ms[lo + 1..];
    Assoc([ms[lo]], Synthetics(Unanswered(Uses(ms[lo]), have)), Answered(ms[lo + 1..], have));
  }

  lemma MissingFirst(ms: seq<Message>, lo: nat, have: set<Id>)
    requires lo < |ms|
    ensures Unanswered(Uses(ms[lo]), have) == [] ==>
              Missing(EntriesFrom(ms, lo), have) == Missing(EntriesFrom(ms, lo + 1), have)
    ensures Unanswered(Uses(ms[lo]), have) != [] ==>
              Missing(EntriesFrom(ms, lo), have)
              == [(lo, Unanswered(Uses(ms[lo]), have))] + Missing(EntriesFrom(ms, lo + 1), have)
  {
    assert [] + Missing(EntriesFrom(ms, lo + 1), have) == Missing(EntriesFrom(ms, lo + 1), have);
    if Uses(ms[lo]) != [] {
      MissingCons((lo, Uses(ms[lo])), EntriesFrom(ms, lo + 1), have);
    } else {
      assert [] + EntriesFrom(ms, lo + 1) == EntriesFrom(ms, lo + 1);
    }
  }

  lemma IdsOfConcat(a: seq<Entry>, b: seq<Entry>)
    ensures IdsOf(a + b) == IdsOf(a) + IdsOf(b)
  {
  }

  lemma IdsOfOne(i: nat, ids: seq<Id>)
    ensures IdsOf([(i, ids)]) == set id | id in ids
  {
  }

  lemma {:induction false} EntryIds(ms: seq<Message>, lo: nat)
    requires lo <= |ms|
    ensures IdsOf(EntriesFrom(ms, lo)) == AllUses(ms[lo..])
    decreases |ms| - lo
  {
    hide AllUses, IdsOf, Uses;
    NoMessages();
    NothingMissing({});
    if lo == |ms| {
      assert ms[lo..] == [];
    } else {
      EntryIds(ms, lo + 1);
      IdsOfOne(lo, Uses(ms[lo]));
      IdsOfConcat([(lo, Uses(ms[lo]))], EntriesFrom(ms, lo + 1));
      OneMessage(ms[lo]);
      ResultsConcat([ms[lo]], ms[lo + 1..]);
      assert ms[lo..] == [ms[lo]] + ms[lo + 1..];
      assert [] + EntriesFrom(ms, lo + 1) == EntriesFrom(ms, lo + 1);
    }
  }

  lemma {:induction false} MissingIds(entries: seq<Entry>, have: set<Id>)
    ensures IdsOf(Missing(entries, have)) == IdsOf(entries) - have
  {
    if entries != [] {
      MissingIds(entries[1..], have);
      hide IdsOf;
      var e := entries[0];
      var ids := Unanswered(e.1, have);
      UnansweredSet(e.1, have);
      IdsOfOne(e.0, e.1);
      IdsOfOne(e.0, ids);
      IdsOfConcat([e], entries[1..]);
      IdsOfConcat([(e.0, ids)], Missing(entries[1..], have));
      assert entries == [e] + entries[1..];
      assert [] + Missing(entries[1..], have) == Missing(entries[1..], have);
    }
  }

  // ----- the agent -----

  /** The transcript and the remembered state of the last scan. */
  datatype Tracking = Tracking(messages: seq<Message>, calls: set<Id>, results: set<Id>, scan: nat)

  /** A scan position beyond the transcript forgets everything. */
  function Rewound(t: Tracking): Tracking {
    if t.scan > |t.messages| then Tracking(t.messages, {}, {}, 0) else t
  }

  /** What one repair does: only the messages from the scan position on are looked at. */
  function Repaired(t: Tracking): (r: Tracking)
    ensures r.scan == |r.messages|
  {
    var r := Rewound(t);
    var seen, unseen := r.messages[..r.scan], r.messages[r.scan..];
    var have := r.results + Results(unseen);
    var messages := seen + Answered(unseen, have);
    Tracking(messages, r.calls + AllUses(unseen), have + AllUses(unseen), |messages|)
  }

  /** The parts of a repaired state, one by one. */
  lemma RepairedParts(t: Tracking)
    ensures var r := Rewound(t);
            && Repaired(t).scan == |Repaired(t).messages|
            && var unseen := r.messages[r.scan..];
               var have := r.results + Results(unseen);
               && Repaired(t).messages == r.messages[..r.scan] + Answered(unseen, have)
               && Repaired(t).calls == r.calls + AllUses(unseen)
               && Repaired(t).results == have + (AllUses(unseen) - have)
  {
  }

  /** From any remembered state: the scanned part stays, and the rest is answered as told by its blocks. */
  lemma RepairedLayout(t: Tracking) returns (have: set<Id>, start: seq<nat>)
    ensures var rewinds := t.scan > |t.messages|;
            var lo, known := if rewinds then 0 else t.scan, if rewinds then {} else t.results;
            var r := Repaired(t);
            && (forall id :: id in have <==> id in known || HasResult(t.messages[lo..], id))
            && t.messages[..lo] <= r.messages
            && LaidOut(t.messages[lo..], have, r.messages[lo..], start)
  {
    var s := Rewound(t);
    var unseen := s.messages[s.scan..];
    have := s.results + Results(unseen);
    start := AnsweredLayout(unseen, have);
    forall id ensures id in have <==> id in s.results || HasResult(unseen, id) {
      ResultsMembers(unseen, id);
    }
    assert Repaired(t).messages[s.scan..] == Answered(unseen, have);
  }

  class Agent {
    var messages: seq<Message>
    var toolCallIds: set<Id>
    var toolResultIds: set<Id>
    var scanIndex: nat

    ghost function State(): Tracking
      reads this
    {
      Tracking(messages, toolCallIds, toolResultIds, scanIndex)
    }

    constructor ()
      ensures State() == Tracking([], {}, {}, 0)
    {
      messages, toolCallIds, toolResultIds, scanIndex := [], {}, {}, 0;
    }

    method ResetToolOutputTracking()
      modifies this
      ensures State() == Tracking(old(messages), {}, {}, 0)
    {
      toolCallIds, toolResultIds, scanIndex := {}, {}, 0;
    }

    method Append(m: Message)
      modifies this`messages
      ensures messages == old(messages) + [m]
    {
      messages := messages + [m];
    }

    method RepairMissingToolOutputs() returns (repaired: nat)
      modifies this
      ensures State() == old(Repaired(State()))
      ensures repaired == |messages| - |old(messages)|
    {
      hide Results, AllUses, Answered, Spliced, Missing, EntriesFrom, IdsOf, InOrder, Repaired;
      RepairedParts(State());
      if scanIndex > |messages| {
        ResetToolOutputTracking();
      }
      ghost var ms, start := messages, scanIndex;
      var entries := Scan(scanIndex);
      ghost var have := toolResultIds;
      var missing := CollectMissing(entries);
      SpliceAnswers(ms, start, have);
      scanIndex := |messages|;
      repaired := InsertSynthetic(start, missing);
      scanIndex := |messages|;
      EntryIds(ms, start);
      MissingIds(entries, have);
    }

    /** First pass: learn the new results, list the new tool uses. */
    method Scan(start: nat) returns (entries: seq<Entry>)
      requires start <= |messages|
      modifies this`toolResultIds
      ensures entries == EntriesFrom(messages, start)
      ensures toolResultIds == old(toolResultIds) + Results(messages[start..])
    {
      hide Results, EntriesFrom;
      var newResultIds: set<Id> := {};
      entries := [];
      NoMessages();
      assert messages[start..start] == [];
      for index := start to |messages|
        invariant entries + EntriesFrom(messages, index) == EntriesFrom(messages, start)
        invariant newResultIds == Results(messages[start..index]) && toolResultIds == old(toolResultIds)
      {
        var msg := messages[index];
        ScanStep(messages, start, index);
        EntriesStep(messages, entries, index);
        match msg.role
        case User =>
          newResultIds := newResultIds + ResultsIn(msg);
        case Assistant =>
          var toolUses := UseIds(msg.content);
          if toolUses != [] {
            entries := entries + [(index, toolUses)];
          }
      }
      EntriesEnd(messages, entries);
      assert messages[start..|messages|] == messages[start..];
      toolResultIds := toolResultIds + newResultIds;
    }

    /** Second pass: remember the calls, keep the ids nobody answered. */
    method CollectMissing(entries: seq<Entry>) returns (missing: seq<Entry>)
      modifies this`toolCallIds
      ensures missing == Missing(entries, toolResultIds)
      ensures toolCallIds == old(toolCallIds) + IdsOf(entries)
    {
      hide Missing, IdsOf;
      missing := [];
      NothingMissing(toolResultIds);
      for k := 0 to |entries|
        invariant missing + Missing(entries[k..], toolResultIds) == Missing(entries, toolResultIds)
        invariant toolCallIds == old(toolCallIds) + IdsOf(entries[..k])
      {
        var (index, toolUses) := entries[k];
        var missingForMessage := [];
        for j := 0 to |toolUses|
          invariant missingForMessage == Unanswered(toolUses[..j], toolResultIds)
          invariant toolCallIds == old(toolCallIds) + IdsOf(entries[..k]) + set id | id in toolUses[..j]
        {
          var id := toolUses[j];
          assert toolUses[..j + 1] == toolUses[..j] + [id];
          UnansweredAppend(toolUses[..j], id, toolResultIds);
          toolCallIds := toolCallIds + {id};
          if id !in toolResultIds {
            missingForMessage := missingForMessage + [id];
          }
        }
        assert toolUses[..|toolUses|] == toolUses;
        assert entries[..k + 1] == entries[..k] + [entries[k]] && entries[k..] == [entries[k]] + entries[k + 1..];
        IdsOfConcat(entries[..k], [entries[k]]);
        IdsOfOne(index, toolUses);
        MissingCons(entries[k], entries[k + 1..], toolResultIds);
        if missingForMessage != [] {
          Assoc(missing, [(index, missingForMessage)], Missing(entries[k + 1..], toolResultIds));
          missing := missing + [(index, missingForMessage)];
        }
      }
      assert entries[..|entries|] == entries && entries[|entries|..] == [] && missing + [] == missing;
    }

    /** Third pass: insert behind each message, shifted by what went in before. */
    method InsertSynthetic(ghost start: nat, missing: seq<Entry>) returns (repaired: nat)
      requires InOrder(messages, start, missing)
      modifies this`messages, this`toolResultIds
      ensures messages == old(messages)[..start] + Spliced(old(messages), start, missing)
      ensures toolResultIds == old(toolResultIds) + IdsOf(missing)
      ensures repaired == |messages| - |old(messages)|
    {
      hide IdsOf, Spliced;
      ghost var ms := messages;
      repaired := 0;
      var inserted := 0;
      ghost var base: nat, done := start, ms[..start];
      NothingMissing(toolResultIds);
      for k := 0 to |missing|
        invariant base <= |ms| && InOrder(ms, base, missing[k..]) && |done| == base + inserted && repaired == inserted
        invariant messages == done + ms[base..]
        invariant done + Spliced(ms, base, missing[k..]) == ms[..start] + Spliced(ms, start, missing)
        invariant toolResultIds == old(toolResultIds) + IdsOf(missing[..k])
      {
        var (index, ids) := missing[k];
        assert missing[k..][0] == missing[k] && missing[k..][1..] == missing[k + 1..];
        SpliceStep(ms, base, missing[k..], done);
        ghost var head := done + ms[base..index + 1];
        assert ms[base..] == ms[base..index + 1] + ms[index + 1..];
        for offset := 0 to |ids|
          invariant messages == head + Synthetics(ids[..offset]) + ms[index + 1..]
          invariant repaired == inserted + offset
          invariant toolResultIds == old(toolResultIds) + IdsOf(missing[..k]) + set id | id in ids[..offset]
        {
          var id := ids[offset];
          var at := index + 1 + inserted + offset;
          InsertAt(head, ids, offset, ms[index + 1..]);
          messages := messages[..at] + [Synthetic(id)] + messages[at..];
          toolResultIds := toolResultIds + {id};
          repaired := repaired + 1;
          assert ids[..offset + 1] == ids[..offset] + [id];
        }
        assert ids[..|ids|] == ids && missing[..k + 1] == missing[..k] + [missing[k]];
        IdsOfConcat(missing[..k], [missing[k]]);
        IdsOfOne(index, ids);
        inserted := inserted + |ids|;
        done := head + Synthetics(ids);
        base := index + 1;
      }
      assert missing[..|missing|] == missing && missing[|missing|..] == [];
      SpliceEnd(ms, base);
    }
  }

  lemma ScanStep(ms: seq<Message>, start: nat, i: nat)
    requires start <= i < |ms|
    ensures Results(ms[start..i + 1]) == Results(ms[start..i]) + ResultsIn(ms[i])
  {
    hide Results;
    ResultsConcat(ms[start..i], [ms[i]]);
    OneMessage(ms[i]);
    assert ms[start..i + 1] == ms[start..i] + [ms[i]];
  }

  lemma EntriesStep(ms: seq<Message>, entries: seq<Entry>, i: nat)
    requires i < |ms|
    ensures entries + EntriesFrom(ms, i)
         == (if Uses(ms[i]) != [] then entries + [(i, Uses(ms[i]))] else entries) + EntriesFrom(ms, i + 1)
  {
    Assoc(entries, [(i, Uses(ms[i]))], EntriesFrom(ms, i + 1));
    assert [] + EntriesFrom(ms, i + 1) == EntriesFrom(ms, i + 1);
  }

  lemma EntriesEnd(ms: seq<Message>, entries: seq<Entry>)
    ensures entries + EntriesFrom(ms, |ms|) == entries
  {
  }

  lemma SpliceEnd(ms: seq<Message>, base: nat)
    requires base <= |ms|
    ensures Spliced(ms, base, []) == ms[base..]
  {
  }

  lemma NothingMissing(have: set<Id>)
    ensures Missing([], have) == [] && IdsOf([]) == {}
  {
  }

  lemma SpliceStep(ms: seq<Message>, base: nat, entries: seq<Entry>, done: seq<Message>)
    requires entries != [] && InOrder(ms, base, entries)
    ensures var i := entries[0].0;
            done + Spliced(ms, base, entries) ==
              done + ms[base..i + 1] + Synthetics(entries[0].1) + Spliced(ms, i + 1, entries[1..])
  {
    var i := entries[0].0;
    var gap, rest := Synthetics(entries[0].1), Spliced(ms, i + 1, entries[1..]);
    Assoc(done, ms[base..i + 1], gap + rest);
    Assoc(done + ms[base..i + 1], gap, rest);
  }

  lemma InsertAt(head: seq<Message>, ids: seq<Id>, offset: nat, tail: seq<Message>)
    requires offset < |ids|
    ensures var ms := head + Synthetics(ids[..offset]) + tail;
            var at := |head| + offset;
            ms[..at] + [Synthetic(ids[offset])] + ms[at..] == head + Synthetics(ids[..offset + 1]) + tail
  {
  }

  // ----- over whole runs the incremental repair equals a full rescan -----

  function Forgotten(ms: seq<Message>): Tracking {
    Tracking(ms, {}, {}, 0)
  }

  /** The remembered sets are those of the scanned part, and that part is complete. */
  ghost predicate Synced(t: Tracking) {
    && t.scan <= |t.messages|
    && t.results == Results(t.messages[..t.scan])
    && t.calls == AllUses(t.messages[..t.scan])
    && Complete(t.messages[..t.scan])
  }

  lemma RescanIsFull(ms: seq<Message>)
    ensures Synced(Forgotten(ms)) && Repaired(Forgotten(ms)).messages == FullRepair(ms)
  {
    NoMessages();
    CompleteIff([]);
    assert ms[..0] == [] && ms[0..] == ms;
    assert {} + Results(ms) == Results(ms);
  }

  lemma SyncedRepair(t: Tracking)
    requires Synced(t)
    ensures Repaired(t).messages == FullRepair(t.messages)
    ensures Synced(Repaired(t)) && Complete(Repaired(t).messages)
  {
    hide Results, AllUses, Answered, Complete;
    CompleteIff(t.messages[..t.scan]);
    CompleteIff(Repaired(t).messages);
    var seen, unseen := t.messages[..t.scan], t.messages[t.scan..];
    var have := t.results + Results(unseen);
    assert t.messages == seen + unseen;
    ResultsConcat(seen, unseen);
    AnsweredConcat(seen, unseen, have);
    AnsweredNone(seen, have);
    AnsweredSets(unseen, have);
    ResultsConcat(seen, Answered(unseen, have));
    var r := Repaired(t);
    assert r.messages[..r.scan] == r.messages;
  }

  /** Once repaired, repairing again inserts nothing, whether or not tracking was reset in between. */
  lemma SecondRepairIsIdle(t: Tracking)
    requires Synced(t)
    ensures var r := Repaired(t); Repaired(r) == r && Repaired(Forgotten(r.messages)).messages == r.messages
  {
    hide Results, AllUses, Answered, FullRepair, Complete;
    SyncedRepair(t);
    RepairCompletes(t.messages);
    var r := Repaired(t);
    RescanIsFull(r.messages);
    assert r.messages[r.scan..] == [] && r.messages[..r.scan] == r.messages;
    NoMessages();
    AnsweredNone([], r.results + Results([]));
  }

  datatype Op = Append(m: Message) | Replace(ms: seq<Message>) | ResetTracking | Repair

  /** `trusted`: since the last reset or repair messages were only appended. */
  datatype Machine = Machine(t: Tracking, trusted: bool, counts: seq<int>)

  ghost predicate Allowed(m: Machine, op: Op) {
    op == Repair ==> m.trusted || |m.t.messages| < m.t.scan
  }

  ghost function Step(m: Machine, op: Op): Machine {
    match op
    case Append(x) => m.(t := m.t.(messages := m.t.messages + [x]))
    case Replace(ms) => m.(t := m.t.(messages := ms), trusted := false)
    case ResetTracking => m.(t := Forgotten(m.t.messages), trusted := true)
    case Repair =>
      var r := Repaired(m.t);
      Machine(r, true, m.counts + [|r.messages| - |m.t.messages|])
  }

  /** The same operation when every repair starts over from an empty tracking state. */
  ghost function ReferenceStep(ms: seq<Message>, counts: seq<int>, op: Op): (seq<Message>, seq<int>) {
    match op
    case Append(x) => (ms + [x], counts)
    case Replace(ms') => (ms', counts)
    case ResetTracking => (ms, counts)
    case Repair => (FullRepair(ms), counts + [|FullRepair(ms)| - |ms|])
  }

  ghost function Run(m: Machine, ops: seq<Op>): Machine
    decreases ops
  {
    if ops == [] then m else Run(Step(m, ops[0]), ops[1..])
  }

  ghost function ReferenceRun(ms: seq<Message>, counts: seq<int>, ops: seq<Op>): (seq<Message>, seq<int>)
    decreases ops
  {
    if ops == [] then (ms, counts)
    else var (ms', counts') := ReferenceStep(ms, counts, ops[0]); ReferenceRun(ms', counts', ops[1..])
  }

  ghost predicate AllowedRun(m: Machine, ops: seq<Op>)
    decreases ops
  {
    ops != [] ==> Allowed(m, ops[0]) && AllowedRun(Step(m, ops[0]), ops[1..])
  }

  lemma StepAgrees(m: Machine, op: Op)
    requires m.trusted ==> Synced(m.t)
    requires Allowed(m, op)
    ensures var n := Step(m, op);
            (n.trusted ==> Synced(n.t)) && (n.t.messages, n.counts) == ReferenceStep(m.t.messages, m.counts, op)
  {
    hide Results, AllUses, Answered, Complete;
    match op
    case Append(x) =>
      if m.trusted {
        assert (m.t.messages + [x])[..m.t.scan] == m.t.messages[..m.t.scan];
      }
    case Replace(ms) =>
    case ResetTracking =>
      RescanIsFull(m.t.messages);
    case Repair =>
      RescanIsFull(m.t.messages);
      SyncedRepair(Forgotten(m.t.messages));
      if m.trusted {
        SyncedRepair(m.t);
      } else {
        assert Rewound(m.t) == Forgotten(m.t.messages);
      }
  }

  /** Same transcript, same counts, for every allowed run from a fresh agent. */
  lemma {:induction false} IncrementalEqualsRescan(m: Machine, ops: seq<Op>)
    requires m.trusted ==> Synced(m.t)
    requires AllowedRun(m, ops)
    ensures var n := Run(m, ops);
            (n.trusted ==> Synced(n.t)) && (n.t.messages, n.counts) == ReferenceRun(m.t.messages, m.counts, ops)
    decreases ops
  {
    if ops != [] {
      StepAgrees(m, ops[0]);
      hide Step, ReferenceStep, Synced;
      IncrementalEqualsRescan(Step(m, ops[0]), ops[1..]);
    }
  }

  // ----- exactly when one repair equals a full rescan -----

  /** The remembered results tell the same answered ids as the whole transcript does. */
  ghost predicate Agrees(t: Tracking)
    requires t.scan <= |t.messages|
  {
    var seen, unseen := t.messages[..t.scan], t.messages[t.scan..];
    && AllUses(seen) <= Results(t.messages)
    && forall id :: id in AllUses(unseen) ==> (id in t.results + Results(unseen) <==> id in Results(t.messages))
  }

  /** Where a synthetic result went in, the original had no such message to confuse it with. */
  lemma NoLookalike(ms: seq<Message>, id: Id)
    requires ms != [] && ms[0] == Synthetic(id)
    ensures id in Results(ms)
  {
    assert ToolResult(id, TOOL_OUTPUT_MISSING_TEXT, Some(true)) in ms[0].content;
    assert id in ResultsIn(ms[0]);
  }

  lemma {:induction false} SyntheticsApart(g: seq<Id>, h: seq<Id>, x: seq<Message>, y: seq<Message>)
    requires Synthetics(g) + x == Synthetics(h) + y
    requires forall id :: id in g && y != [] ==> y[0] != Synthetic(id)
    requires forall id :: id in h && x != [] ==> x[0] != Synthetic(id)
    ensures g == h && x == y
  {
    var s := Synthetics(g) + x;
    assert forall i :: 0 <= i < |g| ==> s[i] == Synthetic(g[i]);
    assert forall i :: 0 <= i < |h| ==> s[i] == Synthetic(h[i]);
    assert x != [] ==> s[|g|] == x[0];
    assert y != [] ==> s[|h|] == y[0];
    assert |s| == |g| + |x| == |h| + |y|;
    assert x == s[|g|..] && y == s[|h|..];
  }

  lemma FirstStays(ms: seq<Message>, have: set<Id>)
    ensures ms == [] ==> Answered(ms, have) == []
    ensures ms != [] ==> Answered(ms, have) != [] && Answered(ms, have)[0] == ms[0]
  {
  }

  lemma AnsweredCons(ms: seq<Message>, have: set<Id>)
    requires ms != []
    ensures Answered(ms, have) == [ms[0]] + (Synthetics(Unanswered(Uses(ms[0]), have)) + Answered(ms[1..], have))
  {
    AnsweredFirst(ms, 0, have);
    assert ms[0..] == ms;
  }

  lemma SameUnanswered(ids: seq<Id>, h1: set<Id>, h2: set<Id>)
    requires Unanswered(ids, h1) == Unanswered(ids, h2)
    ensures forall id :: id in ids ==> (id in h1 <==> id in h2)
  {
    forall id | id in ids ensures id in h1 <==> id in h2 {
      UnansweredMembers(ids, h1, id);
      UnansweredMembers(ids, h2, id);
    }
  }

  /** Equal outcomes mean the two sets of answers agree on every tool use. */
  lemma {:induction false} SameOutcome(ms: seq<Message>, h1: set<Id>, h2: set<Id>)
    requires Results(ms) <= h1 && Results(ms) <= h2 && Answered(ms, h1) == Answered(ms, h2)
    ensures forall id :: id in AllUses(ms) ==> (id in h1 <==> id in h2)
  {
    hide Results, AllUses, Answered, Synthetics;
    if ms == [] {
      NoMessages();
    } else {
      var m, rest := ms[0], ms[1..];
      assert ms == [m] + rest;
      ResultsConcat([m], rest);
      OneMessage(m);
      var g1, g2 := Unanswered(Uses(m), h1), Unanswered(Uses(m), h2);
      AnsweredCons(ms, h1);
      AnsweredCons(ms, h2);
      CancelHead(m, Synthetics(g1) + Answered(rest, h1), Synthetics(g2) + Answered(rest, h2));
      NotFirst(rest, h2, g1, Uses(m), h1);
      NotFirst(rest, h1, g2, Uses(m), h2);
      SyntheticsApart(g1, g2, Answered(rest, h1), Answered(rest, h2));
      SameUnanswered(Uses(m), h1, h2);
      SameOutcome(rest, h1, h2);
    }
  }

  lemma NotFirst(rest: seq<Message>, h: set<Id>, gap: seq<Id>, ids: seq<Id>, have: set<Id>)
    requires gap == Unanswered(ids, have) && Results(rest) <= have
    ensures forall id :: id in gap && Answered(rest, h) != [] ==> Answered(rest, h)[0] != Synthetic(id)
  {
    FirstStays(rest, h);
    forall id | id in gap && Answered(rest, h) != [] ensures Answered(rest, h)[0] != Synthetic(id) {
      UnansweredMembers(ids, have, id);
      if rest[0] == Synthetic(id) {
        NoLookalike(rest, id);
      }
    }
  }

  /** If the scanned part plus a tail equals its own repair plus a tail, it needed no repair. */
  lemma {:induction false} SeenUntouched(a: seq<Message>, b: seq<Message>, h: set<Id>, r: set<Id>)
    requires Results(a) <= r && Results(b) <= r
    requires a + Answered(b, h) == Answered(a, r) + Answered(b, r)
    ensures AllUses(a) <= r && Answered(b, h) == Answered(b, r)
  {
    hide Results, AllUses, Answered, Synthetics;
    if a == [] {
      NoMessages();
      FirstStays(a, r);
      assert [] + Answered(b, h) == Answered(b, h) && [] + Answered(b, r) == Answered(b, r);
    } else {
      var m, rest := a[0], a[1..];
      assert a == [m] + rest;
      ResultsConcat([m], rest);
      OneMessage(m);
      var gap := Unanswered(Uses(m), r);
      var x, y := rest + Answered(b, h), Answered(rest, r) + Answered(b, r);
      AnsweredCons(a, r);
      Assoc([m], rest, Answered(b, h));
      Assoc([m], Synthetics(gap) + Answered(rest, r), Answered(b, r));
      Assoc(Synthetics(gap), Answered(rest, r), Answered(b, r));
      CancelHead(m, x, Synthetics(gap) + y);
      FirstStays(b, h);
      forall id | id in gap && x != [] ensures x[0] != Synthetic(id) {
        UnansweredMembers(Uses(m), r, id);
        if x[0] == Synthetic(id) {
          if rest != [] { NoLookalike(rest, id); } else { NoLookalike(b, id); }
        }
      }
      NoGap(x);
      SyntheticsApart([], gap, x, y);
      NoneUnanswered(Uses(m), r);
      SeenUntouched(rest, b, h, r);
    }
  }

  lemma NoGap(x: seq<Message>)
    ensures Synthetics([]) + x == x
  {
  }

  lemma NoneUnanswered(ids: seq<Id>, have: set<Id>)
    requires Unanswered(ids, have) == []
    ensures forall id :: id in ids ==> id in have
  {
  }

  lemma {:induction false} AnsweredCongruent(ms: seq<Message>, h1: set<Id>, h2: set<Id>)
    requires forall id :: id in AllUses(ms) ==> (id in h1 <==> id in h2)
    ensures Answered(ms, h1) == Answered(ms, h2)
  {
    if ms != [] {
      UnansweredCongruent(Uses(ms[0]), h1, h2);
      AnsweredCongruent(ms[1..], h1, h2);
    }
  }

  lemma {:induction false} UnansweredCongruent(ids: seq<Id>, h1: set<Id>, h2: set<Id>)
    requires forall id :: id in ids ==> (id in h1 <==> id in h2)
    ensures Unanswered(ids, h1) == Unanswered(ids, h2)
  {
    if ids != [] {
      UnansweredCongruent(ids[1..], h1, h2);
    }
  }

  /** For any remembered state at all: a repair equals a full rescan exactly in these cases. */
  lemma RepairEqualsRescanIff(t: Tracking)
    ensures Repaired(t).messages == FullRepair(t.messages) <==> t.scan > |t.messages| || Agrees(t)
  {
    hide Results, AllUses, Answered;
    if t.scan > |t.messages| {
      RescanIsFull(t.messages);
      assert Rewound(t) == Forgotten(t.messages);
    } else {
      var seen, unseen := t.messages[..t.scan], t.messages[t.scan..];
      var have, all := t.results + Results(unseen), Results(t.messages);
      assert t.messages == seen + unseen;
      ResultsConcat(seen, unseen);
      AnsweredConcat(seen, unseen, all);
      if Agrees(t) {
        AnsweredNone(seen, all);
        AnsweredCongruent(unseen, have, all);
      }
      if Repaired(t).messages == FullRepair(t.messages) {
        SeenUntouched(seen, unseen, have, all);
        SameOutcome(unseen, have, all);
      }
    }
  }

  /** A rewrite of the same length without a reset hides every gap the new transcript has. */
  lemma RewriteHidesGaps(ms: seq<Message>, other: seq<Message>)
    requires Complete(ms) && |other| == |ms| && !Complete(other)
    ensures Repaired(Repaired(Forgotten(ms)).(messages := other)).messages == other
    ensures other != FullRepair(other)
  {
    hide Results, AllUses, Answered, Complete;
    CompleteIff(ms);
    CompleteIff(other);
    RescanIsFull(ms);
    AnsweredNone(ms, Results(ms));
    var t := Repaired(Forgotten(ms)).(messages := other);
    assert other[..t.scan] == other && other[t.scan..] == [];
    FirstStays([], t.results + Results([]));
    RepairEqualsRescanIff(t);
  }

  /** Such a rewrite is reachable, so the agreement does need its condition. */
  lemma ReplaceWithoutResetDiffers()
    ensures var use := Message(Assistant, [ToolUse("x")]);
            var kept := Step(Step(Machine(Forgotten([]), true, []), Append(Synthetic("x"))), Repair);
            var rewritten := Step(kept, Replace([use]));
            !Allowed(rewritten, Repair) && Step(rewritten, Repair).t.messages != FullRepair([use])
  {
    hide Answered;
    var use, answer := Message(Assistant, [ToolUse("x")]), Synthetic("x");
    assert UseIds([ToolUse("x")]) == ["x"];
    OneMessage(use);
    OneMessage(answer);
    assert "x" in AllUses([use]) && "x" !in Results([use]);
    CompleteIff([use]);
    CompleteIff([answer]);
    hide Complete;
    RescanIsFull([answer]);
    AnsweredNone([answer], Results([answer]));
    assert [] + [answer] == [answer];
    RewriteHidesGaps([answer], [use]);
  }
}
