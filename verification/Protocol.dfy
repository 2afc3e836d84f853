/**
 * The Anthropic block-event protocol, as an automaton over emitted events and
 * as the message that a client puts together from them.
 */
module Protocol {
  import opened Text

  datatype BlockKind = TextBlock | ThinkingBlock | ToolBlock(id: string, name: string)

  datatype DeltaKind = TextDelta | ThinkingDelta | InputJsonDelta

  datatype Event =
    | MessageStart
    | BlockStart(index: int, block: BlockKind)
    | BlockDelta(index: int, kind: DeltaKind, content: string)
    | BlockStop(index: int)
    | MessageDelta(stopReason: string)
    | MessageStop

  function DeltaFor(block: BlockKind): DeltaKind {
    match block
    case TextBlock => TextDelta
    case ThinkingBlock => ThinkingDelta
    case ToolBlock(_, _) => InputJsonDelta
  }

  /** `open` holds the started blocks that are not yet stopped, with the deltas they accept. */
  datatype Phase = Fresh | Streaming(next: nat, open: map<int, DeltaKind>) | Closing | Done | Broken

  /** Neither a text nor a thinking block is open. */
  predicate NoContentOpen(open: map<int, DeltaKind>) {
    forall b :: b in open ==> open[b] == InputJsonDelta
  }

  function Step(phase: Phase, e: Event): Phase {
    match (phase, e)
    case (Fresh, MessageStart) => Streaming(0, map[])
    case (Streaming(n, open), BlockStart(i, block)) =>
      if i == n && (block.ToolBlock? || NoContentOpen(open))
      then Streaming(n + 1, open[i := DeltaFor(block)]) else Broken
    case (Streaming(n, open), BlockDelta(i, kind, _)) =>
      if i in open && open[i] == kind then phase else Broken
    case (Streaming(n, open), BlockStop(i)) =>
      if i in open then Streaming(n, open - {i}) else Broken
    case (Streaming(n, open), MessageDelta(_)) => if open == map[] then Closing else Broken
    case (Closing, MessageStop) => Done
    case _ => Broken
  }

  function Run(events: seq<Event>): Phase {
    if events == [] then Fresh else Step(Run(events[..|events| - 1]), events[|events| - 1])
  }

  /** A complete, well-formed response. */
  predicate Accepts(events: seq<Event>) {
    Run(events) == Done
  }

  lemma RunAppend(events: seq<Event>, e: Event)
    ensures Run(events + [e]) == Step(Run(events), e)
  {
  }

  // ----- What the client puts together -----

  datatype Block = Block(kind: BlockKind, deltas: seq<string>)

  function AddDelta(blocks: seq<Block>, i: int, content: string): seq<Block> {
    if 0 <= i < |blocks| then blocks[i := blocks[i].(deltas := blocks[i].deltas + [content])] else blocks
  }

  function AddEvent(blocks: seq<Block>, e: Event): seq<Block> {
    match e
    case BlockStart(_, kind) => blocks + [Block(kind, [])]
    case BlockDelta(i, _, content) => AddDelta(blocks, i, content)
    case _ => blocks
  }

  /** The content blocks of the message, in order of their start events. */
  function Assemble(events: seq<Event>): seq<Block> {
    if events == [] then [] else AddEvent(Assemble(events[..|events| - 1]), events[|events| - 1])
  }

  lemma AssembleAppend(events: seq<Event>, e: Event)
    ensures Assemble(events + [e]) == AddEvent(Assemble(events), e)
  {
  }

  // ----- What acceptance means, position by position -----

  function Starts(events: seq<Event>): nat {
    if events == [] then 0
    else Starts(events[..|events| - 1]) + if events[|events| - 1].BlockStart? then 1 else 0
  }

  predicate StartsAt(events: seq<Event>, b: int, p: int) {
    0 <= p < |events| && events[p].BlockStart? && events[p].index == b
  }

  predicate StopsAt(events: seq<Event>, b: int, p: int) {
    0 <= p < |events| && events[p].BlockStop? && events[p].index == b
  }

  ghost predicate StoppedBetween(events: seq<Event>, b: int, from: int, to: int) {
    exists q :: from < q < to && StopsAt(events, b, q)
  }

  /** A start of block b for deltas of this kind lies before n, and no stop of b does. */
  ghost predicate OpenAs(events: seq<Event>, b: int, kind: DeltaKind, n: int) {
    && (exists p :: p < n && StartsAt(events, b, p) && DeltaFor(events[p].block) == kind)
    && !StoppedBetween(events, b, -1, n)
  }

  /**
   * The event at p is in order: the k-th start carries index k; a text or
   * thinking block starts only when all earlier ones are stopped; a delta goes
   * to an open block of its kind; only an open block is stopped.
   */
  ghost predicate InOrder(events: seq<Event>, p: nat)
    requires p < |events|
  {
    match events[p]
    case BlockStart(i, block) =>
      && i == Starts(events[..p])
      && (block.ToolBlock? || forall q :: 0 <= q < p && events[q].BlockStart? && !events[q].block.ToolBlock?
                                ==> StoppedBetween(events, events[q].index, -1, p))
    case BlockDelta(i, kind, _) => OpenAs(events, i, kind, p)
    case BlockStop(i) => exists kind :: OpenAs(events, i, kind, p)
    case _ => false
  }

  ghost predicate WellFormedStream(events: seq<Event>) {
    var n := |events| - 2;
    && n >= 1 && events[0] == MessageStart && events[n].MessageDelta? && events[n + 1] == MessageStop
    && (forall p :: 0 < p < n ==> InOrder(events, p))
    && (forall p :: 0 <= p < n && events[p].BlockStart? ==> StoppedBetween(events, events[p].index, -1, n))
  }

  /** What the automaton knows after n events. */
  ghost predicate Describes(events: seq<Event>, n: nat)
    requires n <= |events|
  {
    var phase := Run(events[..n]);
    && phase.Streaming? && phase.next == Starts(events[..n])
    && (forall p :: 0 <= p < n && events[p].BlockStart? ==> 0 <= events[p].index < phase.next)
    && (forall b, p :: p < n && StopsAt(events, b, p) ==> 0 <= b < phase.next)
    && (forall b, kind :: OpenAs(events, b, kind, n) <==> b in phase.open && phase.open[b] == kind)
  }

  ghost predicate InOrderUpTo(events: seq<Event>, n: nat)
    requires n <= |events|
  {
    0 < n && events[0] == MessageStart && forall p :: 0 < p < n ==> InOrder(events, p)
  }

  lemma PrefixStep(events: seq<Event>, n: nat)
    requires n < |events|
    ensures Run(events[..n + 1]) == Step(Run(events[..n]), events[n])
    ensures Starts(events[..n + 1]) == Starts(events[..n]) + if events[n].BlockStart? then 1 else 0
  {
    assert events[..n + 1][..n] == events[..n];
  }

  lemma OpenStep(events: seq<Event>, b: int, kind: DeltaKind, n: nat)
    requires n < |events| && Describes(events, n)
    requires events[n].BlockStart? ==> events[n].index == Run(events[..n]).next
    ensures OpenAs(events, b, kind, n + 1) <==>
              if StartsAt(events, b, n) then DeltaFor(events[n].block) == kind
              else OpenAs(events, b, kind, n) && !StopsAt(events, b, n)
  {
  }

  /** The open text and thinking blocks are those that have been started and not stopped. */
  lemma ContentOpen(events: seq<Event>, n: nat)
    requires n <= |events| && Describes(events, n)
    ensures NoContentOpen(Run(events[..n]).open) <==>
              forall q :: 0 <= q < n && events[q].BlockStart? && !events[q].block.ToolBlock?
                ==> StoppedBetween(events, events[q].index, -1, n)
  {
    var open := Run(events[..n]).open;
    if NoContentOpen(open) {
      forall q | 0 <= q < n && events[q].BlockStart? && !events[q].block.ToolBlock?
        ensures StoppedBetween(events, events[q].index, -1, n)
      {
        var b, kind := events[q].index, DeltaFor(events[q].block);
        assert StartsAt(events, b, q);
        assert OpenAs(events, b, kind, n) <==> b in open && open[b] == kind;
      }
    } else {
      var b :| b in open && open[b] != InputJsonDelta;
      assert OpenAs(events, b, open[b], n);
      var q :| q < n && StartsAt(events, b, q) && DeltaFor(events[q].block) == open[b];
    }
  }

  /** The automaton streams on exactly as long as every event is in order. */
  lemma {:induction false} StreamsIffInOrder(events: seq<Event>, n: nat)
    requires 0 < n <= |events|
    ensures Run(events[..n]).Streaming? <==> InOrderUpTo(events, n)
    ensures Run(events[..n]).Streaming? ==> Describes(events, n)
  {
    PrefixStep(events, n - 1);
    if n == 1 {
      assert events[..0] == [];
      if events[0] == MessageStart {
        assert forall b, kind :: !OpenAs(events, b, kind, 1);
      }
    } else {
      StreamsIffInOrder(events, n - 1);
      hide Run, Starts;
      if Run(events[..n - 1]).Streaming? {
        StepInOrder(events, n - 1);
        if InOrder(events, n - 1) { DescribesStep(events, n - 1); }
      }
    }
  }

  lemma StepInOrder(events: seq<Event>, n: nat)
    requires n < |events| && Describes(events, n)
    ensures Step(Run(events[..n]), events[n]).Streaming? <==> InOrder(events, n)
  {
    ContentOpen(events, n);
    hide Run, Starts, OpenAs, StoppedBetween, NoContentOpen;
    var open := Run(events[..n]).open;
    match events[n]
    case BlockDelta(i, kind, _) =>
      assert OpenAs(events, i, kind, n) <==> i in open && open[i] == kind;
    case BlockStop(i) =>
      if i in open { assert OpenAs(events, i, open[i], n); }
    case _ =>
  }

  lemma DescribesStep(events: seq<Event>, n: nat)
    requires n < |events| && Describes(events, n) && InOrder(events, n)
    ensures Describes(events, n + 1)
  {
    PrefixStep(events, n);
    StepInOrder(events, n);
    forall b, kind
      ensures OpenAs(events, b, kind, n + 1) <==>
                if StartsAt(events, b, n) then DeltaFor(events[n].block) == kind
                else OpenAs(events, b, kind, n) && !StopsAt(events, b, n)
    {
      OpenStep(events, b, kind, n);
    }
    forall b | StopsAt(events, b, n)
      ensures 0 <= b < Run(events[..n]).next
    {
      var kind :| OpenAs(events, b, kind, n);
      var q :| q < n && StartsAt(events, b, q) && DeltaFor(events[q].block) == kind;
    }
    hide Run, Starts, OpenAs, InOrder, StoppedBetween, NoContentOpen;
    var m, before, after := n + 1, Run(events[..n]), Run(events[..n + 1]);
    forall b, kind
      ensures OpenAs(events, b, kind, m) <==> b in after.open && after.open[b] == kind
    {
      assert OpenAs(events, b, kind, n) <==> b in before.open && before.open[b] == kind;
      match events[n]
      case BlockStart(i, block) => assert after.open == before.open[i := DeltaFor(block)];
      case BlockStop(i) => assert after.open == before.open - {i};
      case BlockDelta(_, _, _) =>
    }
  }

  /** The automaton accepts exactly the streams that are well-formed position by position. */
  lemma AcceptsIffWellFormed(events: seq<Event>)
    ensures Accepts(events) <==> WellFormedStream(events)
  {
    var n := |events| - 2;
    if n >= 1 {
      StreamsIffInOrder(events, n);
      LastTwo(events, n);
      if InOrderUpTo(events, n) {
        AllStopped(events, n);
      }
      hide Run, Describes, InOrder, StoppedBetween;
    } else {
      ShortStreams(events);
      hide Accepts;
    }
  }

  /** A message ends after its last two events, with no block open. */
  lemma LastTwo(events: seq<Event>, n: nat)
    requires n + 2 == |events|
    ensures Accepts(events) <==>
              && Run(events[..n]).Streaming? && Run(events[..n]).open == map[]
              && events[n].MessageDelta? && events[n + 1] == MessageStop
  {
    PrefixStep(events, n);
    PrefixStep(events, n + 1);
    assert events[..n + 2] == events;
    hide Run;
  }

  lemma AllStopped(events: seq<Event>, n: nat)
    requires n <= |events| && Describes(events, n)
    ensures Run(events[..n]).open == map[] <==>
              forall p :: 0 <= p < n && events[p].BlockStart? ==> StoppedBetween(events, events[p].index, -1, n)
  {
    var open := Run(events[..n]).open;
    if forall b :: b !in open {
      assert open == map[];
      forall p | 0 <= p < n && events[p].BlockStart?
        ensures StoppedBetween(events, events[p].index, -1, n)
      {
        var b, kind := events[p].index, DeltaFor(events[p].block);
        assert StartsAt(events, b, p);
        assert !OpenAs(events, b, kind, n);
      }
    } else {
      var b :| b in open;
      assert OpenAs(events, b, open[b], n);
      var q :| q < n && StartsAt(events, b, q) && DeltaFor(events[q].block) == open[b];
    }
  }

  lemma ShortStreams(events: seq<Event>)
    requires |events| <= 2
    ensures !Accepts(events)
  {
    assert events[..0] == [] && events[..|events|] == events;
    if |events| >= 1 { PrefixStep(events, 0); }
    if |events| >= 2 { PrefixStep(events, 1); }
  }

  // ----- The blocks are what the events say -----

  /** The delta is of the kind that goes into this block. */
  predicate Fits(block: BlockKind, kind: DeltaKind) {
    && (block.TextBlock? <==> kind == TextDelta)
    && (block.ThinkingBlock? <==> kind == ThinkingDelta)
    && (block.ToolBlock? <==> kind == InputJsonDelta)
  }

  /** The block was started as number b, and holds every delta sent to b after that, in order and of its kind. */
  ghost predicate BlockIs(events: seq<Event>, b: int, block: Block, start: nat, at: seq<nat>) {
    && StartsAt(events, b, start) && events[start].block == block.kind
    && Increasing(at, |events|) && |at| == |block.deltas|
    && (forall k :: 0 <= k < |at| ==>
          && start < at[k] && events[at[k]].BlockDelta? && events[at[k]].content == block.deltas[k]
          && Fits(block.kind, events[at[k]].kind))
    && forall p :: 0 <= p < |events| ==> (p in at <==> events[p].BlockDelta? && events[p].index == b)
  }

  /** The automaton counts the assembled blocks and knows the kinds of the open ones. */
  ghost predicate KnowsBlocks(events: seq<Event>, phase: Phase, blocks: seq<Block>) {
    && phase.Streaming? && phase.next == |blocks|
    && (forall b :: b in phase.open ==> 0 <= b < |blocks| && phase.open[b] == DeltaFor(blocks[b].kind))
    && forall p :: 0 <= p < |events| && (events[p].BlockStart? || events[p].BlockDelta?) ==> 0 <= events[p].index < |blocks|
  }

  lemma {:induction false} BlocksKnown(events: seq<Event>)
    requires Run(events).Streaming?
    ensures KnowsBlocks(events, Run(events), Assemble(events))
  {
    var n := |events| - 1;
    var before := events[..n];
    assert forall p :: 0 <= p < n ==> before[p] == events[p];
    if before == [] {
      assert Run(before) == Fresh && Assemble(before) == [];
    } else {
      BlocksKnown(before);
      hide Run, Assemble;
    }
  }

  lemma OneEvent(e: Event)
    ensures Run([e]).Streaming? ==> Assemble([e]) == []
  {
    RunAppend([], e);
    AssembleAppend([], e);
    assert [] + [e] == [e];
  }

  /** One more event: the block is new, has one more delta, or stays. */
  lemma BlockStep(before: seq<Event>, e: Event, blocks: seq<Block>, phase: Phase, b: int, start: nat, at: seq<nat>)
    requires KnowsBlocks(before, phase, blocks) && Step(phase, e).Streaming? && 0 <= b < |AddEvent(blocks, e)|
    requires b < |blocks| ==> BlockIs(before, b, blocks[b], start, at)
    ensures var n, block := |before|, AddEvent(blocks, e)[b];
            if b == |blocks| then BlockIs(before + [e], b, block, n, [])
            else if e.BlockDelta? && e.index == b then BlockIs(before + [e], b, block, start, at + [n])
            else BlockIs(before + [e], b, block, start, at)
  {
    if b < |blocks| { OneMoreAt(at, |before|); }
  }

  lemma {:induction false} BlockOfEvents(events: seq<Event>, b: int) returns (start: nat, at: seq<nat>)
    requires Run(events).Streaming? && 0 <= b < |Assemble(events)|
    ensures BlockIs(events, b, Assemble(events)[b], start, at)
  {
    var n := |events| - 1;
    var before, e := events[..n], events[n];
    OneEvent(e);
    assert events == before + [e] && (before == [] ==> events == [e]);
    BlocksKnown(before);
    start, at := n, [];
    if b < |Assemble(before)| {
      start, at := BlockOfEvents(before, b);
    }
    BlockStep(before, e, Assemble(before), Run(before), b, start, at);
    hide BlockIs;
    if b < |Assemble(before)| && e.BlockDelta? && e.index == b { at := at + [n]; }
  }

  /**
   * Of a complete message the client puts together one block for each start
   * event, under the number it was started with, from exactly the deltas sent to it.
   */
  lemma MessageIs(events: seq<Event>, b: nat) returns (start: nat, at: seq<nat>)
    requires Accepts(events)
    ensures |Assemble(events)| == Starts(events)
    ensures b < Starts(events) ==> BlockIs(events, b, Assemble(events)[b], start, at)
  {
    var n := |events| - 2;
    start, at := 0, [];
    if n >= 1 {
      LastTwo(events, n);
      StreamsIffInOrder(events, n);
      BlocksKnown(events[..n]);
      LastTwoAddNothing(events, n);
      if b < Starts(events) {
        start, at := BlockOfEvents(events[..n], b);
        hide *;
        ClosingKeepsBlock(events, n, b, Assemble(events)[b], start, at);
      }
    } else {
      ShortStreams(events);
    }
  }

  lemma LastTwoAddNothing(events: seq<Event>, n: nat)
    requires n + 2 == |events| && events[n].MessageDelta? && events[n + 1] == MessageStop
    ensures Assemble(events) == Assemble(events[..n]) && Starts(events) == Starts(events[..n])
  {
    assert events[..n + 1][..n] == events[..n] && events[..n + 2] == events;
    AssembleAppend(events[..n], events[n]);
    AssembleAppend(events[..n + 1], events[n + 1]);
    assert events[..n + 1] == events[..n] + [events[n]] && events == events[..n + 1] + [events[n + 1]];
  }

  lemma ClosingKeepsBlock(events: seq<Event>, n: nat, b: int, block: Block, start: nat, at: seq<nat>)
    requires n + 2 == |events| && events[n].MessageDelta? && events[n + 1] == MessageStop
    requires BlockIs(events[..n], b, block, start, at)
    ensures BlockIs(events, b, block, start, at)
  {
    assert forall p :: 0 <= p < n ==> events[..n][p] == events[p];
  }
}
