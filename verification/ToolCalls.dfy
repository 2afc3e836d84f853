/**
 * Native tool-call deltas: which call they belong to, what it is called, and
 * what its block must hold (providers/openai_compat.py, `_process_tool_call`).
 */
module ToolCalls {
  import opened Text
  import opened Protocol
  import opened Sse

  /** Missing ids and arguments are empty; Malformed deltas lack the index or the function. */
  datatype ToolCallDelta =
    | Malformed
    | ToolCallDelta(index: int, id: string, name: Option<string>, arguments: string)

  /** The call that a delta belongs to: a negative index is replaced by the number of calls so far. */
  function Target(calls: seq<ToolCallDelta>, tc: ToolCallDelta): int
    requires tc.ToolCallDelta?
    decreases |calls|, 1
  {
    if tc.index < 0 then |Keys(calls)| else tc.index
  }

  /** The calls that the deltas have created. */
  function Keys(calls: seq<ToolCallDelta>): set<int>
    decreases |calls|, 0
  {
    if calls == [] then {}
    else
      var (before, tc) := (calls[..|calls| - 1], calls[|calls| - 1]);
      if tc.ToolCallDelta? && (tc.name.Some? || tc.id != "" || tc.arguments != "")
      then Keys(before) + {Target(before, tc)} else Keys(before)
  }

  predicate Hits(calls: seq<ToolCallDelta>, tc: ToolCallDelta, t: int) {
    tc.ToolCallDelta? && Target(calls, tc) == t
  }

  lemma TargetIs(calls: seq<ToolCallDelta>, tc: ToolCallDelta, t: int)
    ensures tc.ToolCallDelta? && tc.index >= 0 ==> (Hits(calls, tc, t) <==> tc.index == t)
  {
  }

  /** When no delta has an index, each that says anything is a call of its own, and they are numbered in order. */
  lemma {:induction false} NumberedInOrder(calls: seq<ToolCallDelta>, tc: ToolCallDelta)
    requires forall i :: 0 <= i < |calls| ==>
               && calls[i].ToolCallDelta? && calls[i].index < 0
               && (calls[i].name.Some? || calls[i].id != "" || calls[i].arguments != "")
    requires tc.ToolCallDelta? && tc.index < 0
    ensures (forall t :: t in Keys(calls) <==> 0 <= t < |calls|) && |Keys(calls)| == |calls|
    ensures Hits(calls, tc, |calls|)
  {
    if calls != [] {
      var n := |calls| - 1;
      NumberedInOrder(calls[..n], tc);
      assert Keys(calls) == Keys(calls[..n]) + {n};
    }
  }

  /** The argument fragments of call t, in order. */
  function FragmentsOf(calls: seq<ToolCallDelta>, t: int): seq<string> {
    if calls == [] then []
    else
      var (before, tc) := (calls[..|calls| - 1], calls[|calls| - 1]);
      FragmentsOf(before, t) + if Hits(before, tc, t) && tc.arguments != "" then [tc.arguments] else []
  }

  lemma LastFragment(calls: seq<ToolCallDelta>, t: int)
    requires calls != []
    ensures var n := |calls| - 1;
            FragmentsOf(calls, t) == FragmentsOf(calls[..n], t)
              + if Hits(calls[..n], calls[n], t) && calls[n].arguments != "" then [calls[n].arguments] else []
  {
  }

  /** They are the arguments of exactly those deltas that are for call t and have any, each once, in their order. */
  lemma {:induction false} FragmentsAre(calls: seq<ToolCallDelta>, t: int) returns (at: seq<nat>)
    ensures Increasing(at, |calls|) && |at| == |FragmentsOf(calls, t)|
    ensures forall k :: 0 <= k < |at| ==>
              Hits(calls[..at[k]], calls[at[k]], t) && calls[at[k]].arguments == FragmentsOf(calls, t)[k] != ""
    ensures forall i :: 0 <= i < |calls| && Hits(calls[..i], calls[i], t) && calls[i].arguments != "" ==> i in at
  {
    at := [];
    if calls != [] {
      var n := |calls| - 1;
      var before := calls[..n];
      at := FragmentsAre(before, t);
      OneMoreAt(at, n);
      assert forall i :: 0 <= i < n ==> before[i] == calls[i] && before[..i] == calls[..i];
      LastFragment(calls, t);
      hide Hits, FragmentsOf, Increasing;
      if Hits(before, calls[n], t) && calls[n].arguments != "" { at := at + [n]; }
    }
  }

  /** How a delta changes the name of its call; a call without a name is called tool_call once it has arguments. */
  function NameStep(name: Option<string>, tc: ToolCallDelta): Option<string>
    requires tc.ToolCallDelta?
  {
    if tc.name.Some? then Some(if name.Some? then MergeName(name.value, tc.name.value) else tc.name.value)
    else if name.Some? then name
    else if tc.id != "" then Some("")
    else if tc.arguments != "" then Some("tool_call")
    else None
  }

  function NameOf(calls: seq<ToolCallDelta>, t: int): Option<string> {
    if calls == [] then None
    else
      var (before, tc) := (calls[..|calls| - 1], calls[|calls| - 1]);
      if Hits(before, tc, t) then NameStep(NameOf(before, t), tc) else NameOf(before, t)
  }

  /** The i-th delta is for call t and gives this name. */
  predicate Gives(calls: seq<ToolCallDelta>, t: int, name: string, i: nat) {
    i < |calls| && Hits(calls[..i], calls[i], t) && calls[i].name == Some(name)
  }

  lemma MergeWithin(prev: string, more: string, name: string)
    requires prev <= name && more <= name
    ensures MergeName(prev, more) <= name && (prev == name || more == name ==> MergeName(prev, more) == name)
  {
  }

  /** A call whose name comes whole, and perhaps again, or grows with each delta, ends up with the whole name. */
  lemma {:induction false} WholeNameKept(calls: seq<ToolCallDelta>, t: int, name: string)
    requires forall i :: 0 <= i < |calls| && Hits(calls[..i], calls[i], t) ==>
               && (NameOf(calls[..i], t).None? ==> calls[i].name.Some?)
               && (calls[i].name.Some? ==> calls[i].name.value <= name)
    ensures NameOf(calls, t).Some? ==> NameOf(calls, t).value <= name
    ensures forall i: nat :: Gives(calls, t, name, i) ==> NameOf(calls, t) == Some(name)
  {
    if calls != [] {
      var n := |calls| - 1;
      var (before, tc) := (calls[..n], calls[n]);
      assert forall i :: 0 <= i < n ==> before[i] == calls[i] && before[..i] == calls[..i];
      WholeNameKept(before, t, name);
      assert forall i: nat :: i != n ==> (Gives(before, t, name, i) <==> Gives(calls, t, name, i));
      LastName(calls, t);
      if NameOf(before, t).Some? && Hits(before, tc, t) && tc.name.Some? {
        MergeWithin(NameOf(before, t).value, tc.name.value, name);
      }
      hide NameOf, Hits, MergeName;
    }
  }

  lemma LastName(calls: seq<ToolCallDelta>, t: int)
    requires calls != []
    ensures var (before, tc) := (calls[..|calls| - 1], calls[|calls| - 1]);
            NameOf(calls, t) == if Hits(before, tc, t) then NameStep(NameOf(before, t), tc) else NameOf(before, t)
  {
  }

  /** The id and the name with which a block is started; an empty id is replaced by a fresh one. */
  datatype Start = Start(id: string, name: string)

  function StartIn(name: string, tc: ToolCallDelta): Start
    requires tc.ToolCallDelta?
  {
    Start(tc.id, if name == "" && tc.id == "" then "tool_call" else name)
  }

  /**
   * Whether and how the block of call t has been started: by the first delta
   * after which it has a name, or that has an id or arguments.
   */
  function StartOf(calls: seq<ToolCallDelta>, t: int): Option<Start> {
    if calls == [] then None
    else
      var (before, tc) := (calls[..|calls| - 1], calls[|calls| - 1]);
      if StartOf(before, t).Some? || !Hits(before, tc, t) then StartOf(before, t)
      else
        var name := if NameOf(calls, t).Some? then NameOf(calls, t).value else "";
        if name != "" || tc.id != "" || tc.arguments != "" then Some(StartIn(name, tc)) else None
  }

  /** The delta that starts a block: its id and the name it gives, if it gives one, are those of the block. */
  lemma BlockStarts(calls: seq<ToolCallDelta>, tc: ToolCallDelta, t: int)
    requires Hits(calls, tc, t) && StartOf(calls, t).None? && (NameOf(calls, t).Some? ==> NameOf(calls, t).value == "")
    ensures var start := StartOf(calls + [tc], t);
            && (tc.name.Some? && tc.name.value != "" ==> start == Some(Start(tc.id, tc.name.value)))
            && (tc.name in {None, Some("")} && tc.id != "" ==> start == Some(Start(tc.id, "")))
  {
    var more := calls + [tc];
    assert more[..|more| - 1] == calls && more[|more| - 1] == tc;
  }

  /** A block is started once. */
  lemma StartStays(calls: seq<ToolCallDelta>, tc: ToolCallDelta, t: int)
    requires StartOf(calls, t).Some?
    ensures StartOf(calls + [tc], t) == StartOf(calls, t)
  {
    var more := calls + [tc];
    assert more[..|more| - 1] == calls;
  }

  /** No delta after the one that starts the block changes the name. */
  predicate NameStays(calls: seq<ToolCallDelta>, t: int) {
    calls != [] ==>
      var before := calls[..|calls| - 1];
      NameStays(before, t) && (StartOf(before, t).Some? ==> NameOf(calls, t) == NameOf(before, t))
  }

  /** Arguments alone have started the block of a call whose name was empty, so that it is called tool_call. */
  predicate StartedUnnamed(calls: seq<ToolCallDelta>, t: int) {
    calls != [] &&
      var before := calls[..|calls| - 1];
      if StartOf(before, t).Some? then StartedUnnamed(before, t)
      else StartOf(calls, t).Some? && NameOf(calls, t) == Some("") && StartOf(calls, t).value.name != ""
  }

  lemma MergeGrows(prev: string, name: string)
    ensures prev <= MergeName(prev, name)
  {
  }

  /**
   * A block bears the name that its call has in the end exactly if no delta
   * after its start changes the name; one that arguments started before there
   * was a name is called tool_call.
   */
  lemma {:induction false} BlockNameExactly(calls: seq<ToolCallDelta>, t: int)
    requires StartOf(calls, t).Some?
    ensures var name := StartOf(calls, t).value.name;
            && NameOf(calls, t).Some?
            && (StartedUnnamed(calls, t) ==> name == "tool_call")
            && (!StartedUnnamed(calls, t) ==>
                  && name <= NameOf(calls, t).value
                  && (name == NameOf(calls, t).value <==> NameStays(calls, t)))
  {
    var (before, tc) := (calls[..|calls| - 1], calls[|calls| - 1]);
    if StartOf(before, t).Some? {
      BlockNameExactly(before, t);
      if Hits(before, tc, t) && tc.name.Some? { MergeGrows(NameOf(before, t).value, tc.name.value); }
    } else {
      StaysBefore(before, t);
    }
  }

  lemma {:induction false} StaysBefore(calls: seq<ToolCallDelta>, t: int)
    requires StartOf(calls, t).None?
    ensures NameStays(calls, t)
  {
    if calls != [] { StaysBefore(calls[..|calls| - 1], t); }
  }

  /** A name that comes in two parts: the block bears the first one. */
  lemma NameInParts()
    ensures var calls := [ToolCallDelta(0, "id", Some("Gr"), ""), ToolCallDelta(0, "", Some("ep"), "")];
            StartOf(calls, 0) == Some(Start("id", "Gr")) && NameOf(calls, 0) == Some("Grep")
  {
    var first := [ToolCallDelta(0, "id", Some("Gr"), "")];
    var calls := first + [ToolCallDelta(0, "", Some("ep"), "")];
    assert first[..0] == [] && calls[..1] == first;
    assert NameOf(first, 0) == Some("Gr") && StartOf(first, 0) == Some(Start("id", "Gr"));
    assert "Gr"[0] != "ep"[0] && "Gr" + "ep" == "Grep";
    assert MergeName("Gr", "ep") == "Grep";
  }

  /** Every fragment of call t came while its name was (or was not) Task. */
  predicate TaskAlways(calls: seq<ToolCallDelta>, t: int, isTask: bool) {
    calls != [] ==>
      var (before, tc) := (calls[..|calls| - 1], calls[|calls| - 1]);
      && TaskAlways(before, t, isTask)
      && (Hits(before, tc, t) && tc.arguments != "" ==> (NameOf(calls, t) == Some("Task")) == isTask)
  }

  predicate IsObject(json: Json, s: string) {
    json.loads(s).Some? && json.loads(s).value.Object?
  }

  /** The patched object, as soon as the fragments so far form one. */
  function TaskOutput(json: Json, fragments: seq<string>): Option<string> {
    if fragments == [] then None
    else
      var earlier := TaskOutput(json, fragments[..|fragments| - 1]);
      if earlier.Some? then earlier
      else if IsObject(json, Concat(fragments)) then Some(FlushOut(json, Concat(fragments)))
      else None
  }

  /** TaskOutput is the patched form of the shortest run of fragments that is a JSON object. */
  lemma {:induction false} TaskOutputIsFirstObject(json: Json, fragments: seq<string>)
    ensures TaskOutput(json, fragments).None? <==>
              forall n :: 1 <= n <= |fragments| ==> !IsObject(json, Concat(fragments[..n]))
    ensures TaskOutput(json, fragments).Some? ==>
              exists n :: 1 <= n <= |fragments| && IsObject(json, Concat(fragments[..n]))
                && (forall m :: 1 <= m < n ==> !IsObject(json, Concat(fragments[..m])))
                && TaskOutput(json, fragments) == Some(FlushOut(json, Concat(fragments[..n])))
  {
    hide Concat, IsObject, FlushOut;
    if fragments != [] {
      var k := |fragments| - 1;
      TaskOutputIsFirstObject(json, fragments[..k]);
      assert fragments[..k + 1] == fragments;
      assert forall n :: 0 <= n <= k ==> fragments[..k][..n] == fragments[..n];
    }
  }

  // ----- What becomes of the arguments of a call -----

  /** The deltas emitted for a call, the buffer that is not emitted yet, and whether a Task object is out. */
  datatype Arguments = Arguments(deltas: seq<string>, buffer: string, emitted: bool)

  const NO_ARGUMENTS := Arguments([], "", false)

  function ArgumentsIn(state: ToolCallState): Arguments {
    Arguments(state.contents, state.taskArgBuffer, state.taskArgsEmitted)
  }

  /**
   * One fragment. While the call is named Task it is dropped once the object
   * is out, else buffered until the buffer is one; otherwise it is emitted.
   */
  function ArgumentsStep(a: Arguments, isTask: bool, fragment: string, json: Json): Arguments {
    if fragment == "" then a
    else if !isTask then a.(deltas := a.deltas + [fragment])
    else if a.emitted then a
    else if IsObject(json, a.buffer + fragment) then Arguments(a.deltas + [FlushOut(json, a.buffer + fragment)], "", true)
    else a.(buffer := a.buffer + fragment)
  }

  function ArgumentsOf(calls: seq<ToolCallDelta>, t: int, json: Json): Arguments {
    if calls == [] then NO_ARGUMENTS
    else
      var (before, tc) := (calls[..|calls| - 1], calls[|calls| - 1]);
      if Hits(before, tc, t)
      then ArgumentsStep(ArgumentsOf(before, t, json), NameOf(calls, t) == Some("Task"), tc.arguments, json)
      else ArgumentsOf(before, t, json)
  }

  /** At the end of the stream a buffer that is left over is emitted as the empty object. */
  function FinalDeltas(a: Arguments): seq<string> {
    if a.buffer != "" then a.deltas + ["{}"] else a.deltas
  }

  /** What is left in a buffer is never an object, so the flush has nothing to patch. */
  lemma {:induction false} BufferIsNoObject(calls: seq<ToolCallDelta>, t: int, json: Json)
    ensures var a := ArgumentsOf(calls, t, json);
            a.buffer != "" ==> !a.emitted && !IsObject(json, a.buffer) && FlushOut(json, a.buffer) == "{}"
  {
    if calls != [] { BufferIsNoObject(calls[..|calls| - 1], t, json); }
  }

  /** A call that is never named Task at its arguments has its fragments emitted as they came. */
  lemma {:induction false} NeverTask(calls: seq<ToolCallDelta>, t: int, json: Json)
    requires TaskAlways(calls, t, false)
    ensures ArgumentsOf(calls, t, json) == Arguments(FragmentsOf(calls, t), "", false)
    ensures FinalDeltas(ArgumentsOf(calls, t, json)) == FragmentsOf(calls, t)
  {
    hide NameOf, IsObject, FlushOut;
    if calls != [] { NeverTask(calls[..|calls| - 1], t, json); }
  }

  /** A call that is always named Task at its arguments has exactly one delta if it has any fragment. */
  lemma AlwaysTask(calls: seq<ToolCallDelta>, t: int, json: Json)
    requires TaskAlways(calls, t, true)
    ensures FinalDeltas(ArgumentsOf(calls, t, json)) == TaskFinal(json, FragmentsOf(calls, t))
  {
    TaskTracked(calls, t, json);
    FragmentsNonEmpty(calls, t);
    hide ArgumentsOf, FragmentsOf, TaskAlways;
    var fragments := FragmentsOf(calls, t);
    if fragments != [] { assert |Concat(fragments)| >= |fragments[0]| > 0; }
    assert [] + ["{}"] == ["{}"];
  }

  /** The arguments of a Task call after these fragments. */
  function TaskArguments(json: Json, fragments: seq<string>): Arguments {
    match TaskOutput(json, fragments)
    case Some(out) => Arguments([out], "", true)
    case None => Arguments([], Concat(fragments), false)
  }

  lemma {:induction false} TaskTracked(calls: seq<ToolCallDelta>, t: int, json: Json)
    requires TaskAlways(calls, t, true)
    ensures ArgumentsOf(calls, t, json) == TaskArguments(json, FragmentsOf(calls, t))
  {
    if calls == [] {
      assert Concat([]) == "";
    } else {
      hide TaskArguments, NameOf, ArgumentsStep;
      var (before, tc) := (calls[..|calls| - 1], calls[|calls| - 1]);
      TaskTracked(before, t, json);
      var earlier := FragmentsOf(before, t);
      if Hits(before, tc, t) {
        if tc.arguments != "" { TaskArgumentsStep(json, earlier, tc.arguments); }
        assert FragmentsOf(calls, t) == earlier + if tc.arguments != "" then [tc.arguments] else [];
        if tc.arguments == "" {
          assert earlier + [] == earlier;
          NoFragmentNoStep(TaskArguments(json, earlier), NameOf(calls, t) == Some("Task"), json);
        }
      } else {
        assert FragmentsOf(calls, t) == earlier;
      }
    }
  }

  lemma NoFragmentNoStep(a: Arguments, isTask: bool, json: Json)
    ensures ArgumentsStep(a, isTask, "", json) == a
  {
  }

  lemma TaskArgumentsStep(json: Json, earlier: seq<string>, args: string)
    requires args != ""
    ensures ArgumentsStep(TaskArguments(json, earlier), true, args, json) == TaskArguments(json, earlier + [args])
  {
    TaskOutputStep(json, earlier, args);
    hide TaskOutput, Concat, IsObject, FlushOut;
  }

  /** What is put out of an object: it, with run_in_background set to false and nothing else changed. */
  lemma PatchedDelta(json: Json, text: string) returns (patched: map<string, JsonValue>)
    requires IsObject(json, text)
    ensures FlushOut(json, text) == json.dumps(Object(patched)) && IsPatched(json.loads(text), patched)
  {
    patched := PatchTask(json.loads(text).value.fields);
  }

  ghost predicate IsPatched(parsed: Option<JsonValue>, patched: map<string, JsonValue>) {
    && parsed.Some? && parsed.value.Object?
    && patched.Keys == parsed.value.fields.Keys + {"run_in_background"}
    && patched["run_in_background"] == Bool(false)
    && forall k :: k in parsed.value.fields && k != "run_in_background" ==> patched[k] == parsed.value.fields[k]
  }

  /** The first n fragments are the first of them to form an object. */
  ghost predicate FormsFirst(json: Json, fragments: seq<string>, n: nat) {
    && 1 <= n <= |fragments| && IsObject(json, Concat(fragments[..n]))
    && forall m :: 1 <= m < n ==> !IsObject(json, Concat(fragments[..m]))
  }

  lemma FirstObject(json: Json, fragments: seq<string>) returns (n: nat)
    ensures TaskOutput(json, fragments).Some? ==>
              FormsFirst(json, fragments, n) && TaskOutput(json, fragments) == Some(FlushOut(json, Concat(fragments[..n])))
    ensures TaskOutput(json, fragments).None? ==>
              n == 0 && forall m :: 1 <= m <= |fragments| ==> !IsObject(json, Concat(fragments[..m]))
  {
    TaskOutputIsFirstObject(json, fragments);
    hide TaskOutput, Concat, IsObject, FlushOut;
    n := 0;
    if TaskOutput(json, fragments).Some? {
      n :| 1 <= n <= |fragments| && IsObject(json, Concat(fragments[..n]))
        && (forall m :: 1 <= m < n ==> !IsObject(json, Concat(fragments[..m])))
        && TaskOutput(json, fragments) == Some(FlushOut(json, Concat(fragments[..n])));
    }
  }

  /**
   * So what such a call holds in the end is {} if its fragments never form an
   * object, and else the object that they form first, with run_in_background
   * set to false and nothing else changed.
   */
  lemma TaskDelta(calls: seq<ToolCallDelta>, t: int, json: Json) returns (n: nat, patched: map<string, JsonValue>)
    requires TaskAlways(calls, t, true) && FragmentsOf(calls, t) != []
    ensures var (fragments, deltas) := (FragmentsOf(calls, t), FinalDeltas(ArgumentsOf(calls, t, json)));
            if n == 0 then deltas == ["{}"] && forall m :: 1 <= m <= |fragments| ==> !IsObject(json, Concat(fragments[..m]))
            else
              && FormsFirst(json, fragments, n) && deltas == [json.dumps(Object(patched))]
              && IsPatched(json.loads(Concat(fragments[..n])), patched)
  {
    var fragments := FragmentsOf(calls, t);
    AlwaysTask(calls, t, json);
    n := FirstObject(json, fragments);
    patched := map[];
    hide ArgumentsOf, TaskOutput, FragmentsOf, TaskAlways, Concat, IsObject, IsPatched, FlushOut, FinalDeltas;
    if n != 0 {
      patched := PatchedDelta(json, Concat(fragments[..n]));
    }
  }

  lemma {:induction false} FragmentsNonEmpty(calls: seq<ToolCallDelta>, t: int)
    ensures forall i :: 0 <= i < |FragmentsOf(calls, t)| ==> FragmentsOf(calls, t)[i] != ""
  {
    if calls != [] { FragmentsNonEmpty(calls[..|calls| - 1], t); }
  }

  lemma TaskOutputStep(json: Json, earlier: seq<string>, args: string)
    ensures Concat(earlier + [args]) == Concat(earlier) + args
    ensures var buffer := Concat(earlier) + args;
            TaskOutput(json, earlier + [args]) ==
              if TaskOutput(json, earlier).Some? then TaskOutput(json, earlier)
              else if IsObject(json, buffer) then Some(FlushOut(json, buffer)) else None
  {
    ConcatAppend(earlier, args);
    hide IsObject, FlushOut, Concat;
    var now := earlier + [args];
    assert now[..|now| - 1] == earlier;
  }

  /** After the flush a Task call that had any arguments holds exactly one delta. */
  function TaskFinal(json: Json, fragments: seq<string>): seq<string> {
    if fragments == [] then []
    else if TaskOutput(json, fragments).Some? then [TaskOutput(json, fragments).value]
    else ["{}"]
  }

  // ----- The state of the builder follows the deltas -----

  ghost predicate Tracked(state: ToolCallState, calls: seq<ToolCallDelta>, t: int, json: Json) {
    && NameOf(calls, t) == Some(state.name)
    && (FragmentsOf(calls, t) != [] ==> state.started) && (state.started || state.name == "")
    && ArgumentsIn(state) == ArgumentsOf(calls, t, json)
    && Begun(state, StartOf(calls, t))
  }

  /** The block has been started if it should have been, under that name, and that id if there was one. */
  ghost predicate Begun(state: ToolCallState, start: Option<Start>) {
    && (state.started <==> start.Some?)
    && (start.Some? ==> state.blockName == start.value.name && (start.value.id != "" ==> state.toolId == start.value.id))
  }

  /** The builder's tool states are what the deltas handled so far make of them. */
  ghost predicate Tracks(tools: map<int, ToolCallState>, calls: seq<ToolCallDelta>, json: Json) {
    && tools.Keys == Keys(calls)
    && (forall t :: t in tools ==> Tracked(tools[t], calls, t, json))
    && (forall t :: t !in tools ==> Unheard(calls, t, json))
  }

  /** No delta has created the call. */
  ghost predicate Unheard(calls: seq<ToolCallDelta>, t: int, json: Json) {
    && NameOf(calls, t) == None && FragmentsOf(calls, t) == [] && ArgumentsOf(calls, t, json) == NO_ARGUMENTS
    && StartOf(calls, t) == None
  }

  const NO_CALL := ToolCallState(-1, "", "", [], false, "", false, "")

  /** What one delta does to the state of its call. */
  ghost predicate CallStep(before: Option<ToolCallState>, after: ToolCallState, tc: ToolCallDelta, json: Json)
    requires tc.ToolCallDelta?
  {
    var b := if before.Some? then before.value else NO_CALL;
    && Some(after.name) == NameStep(if before.Some? then Some(b.name) else None, tc)
    && after.started == (b.started || after.name != "" || tc.id != "" || tc.arguments != "")
    && ArgumentsIn(after) == ArgumentsStep(ArgumentsIn(b), after.name == "Task", tc.arguments, json)
    && (if b.started then after.toolId == b.toolId && after.blockName == b.blockName
        else after.started ==> Begun(after, Some(StartIn(after.name, tc))))
  }

  lemma LastCall(calls: seq<ToolCallDelta>, tc: ToolCallDelta)
    ensures (calls + [tc])[..|calls + [tc]| - 1] == calls && (calls + [tc])[|calls + [tc]| - 1] == tc
  {
  }

  /** One delta keeps the tracking, at its own call and at all others. */
  lemma TracksStep(tools: map<int, ToolCallState>, tools': map<int, ToolCallState>,
                   calls: seq<ToolCallDelta>, tc: ToolCallDelta, json: Json)
    requires Tracks(tools, calls, json) && tc.ToolCallDelta?
    requires var t := Target(calls, tc);
             if tc.name.None? && tc.id == "" && tc.arguments == "" then tools' == tools
             else
               && t in tools' && tools' == tools[t := tools'[t]]
               && CallStep(if t in tools then Some(tools[t]) else None, tools'[t], tc, json)
    ensures Tracks(tools', calls + [tc], json)
  {
    hide NameOf, FragmentsOf, Keys, CallStep, Tracked, NameStep, Unheard;
    var more, t0 := calls + [tc], Target(calls, tc);
    KeysStep(calls, tc);
    if !(tc.name.None? && tc.id == "" && tc.arguments == "") {
      TrackedStep(if t0 in tools then Some(tools[t0]) else None, tools'[t0], calls, tc, t0, json);
    }
    forall t | t in tools && (t != t0 || (tc.name.None? && tc.id == "" && tc.arguments == ""))
      ensures Tracked(tools[t], more, t, json)
    {
      CallUntouched(calls, tc, t, tools[t], json);
    }
    forall t | t !in tools'
      ensures Unheard(more, t, json)
    {
      CallUntouched(calls, tc, t, NO_CALL, json);
    }
  }

  lemma KeysStep(calls: seq<ToolCallDelta>, tc: ToolCallDelta)
    requires tc.ToolCallDelta?
    ensures Keys(calls + [tc]) == Keys(calls) +
              if tc.name.None? && tc.id == "" && tc.arguments == "" then {} else {Target(calls, tc)}
  {
  }

  /** A delta for another call, or one that says nothing. */
  lemma CallUntouched(calls: seq<ToolCallDelta>, tc: ToolCallDelta, t: int, state: ToolCallState, json: Json)
    requires !Hits(calls, tc, t) || (tc.name.None? && tc.id == "" && tc.arguments == "")
    ensures Tracked(state, calls, t, json) ==> Tracked(state, calls + [tc], t, json)
    ensures Unheard(calls, t, json) ==> Unheard(calls + [tc], t, json)
  {
    LastCall(calls, tc);
    var more := calls + [tc];
    assert FragmentsOf(more, t) == FragmentsOf(calls, t);
    assert ArgumentsOf(more, t, json) == ArgumentsOf(calls, t, json);
    assert !Hits(calls, tc, t) ==> NameOf(more, t) == NameOf(calls, t);
    assert !Hits(calls, tc, t) ==> StartOf(more, t) == StartOf(calls, t);
    assert Hits(calls, tc, t) ==>
             StartOf(more, t) ==
               if StartOf(calls, t).Some? || NameOf(more, t).None? || NameOf(more, t).value == "" then StartOf(calls, t)
               else Some(StartIn(NameOf(more, t).value, tc));
    hide ArgumentsOf, FragmentsOf, StartOf;
  }

  lemma TrackedStep(before: Option<ToolCallState>, after: ToolCallState,
                    calls: seq<ToolCallDelta>, tc: ToolCallDelta, t: int, json: Json)
    requires tc.ToolCallDelta? && Target(calls, tc) == t
    requires if before.Some? then Tracked(before.value, calls, t, json) else Unheard(calls, t, json)
    requires CallStep(before, after, tc, json)
    ensures Tracked(after, calls + [tc], t, json)
  {
    var more := calls + [tc];
    LastCall(calls, tc);
    assert FragmentsOf(more, t) == if tc.arguments != "" then FragmentsOf(calls, t) + [tc.arguments] else FragmentsOf(calls, t);
    assert NameOf(more, t) == Some(after.name);
    assert ArgumentsOf(more, t, json) == ArgumentsStep(ArgumentsOf(calls, t, json), after.name == "Task", tc.arguments, json);
    assert StartOf(more, t) ==
      if StartOf(calls, t).Some? then StartOf(calls, t)
      else if after.name != "" || tc.id != "" || tc.arguments != "" then Some(StartIn(after.name, tc)) else None;
    hide NameOf, FragmentsOf, ArgumentsOf, ArgumentsStep, NameStep, StartOf;
  }
}
