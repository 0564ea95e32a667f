/** Putting the client's own names and ids back on parsed events
    (`FunctionNameMap::restore_in_events` in `crates/oag-proto/src/function_names.rs`). */
module Restore {
  import opened Bytes
  import opened Canonical
  import opened Hub
  import opened FunctionNames
  import opened ToolUseIds

  function Restored(names: NameMap, ids: Spellings, e: StreamEvent): StreamEvent {
    match e
    case ToolUseStart(id, name) => ToolUseStart(ids.Original(id), names.Original(name))
    case ToolUseDelta(id, fragment) => ToolUseDelta(ids.Original(id), fragment)
    case ToolUseEnd(id) => ToolUseEnd(ids.Original(id))
    case _ => e
  }

  function RestoredAll(names: NameMap, ids: Spellings, events: seq<StreamEvent>): (r: seq<StreamEvent>)
    ensures |r| == |events| && forall i :: 0 <= i < |r| ==> r[i] == Restored(names, ids, events[i])
  {
    seq(|events|, i requires 0 <= i < |events| => Restored(names, ids, events[i]))
  }

  method RestoreInEvents(names: NameMap, ids: Spellings, events: array<StreamEvent>)
    modifies events
    ensures events[..] == RestoredAll(names, ids, old(events[..]))
  {
    for i := 0 to events.Length
      invariant forall k :: 0 <= k < i ==> events[k] == Restored(names, ids, old(events[k]))
      invariant forall k :: i <= k < events.Length ==> events[k] == old(events[k])
    {
      match events[i] {
        case ToolUseStart(id, name) => events[i] := ToolUseStart(ids.Original(id), names.Original(name));
        case ToolUseDelta(id, fragment) => events[i] := ToolUseDelta(ids.Original(id), fragment);
        case ToolUseEnd(id) => events[i] := ToolUseEnd(ids.Original(id));
        case _ =>
      }
    }
  }

  // ── the meaning of a restored run ───────────────────────────────────────────

  function RestoredCall(names: NameMap, ids: Spellings, c: Call): Call {
    Call(ids.Original(c.id), names.Original(c.name), c.args)
  }

  function RestoredCalls(names: NameMap, ids: Spellings, calls: seq<Call>): (r: seq<Call>)
    ensures |r| == |calls| && forall i :: 0 <= i < |r| ==> r[i] == RestoredCall(names, ids, calls[i])
  {
    seq(|calls|, i requires 0 <= i < |calls| => RestoredCall(names, ids, calls[i]))
  }

  /** No two ids the run uses are put back as the same one. */
  ghost predicate KeepsApart(ids: Spellings, events: seq<StreamEvent>) {
    forall a, b :: a in UsedIds(events) && b in UsedIds(events) && ids.Original(a) == ids.Original(b) ==> a == b
  }

  function IdOf(e: StreamEvent): set<Text> {
    match e
    case ToolUseStart(id, _) => {id}
    case ToolUseDelta(id, _) => {id}
    case _ => {}
  }

  function UsedIds(events: seq<StreamEvent>): set<Text> {
    if events == [] then {} else UsedIds(events[..|events| - 1]) + IdOf(events[|events| - 1])
  }

  lemma {:induction false} CallIdsAreUsed(events: seq<StreamEvent>)
    ensures forall id :: id in Ids(Read(events).calls) ==> id in UsedIds(events)
  {
    if events != [] {
      var init, e := events[..|events| - 1], events[|events| - 1];
      CallIdsAreUsed(init);
      if e.ToolUseDelta? {
        AddFragmentKeepsIds(Read(init).calls, e.id, e.partialJson);
      } else if e.ToolUseStart? {
        assert Ids(Read(init).calls + [Call(e.id, e.name, [])]) == Ids(Read(init).calls) + [e.id];
      }
    }
  }

  lemma FragmentRestores(names: NameMap, ids: Spellings, calls: seq<Call>, id: Text, fragment: Text)
    requires forall i :: 0 <= i < |calls| && ids.Original(calls[i].id) == ids.Original(id) ==> calls[i].id == id
    ensures AddFragment(RestoredCalls(names, ids, calls), ids.Original(id), fragment) ==
            RestoredCalls(names, ids, AddFragment(calls, id, fragment))
  {
    var restored := RestoredCalls(names, ids, calls);
    var at := Position(Ids(calls), id);
    assert forall i :: 0 <= i < |calls| ==> Ids(restored)[i] == ids.Original(Ids(calls)[i]);
    assert Position(Ids(restored), ids.Original(id)) == at;
  }

  /** Restoring a run and then reading it is reading it and then restoring what was read, as long as
      no two of its ids are put back as one: no fragment changes hands. */
  lemma {:induction false} RestoringKeepsTheAnswer(names: NameMap, ids: Spellings, events: seq<StreamEvent>)
    requires KeepsApart(ids, events)
    ensures var a := Read(events);
            Read(RestoredAll(names, ids, events)) == a.(calls := RestoredCalls(names, ids, a.calls))
  {
    var restored := RestoredAll(names, ids, events);
    if events == [] {
      assert restored == [];
    } else {
      var init, e := events[..|events| - 1], events[|events| - 1];
      RestoringKeepsTheAnswer(names, ids, init);
      assert restored[..|restored| - 1] == RestoredAll(names, ids, init);
      CallIdsAreUsed(init);
      var calls := Read(init).calls;
      if e.ToolUseDelta? {
        forall i | 0 <= i < |calls| && ids.Original(calls[i].id) == ids.Original(e.id) ensures calls[i].id == e.id {
          assert Ids(calls)[i] in UsedIds(init);
        }
        FragmentRestores(names, ids, calls, e.id, e.partialJson);
      }
    }
  }

  /** The ids calls are opened and ended under. */
  function BoundaryIds(events: seq<StreamEvent>): set<Text> {
    if events == [] then {}
    else
      var e := events[|events| - 1];
      BoundaryIds(events[..|events| - 1]) + if e.ToolUseStart? || e.ToolUseEnd? then {e.id} else {}
  }

  ghost predicate BoundariesApart(ids: Spellings, events: seq<StreamEvent>) {
    forall a, b :: a in BoundaryIds(events) && b in BoundaryIds(events) && ids.Original(a) == ids.Original(b) ==> a == b
  }

  function RestoredIds(ids: Spellings, open: set<Text>): set<Text> { set id | id in open :: ids.Original(id) }

  lemma {:induction false} OpenAmongBoundaries(events: seq<StreamEvent>)
    ensures OpenCalls(events) <= BoundaryIds(events)
  {
    if events != [] {
      OpenAmongBoundaries(events[..|events| - 1]);
    }
  }

  lemma RestoredOpenStep(names: NameMap, ids: Spellings, open: set<Text>, e: StreamEvent)
    requires e.ToolUseEnd? ==> forall id :: id in open && ids.Original(id) == ids.Original(e.id) ==> id == e.id
    ensures OpenAfter(RestoredIds(ids, open), Restored(names, ids, e)) == RestoredIds(ids, OpenAfter(open, e))
  {
  }

  /** The calls open in a restored run are the calls open in the run, restored: an end closes the call it
      was for. */
  lemma {:induction false} RestoringKeepsOpenCalls(names: NameMap, ids: Spellings, events: seq<StreamEvent>)
    requires BoundariesApart(ids, events)
    ensures OpenCalls(RestoredAll(names, ids, events)) == RestoredIds(ids, OpenCalls(events))
  {
    var restored := RestoredAll(names, ids, events);
    if events == [] {
      assert restored == [];
    } else {
      var init, e := events[..|events| - 1], events[|events| - 1];
      RestoringKeepsOpenCalls(names, ids, init);
      assert restored[..|restored| - 1] == RestoredAll(names, ids, init);
      OpenAmongBoundaries(init);
      RestoredOpenStep(names, ids, OpenCalls(init), e);
    }
  }

  /** An upstream that answers within its own pattern never makes two ids into one: a respelled id
      is put back as one outside the pattern, and any other comes back as it is. */
  lemma LegalIdsStayApart(p: Pattern, messages: seq<Message>, events: seq<StreamEvent>)
    ensures (forall id :: id in UsedIds(events) ==> ToolUseIds.Legal(p, id)) ==> KeepsApart(Build(p, History(messages)), events)
    ensures (forall id :: id in BoundaryIds(events) ==> ToolUseIds.Legal(p, id)) ==>
              BoundariesApart(Build(p, History(messages)), events)
  {
    var ids, s := History(messages), Build(p, History(messages));
    AssignIsSound(p, ids, LegalOnes(p, ids));
    forall w | w in s.fromWire
      ensures s.fromWire[w] in s.toWire && s.toWire[s.fromWire[w]] == w && !ToolUseIds.Legal(p, s.fromWire[w])
    {
      var id :| id in s.toWire && s.toWire[id] == w;
    }
  }
}
