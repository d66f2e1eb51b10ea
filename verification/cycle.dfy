/** The `data` handler that `listen` installs in `index.js`: one cycle per
    input report. It finds the byte positions that changed since the previous
    report (stopping if none did), decodes them into a copy of the previous
    state with the `index.js` decoders, compares the result field by field
    with the previous state, emits one `<group>-<key>` event per changed
    field, then `changes` (only if something changed) and always `all`, and
    finally keeps the report and the state as the previous pair. */
module Listen {
  import opened Numeric
  import opened ControlState
  import opened DataMap
  import opened LegacyDecoder

  // ---------------------------------------------------------------- raw diff

  /** The positions, ascending, where `data` differs from `prev` (`!==`). A
      position that `prev` does not have (the first report, compared with an
      array of `undefined`) always differs. */
  function Changed(data: seq<byte>, prev: seq<byte>): seq<int>
    decreases |data|
  {
    if data == [] then []
    else
      var n := |data| - 1;
      Changed(data[..n], prev) + (if n >= |prev| || data[n] != prev[n] then [n] else [])
  }

  predicate DiffersAt(data: seq<byte>, prev: seq<byte>, i: int)
    requires 0 <= i < |data|
  {
    i >= |prev| || data[i] != prev[i]
  }

  /** A position is listed exactly when it is in the report and its byte changed. */
  lemma {:induction false} ChangedExact(data: seq<byte>, prev: seq<byte>, i: int)
    ensures i in Changed(data, prev) <==> 0 <= i < |data| && DiffersAt(data, prev, i)
    decreases |data|
  {
    if data != [] {
      var n := |data| - 1;
      ChangedExact(data[..n], prev, i);
      if 0 <= i < n {
        assert data[..n][i] == data[i];
      }
    }
  }

  /** The list is strictly increasing (it is built in index order), so no
      position is decoded twice. */
  lemma {:induction false} ChangedIncreasing(data: seq<byte>, prev: seq<byte>)
    ensures forall j, k :: 0 <= j < k < |Changed(data, prev)| ==>
              Changed(data, prev)[j] < Changed(data, prev)[k]
    decreases |data|
  {
    if data != [] {
      var n := |data| - 1;
      ChangedIncreasing(data[..n], prev);
      var front := Changed(data[..n], prev);
      forall j | 0 <= j < |front|
        ensures front[j] < n
      {
        ChangedExact(data[..n], prev, front[j]);
      }
    }
  }

  /** Nothing is listed exactly when the report equals the previous one of the
      same length. */
  lemma ChangedEmptyIff(data: seq<byte>, prev: seq<byte>)
    requires |data| == |prev|
    ensures Changed(data, prev) == [] <==> data == prev
  {
    if Changed(data, prev) == [] {
      forall i | 0 <= i < |data|
        ensures data[i] == prev[i]
      {
        ChangedExact(data, prev, i);
      }
    } else {
      var i := Changed(data, prev)[0];
      ChangedExact(data, prev, i);
    }
  }

  /** The loop that pushes every `i` with `data[i] !== dataPrev[i]`. */
  method DiffPositions(data: seq<byte>, prev: seq<byte>) returns (positions: seq<int>)
    ensures positions == Changed(data, prev)
  {
    positions := [];
    var i := 0;
    while i < |data|
      invariant 0 <= i <= |data|
      invariant positions == Changed(data[..i], prev)
    {
      assert data[..i + 1][..i] == data[..i];
      if i >= |prev| || data[i] != prev[i] {
        positions := positions + [i];
      }
      i := i + 1;
    }
    assert data[..i] == data;
  }

  // ----------------------------------------------------------- semantic diff

  /** The `memoryDiff` object, flattened: each changed field with its new value,
      in the order the handler visits the fields. */
  type FieldDiff = seq<(Field, real)>

  function DiffOver(fields: seq<Field>, prev: State, next: State): FieldDiff
    decreases |fields|
  {
    if fields == [] then []
    else
      var n := |fields| - 1;
      var f := fields[n];
      DiffOver(fields[..n], prev, next) + (if Get(next, f) != Get(prev, f) then [(f, Get(next, f))] else [])
  }

  /** The diff of two states over every field. */
  function Diff(prev: State, next: State): FieldDiff {
    DiffOver(AllFields, prev, next)
  }

  lemma {:induction false} DiffOverExact(fields: seq<Field>, prev: State, next: State, f: Field, v: real)
    ensures (f, v) in DiffOver(fields, prev, next) <==>
              f in fields && Get(next, f) != Get(prev, f) && v == Get(next, f)
    decreases |fields|
  {
    if fields != [] {
      var n := |fields| - 1;
      DiffOverExact(fields[..n], prev, next, f, v);
      assert fields == fields[..n] + [fields[n]];
    }
  }

  /** An entry `(f, v)` is in the diff exactly when field `f` changed and `v`
      is its new value. */
  lemma DiffExact(prev: State, next: State, f: Field, v: real)
    ensures (f, v) in Diff(prev, next) <==> Get(next, f) != Get(prev, f) && v == Get(next, f)
  {
    DiffOverExact(AllFields, prev, next, f, v);
    AllFieldsComplete(f);
  }

  /** The diff is empty exactly when nothing changed. */
  lemma DiffEmptyIff(prev: State, next: State)
    ensures Diff(prev, next) == [] <==> prev == next
  {
    if Diff(prev, next) == [] {
      forall f
        ensures Get(prev, f) == Get(next, f)
      {
        DiffExact(prev, next, f, Get(next, f));
      }
      StatesEqualByFields(prev, next);
    } else {
      var e := Diff(prev, next)[0];
      DiffExact(prev, next, e.0, e.1);
    }
  }

  // ------------------------------------------------------------------ events

  /** What the emitter is handed, in order. */
  datatype Event =
    | FieldChanged(name: string, value: real)
    | Changes(diff: FieldDiff)
    | All(state: State)

  /** One `<group>-<key>` event per diff entry, carrying the new value. */
  function FieldEvents(diff: FieldDiff): (events: seq<Event>)
    ensures |events| == |diff|
    ensures forall i :: 0 <= i < |diff| ==> events[i] == FieldChanged(EventName(diff[i].0), diff[i].1)
  {
    if diff == [] then []
    else FieldEvents(diff[..|diff| - 1]) + [FieldChanged(EventName(diff[|diff| - 1].0), diff[|diff| - 1].1)]
  }

  /** Everything one decoded report emits: the field events, `changes` when
      the diff is non-empty, and `all` with the whole new state. */
  function CycleEvents(prev: State, next: State): seq<Event> {
    var diff := Diff(prev, next);
    FieldEvents(diff) + (if diff != [] then [Changes(diff)] else []) + [All(next)]
  }

  /** The emitted sequence ends with `all`, carries `changes` exactly when the
      state changed, and has one field event per changed field. */
  lemma CycleEventsShape(prev: State, next: State)
    ensures var events := CycleEvents(prev, next);
            && events[|events| - 1] == All(next)
            && (Changes(Diff(prev, next)) in events <==> prev != next)
            && |events| == |Diff(prev, next)| + (if prev == next then 1 else 2)
  {
    var diff := Diff(prev, next);
    var events := CycleEvents(prev, next);
    DiffEmptyIff(prev, next);
  }

  /** A listener on field `f`'s event name hears the new value exactly when
      `f` changed. */
  lemma FieldEventExact(prev: State, next: State, f: Field)
    ensures FieldChanged(EventName(f), Get(next, f)) in CycleEvents(prev, next) <==> Get(next, f) != Get(prev, f)
  {
    var diff := Diff(prev, next);
    var fe := FieldEvents(diff);
    var e := FieldChanged(EventName(f), Get(next, f));
    if e in CycleEvents(prev, next) {
      assert e in fe;
      var i :| 0 <= i < |fe| && fe[i] == e;
      var g := diff[i].0;
      assert EventName(g) == EventName(f);
      if g != f {
        EventNamesDistinct(g, f);
      }
      assert diff[i] in diff;
      DiffExact(prev, next, g, diff[i].1);
    } else {
      DiffExact(prev, next, f, Get(next, f));
    }
  }

  /** No field has two entries in `d`. */
  predicate DistinctKeys(d: FieldDiff) {
    forall i, j :: 0 <= i < j < |d| ==> d[i].0 != d[j].0
  }

  /** Over a list of distinct fields, no field appears twice in the diff. */
  lemma {:induction false} DiffOverDistinct(fields: seq<Field>, prev: State, next: State)
    requires forall i, j :: 0 <= i < j < |fields| ==> fields[i] != fields[j]
    ensures DistinctKeys(DiffOver(fields, prev, next))
    decreases |fields|
  {
    if fields != [] {
      var n := |fields| - 1;
      var front := fields[..n];
      assert forall i :: 0 <= i < n ==> front[i] == fields[i];
      DiffOverDistinct(front, prev, next);
      var d0 := DiffOver(front, prev, next);
      var d := DiffOver(fields, prev, next);
      var f := fields[n];
      assert d == d0 + (if Get(next, f) != Get(prev, f) then [(f, Get(next, f))] else []);
      assert DistinctKeys(d0);
      forall i, j | 0 <= i < j < |d|
        ensures d[i].0 != d[j].0
      {
        if j < |d0| {
          assert d[i] == d0[i] && d[j] == d0[j];
        } else {
          assert d[i] == d0[i] && d0[i] in d0;
          assert d[j].0 == fields[n];
          DiffOverExact(front, prev, next, d0[i].0, d0[i].1);
          var k :| 0 <= k < n && front[k] == d0[i].0;
          assert fields[k] != fields[n];
        }
      }
    }
  }

  /** No two field events of one report share a name, so a listener on one
      `<group>-<key>` name hears it at most once per report. */
  lemma FieldEventsOncePerName(prev: State, next: State)
    ensures var events := CycleEvents(prev, next);
            forall i, j :: 0 <= i < j < |events| && events[i].FieldChanged? && events[j].FieldChanged?
              ==> events[i].name != events[j].name
  {
    var diff := Diff(prev, next);
    var fe := FieldEvents(diff);
    var events := CycleEvents(prev, next);
    AllFieldsDistinct();
    DiffOverDistinct(AllFields, prev, next);
    assert DistinctKeys(diff);
    forall i, j | 0 <= i < j < |events| && events[i].FieldChanged? && events[j].FieldChanged?
      ensures events[i].name != events[j].name
    {
      assert j < |fe|;
      assert events[i] == fe[i] && events[j] == fe[j];
      assert diff[i].0 != diff[j].0;
      EventNamesDistinct(diff[i].0, diff[j].0);
    }
  }

  /** The nested loop over groups and keys that compares with `!=`, emitting
      as it goes and collecting `memoryDiff`. */
  method SemanticDiff(prev: State, next: State) returns (diff: FieldDiff, emitted: seq<Event>)
    ensures diff == Diff(prev, next)
    ensures emitted == FieldEvents(diff)
  {
    diff := [];
    emitted := [];
    var i := 0;
    while i < |AllFields|
      invariant 0 <= i <= |AllFields|
      invariant diff == DiffOver(AllFields[..i], prev, next)
      invariant emitted == FieldEvents(diff)
    {
      var f := AllFields[i];
      assert AllFields[..i + 1][..i] == AllFields[..i];
      if Get(next, f) != Get(prev, f) {
        emitted := emitted + [FieldChanged(EventName(f), Get(next, f))];
        diff := diff + [(f, Get(next, f))];
      }
      i := i + 1;
    }
    assert AllFields[..i] == AllFields;
  }

  // ------------------------------------------------------------------ session

  /** The `for (var i in dataDiffPositions)` loop with its `switch`, run on a
      copy of the previous state. */
  method Decode(positions: seq<int>, data: Report, prev: State) returns (memory: State)
    ensures memory == LegacyApplyPositions(positions, data, prev)
  {
    memory := prev;
    var i := 0;
    while i < |positions|
      invariant 0 <= i <= |positions|
      invariant memory == LegacyApplyPositions(positions[..i], data, prev)
    {
      assert positions[..i + 1][..i] == positions[..i];
      memory := LegacyApplyPosition(positions[i], data, memory);
      i := i + 1;
    }
    assert positions[..i] == positions;
  }

  /** The globals the handler reads and reassigns, and the emitter's log. */
  class Session {
    var dataPrev: seq<byte>
    var memoryPrev: State
    var events: seq<Event>

    /** `dataPrev = Array(11)` (every entry `undefined`, modelled as no bytes)
        and the initial `memoryPrev`. */
    constructor ()
      ensures dataPrev == [] && memoryPrev == Initial && events == []
      ensures Valid()
    {
      dataPrev := [];
      memoryPrev := Initial;
      events := [];
    }

    predicate Valid()
      reads this
    {
      WellFormed(memoryPrev) && (|dataPrev| == 0 || |dataPrev| == ReportLength)
    }

    /** One report. With no changed byte it returns without a trace; otherwise
        it decodes the changed positions in ascending order, emits the events
        of the diff and makes `data` and the new state the previous pair. The
        previous state stays within its documented ranges. */
    method OnData(data: Report)
      requires Valid()
      modifies this
      ensures Valid()
      ensures var positions := Changed(data, old(dataPrev));
              if positions == [] then
                dataPrev == old(dataPrev) && memoryPrev == old(memoryPrev) && events == old(events)
              else
                && memoryPrev == LegacyApplyPositions(positions, data, old(memoryPrev))
                && dataPrev == data
                && events == old(events) + CycleEvents(old(memoryPrev), memoryPrev)
    {
      var positions := DiffPositions(data, dataPrev);
      if |positions| == 0 {
        return;
      }
      var memory := Decode(positions, data, memoryPrev);
      LegacyApplyPositionsWellFormed(positions, data, memoryPrev);
      var diff, emitted := SemanticDiff(memoryPrev, memory);
      var changes := if |diff| > 0 then [Changes(diff)] else [];
      events := events + (emitted + changes + [All(memory)]);
      memoryPrev := memory;
      dataPrev := data;
    }
  }

  /** A report equal to the previous one is ignored entirely. */
  lemma RepeatedReportIgnored(data: Report)
    ensures Changed(data, data) == []
  {
    ChangedEmptyIff(data, data);
  }

  /** Against no previous report (the first one) every position has changed,
      so every decoder runs. */
  lemma {:induction false} FirstReportDecodesAll(data: seq<byte>)
    ensures Changed(data, []) == seq(|data|, i => i)
    decreases |data|
  {
    if data != [] {
      var n := |data| - 1;
      FirstReportDecodesAll(data[..n]);
      assert seq(n, i => i) + [n] == seq(n + 1, i => i);
    }
  }
}
