/** The registry arm of the `sctk!` macro (src/lib.rs): when the compositor
    advertises a global, every field that requests that interface states a
    version range; the ranges are intersected, the intersection is checked, and
    the global is bound at the highest version every requester accepts. When a
    global is removed, every requesting field is told. */
module Registry {
  import opened Util

  /** `Range<u32>`: the versions `v` with `start <= v < end`. */
  datatype VersionRange = VersionRange(start: nat, end: nat)

  predicate Contains(r: VersionRange, v: nat)
  {
    r.start <= v < r.end
  }

  /** The largest requested start: an independent, right-to-left definition. */
  function MaxStart(ranges: seq<VersionRange>): (m: nat)
    requires ranges != []
    ensures forall i :: 0 <= i < |ranges| ==> ranges[i].start <= m
    ensures exists i :: 0 <= i < |ranges| && ranges[i].start == m
  {
    if |ranges| == 1 then ranges[0].start
    else
      var rest := MaxStart(ranges[1..]);
      assert forall i :: 1 <= i < |ranges| ==> ranges[i] == ranges[1..][i - 1];
      Max(ranges[0].start, rest)
  }

  /** The smallest requested end. */
  function MinEnd(ranges: seq<VersionRange>): (m: nat)
    requires ranges != []
    ensures forall i :: 0 <= i < |ranges| ==> m <= ranges[i].end
    ensures exists i :: 0 <= i < |ranges| && ranges[i].end == m
  {
    if |ranges| == 1 then ranges[0].end
    else
      var rest := MinEnd(ranges[1..]);
      assert forall i :: 1 <= i < |ranges| ==> ranges[i] == ranges[1..][i - 1];
      Min(ranges[0].end, rest)
  }

  /** One step of the `reduce`: the larger start and the smaller end. */
  function Meet(a: VersionRange, b: VersionRange): VersionRange
  {
    VersionRange(Max(a.start, b.start), Min(a.end, b.end))
  }

  /** `Iterator::reduce` continued from the accumulator `acc`, left to right. */
  function FoldMeet(acc: VersionRange, rest: seq<VersionRange>): VersionRange
    decreases |rest|
  {
    if rest == [] then acc else FoldMeet(Meet(acc, rest[0]), rest[1..])
  }

  /** `ranges.iter().cloned().reduce(..)`: `None` for no ranges. */
  function Reduce(ranges: seq<VersionRange>): (r: Option<VersionRange>)
    ensures r.None? <==> ranges == []
  {
    if ranges == [] then None else Some(FoldMeet(ranges[0], ranges[1..]))
  }

  /** Folding from `acc` meets `acc` with the bounds of every remaining range. */
  lemma {:induction false} FoldMeetBounds(acc: VersionRange, rest: seq<VersionRange>)
    requires rest != []
    ensures FoldMeet(acc, rest).start == Max(acc.start, MaxStart(rest))
    ensures FoldMeet(acc, rest).end == Min(acc.end, MinEnd(rest))
    decreases |rest|
  {
    if |rest| > 1 {
      FoldMeetBounds(Meet(acc, rest[0]), rest[1..]);
    }
  }

  /** The reduced range starts at the largest start and ends at the smallest end. */
  lemma ReduceIsIntersection(ranges: seq<VersionRange>)
    ensures Reduce(ranges).None? <==> ranges == []
    ensures ranges != [] ==>
      Reduce(ranges) == Some(VersionRange(MaxStart(ranges), MinEnd(ranges)))
  {
    if |ranges| > 1 {
      FoldMeetBounds(ranges[0], ranges[1..]);
    }
  }

  datatype NegotiationError = NeverIntersects

  /** The intersected range, rejected as in src/lib.rs: an empty list of
      requesters or a start beyond the end aborts; `start == end` does not. */
  function AcceptableRange(ranges: seq<VersionRange>): (r: Result<VersionRange, NegotiationError>)
    ensures r.Err? <==> ranges == [] || MaxStart(ranges) > MinEnd(ranges)
    ensures r.Ok? ==> r.value == VersionRange(MaxStart(ranges), MinEnd(ranges))
    ensures r.Ok? ==> forall i :: 0 <= i < |ranges| ==>
      ranges[i].start <= r.value.start && r.value.end <= ranges[i].end
  {
    ReduceIsIntersection(ranges);
    match Reduce(ranges)
    case None => Err(NeverIntersects)
    case Some(range) => if range.start > range.end then Err(NeverIntersects) else Ok(range)
  }

  /** The version `sctk!` binds, as written: `None` when the advertised version
      is below the acceptable start, otherwise `min(version, end - 1)`. */
  function Negotiate(ranges: seq<VersionRange>, version: nat): (r: Result<Option<nat>, NegotiationError>)
    requires forall i :: 0 <= i < |ranges| ==> ranges[i].end >= 1
    ensures r.Err? <==> ranges == [] || MaxStart(ranges) > MinEnd(ranges)
    ensures r.Ok? ==> (r.value.Some? <==> MaxStart(ranges) <= version)
    ensures r.Ok? && r.value.Some? ==> r.value.value <= version
    ensures r.Ok? && r.value.Some? && MaxStart(ranges) < MinEnd(ranges) ==>
      forall i :: 0 <= i < |ranges| ==> Contains(ranges[i], r.value.value)
    // the highest version both sides accept: the advertised one, capped below the end
    ensures r.Ok? && r.value.Some? ==>
      r.value.value as int == if version < MinEnd(ranges) then version else MinEnd(ranges) - 1
  {
    match AcceptableRange(ranges)
    case Err(e) => Err(e)
    case Ok(range) =>
      assert range.end >= 1 by {
        var i :| 0 <= i < |ranges| && ranges[i].end == MinEnd(ranges);
      }
      if range.start <= version then Ok(Some(Min(version, range.end - 1))) else Ok(None)
  }

  /** Two requesters whose ranges only touch, `1..3` and `3..5`, are accepted,
      and a compositor advertising version 5 is bound at version 2, which the
      second requester never asked for. */
  lemma TouchingRangesBindOutside()
    ensures Negotiate([VersionRange(1, 3), VersionRange(3, 5)], 5) == Ok(Some(2))
    ensures !Contains(VersionRange(3, 5), 2)
  {
    var ranges := [VersionRange(1, 3), VersionRange(3, 5)];
    ReduceIsIntersection(ranges);
    assert MaxStart(ranges) == 3 && MinEnd(ranges) == 3;
  }

  /** The negotiation as intended: an empty intersection (`start >= end`) is
      rejected, so every bound version lies in every requested range, as
      `RequestGlobal::version` promises. */
  function NegotiateChecked(ranges: seq<VersionRange>, version: nat): (r: Result<Option<nat>, NegotiationError>)
    ensures r.Err? <==> ranges == [] || MaxStart(ranges) >= MinEnd(ranges)
    ensures r.Ok? ==> (r.value.Some? <==> MaxStart(ranges) <= version)
    ensures r.Ok? && r.value.Some? ==> r.value.value <= version
    ensures r.Ok? && r.value.Some? ==>
      forall i :: 0 <= i < |ranges| ==> Contains(ranges[i], r.value.value)
    ensures r.Ok? && r.value.Some? ==>
      r.value.value as int == if version < MinEnd(ranges) then version else MinEnd(ranges) - 1
  {
    match AcceptableRange(ranges)
    case Err(e) => Err(e)
    case Ok(range) =>
      if range.start >= range.end then Err(NeverIntersects)
      else if range.start <= version then Ok(Some(Min(version, range.end - 1)))
      else Ok(None)
  }

  /** What one requesting field is told. */
  datatype Notification =
    | NewGlobal(group: nat, field: nat, name: nat, version: nat)
    | RemoveGlobal(group: nat, field: nat, name: nat)

  /** One `{Interface => [fields]}` entry of the macro: the interface name and
      the version range each listed field requests. */
  datatype Provided = Provided(interface: string, fields: seq<VersionRange>)

  /** Every field of group `g` told that global `name` now exists at `version`. */
  function NewGlobalAll(g: nat, fields: nat, name: nat, version: nat): (ns: seq<Notification>)
    ensures |ns| == fields
    ensures forall i :: 0 <= i < fields ==> ns[i] == NewGlobal(g, i, name, version)
  {
    if fields == 0 then [] else NewGlobalAll(g, fields - 1, name, version) + [NewGlobal(g, fields - 1, name, version)]
  }

  /** Every field of group `g` told that global `name` is gone. */
  function RemoveGlobalAll(g: nat, fields: nat, name: nat): (ns: seq<Notification>)
    ensures |ns| == fields
    ensures forall i :: 0 <= i < fields ==> ns[i] == RemoveGlobal(g, i, name)
  {
    if fields == 0 then [] else RemoveGlobalAll(g, fields - 1, name) + [RemoveGlobal(g, fields - 1, name)]
  }

  /** Every range requested for `interface` ends at 1 or later, so that
      `end - 1` is a version. */
  predicate MatchingEndsPositive(groups: seq<Provided>, interface: string)
  {
    forall j, i :: 0 <= j < |groups| && groups[j].interface == interface && 0 <= i < |groups[j].fields| ==>
      groups[j].fields[i].end >= 1
  }

  /** `wl_registry::Event::Global { name, interface, version }`, as written,
      for the groups from index `g` on: each group whose interface matches
      negotiates and, when the advertised version is high enough, notifies
      all of its fields. A range that never intersects aborts the whole
      event (the `expect` panic). */
  function OnGlobal(groups: seq<Provided>, g: nat, name: nat, interface: string, version: nat): (r: Result<seq<Notification>, NegotiationError>)
    requires g <= |groups|
    requires MatchingEndsPositive(groups, interface)
    decreases |groups| - g
    // the event fails exactly when some matching group's ranges never intersect
    ensures r.Err? <==> (exists j :: g <= j < |groups| && groups[j].interface == interface &&
                                     AcceptableRange(groups[j].fields).Err?)
    // each notification goes to a field of a matching group, at the version that group negotiated
    ensures r.Ok? ==> forall k :: 0 <= k < |r.value| ==>
      var n := r.value[k];
      n.NewGlobal? && g <= n.group < |groups| && n.name == name &&
      groups[n.group].interface == interface && n.field < |groups[n.group].fields| &&
      Negotiate(groups[n.group].fields, version) == Ok(Some(n.version))
  {
    if g == |groups| then Ok([])
    else
      var rest := OnGlobal(groups, g + 1, name, interface, version);
      if groups[g].interface != interface then rest
      else
        match Negotiate(groups[g].fields, version)
        case Err(e) => Err(e)
        case Ok(None) => rest
        case Ok(Some(v)) =>
          if rest.Err? then rest
          else Ok(NewGlobalAll(g, |groups[g].fields|, name, v) + rest.value)
  }

  /** When no matching group's ranges fail to intersect, a matching group
      that binds at `v` notifies each of its fields with the same name and
      bound version. */
  lemma {:induction false} OnGlobalNotifiesEveryField(groups: seq<Provided>, name: nat, interface: string, version: nat, g: nat, v: nat)
    requires MatchingEndsPositive(groups, interface)
    requires forall j :: 0 <= j < |groups| && groups[j].interface == interface ==> AcceptableRange(groups[j].fields).Ok?
    requires g < |groups| && groups[g].interface == interface
    requires Negotiate(groups[g].fields, version) == Ok(Some(v))
    ensures OnGlobal(groups, 0, name, interface, version).Ok?
    ensures forall i :: 0 <= i < |groups[g].fields| ==>
      NewGlobal(g, i, name, v) in OnGlobal(groups, 0, name, interface, version).value
  {
    OnGlobalContains(groups, 0, name, interface, version, g, v);
  }

  lemma {:induction false} OnGlobalContains(groups: seq<Provided>, from: nat, name: nat, interface: string, version: nat, g: nat, v: nat)
    requires MatchingEndsPositive(groups, interface)
    requires forall j :: 0 <= j < |groups| && groups[j].interface == interface ==> AcceptableRange(groups[j].fields).Ok?
    requires from <= g < |groups| && groups[g].interface == interface
    requires Negotiate(groups[g].fields, version) == Ok(Some(v))
    decreases g - from
    ensures OnGlobal(groups, from, name, interface, version).Ok?
    ensures forall i :: 0 <= i < |groups[g].fields| ==>
      NewGlobal(g, i, name, v) in OnGlobal(groups, from, name, interface, version).value
  {
    if from < g {
      OnGlobalContains(groups, from + 1, name, interface, version, g, v);
    } else {
      var here := NewGlobalAll(g, |groups[g].fields|, name, v);
      forall i | 0 <= i < |groups[g].fields|
        ensures NewGlobal(g, i, name, v) in OnGlobal(groups, from, name, interface, version).value
      {
        assert here[i] == NewGlobal(g, i, name, v);
      }
    }
  }

  /** The handler as intended: it negotiates with the corrected check, so
      every bound version lies in every range its group requested. */
  function OnGlobalChecked(groups: seq<Provided>, g: nat, name: nat, interface: string, version: nat): (r: Result<seq<Notification>, NegotiationError>)
    requires g <= |groups|
    decreases |groups| - g
    ensures r.Err? <==> (exists j :: g <= j < |groups| && groups[j].interface == interface &&
                                     NegotiateChecked(groups[j].fields, version).Err?)
    ensures r.Ok? ==> forall k :: 0 <= k < |r.value| ==>
      var n := r.value[k];
      n.NewGlobal? && g <= n.group < |groups| && n.name == name &&
      groups[n.group].interface == interface && n.field < |groups[n.group].fields| &&
      NegotiateChecked(groups[n.group].fields, version) == Ok(Some(n.version))
    ensures r.Ok? ==> forall k, i :: 0 <= k < |r.value| && 0 <= i < |groups[r.value[k].group].fields| ==>
      Contains(groups[r.value[k].group].fields[i], r.value[k].version)
  {
    if g == |groups| then Ok([])
    else
      var rest := OnGlobalChecked(groups, g + 1, name, interface, version);
      if groups[g].interface != interface then rest
      else
        match NegotiateChecked(groups[g].fields, version)
        case Err(e) => Err(e)
        case Ok(None) => rest
        case Ok(Some(v)) =>
          if rest.Err? then rest
          else Ok(NewGlobalAll(g, |groups[g].fields|, name, v) + rest.value)
  }

  /** One interface requested by two fields with ranges `1..3` and `3..5`,
      advertised at version 5: the handler as written notifies both fields
      of a global bound at version 2, outside `3..5`. */
  lemma TouchingRangesHandlerBinds(name: nat)
    ensures OnGlobal([Provided("x", [VersionRange(1, 3), VersionRange(3, 5)])], 0, name, "x", 5)
      == Ok([NewGlobal(0, 0, name, 2), NewGlobal(0, 1, name, 2)])
  {
    var ranges := [VersionRange(1, 3), VersionRange(3, 5)];
    var groups := [Provided("x", ranges)];
    TouchingRangesBindOutside();
    assert OnGlobal(groups, 1, name, "x", 5) == Ok([]);
    assert groups[0].fields == ranges;
    assert Negotiate(groups[0].fields, 5) == Ok(Some(2));
    var all := NewGlobalAll(0, 2, name, 2);
    assert OnGlobal(groups, 0, name, "x", 5) == Ok(all + []);
    assert all + [] == [NewGlobal(0, 0, name, 2), NewGlobal(0, 1, name, 2)];
  }

  /** The intended handler rejects the same event. */
  lemma TouchingRangesHandlerRejects(name: nat)
    ensures OnGlobalChecked([Provided("x", [VersionRange(1, 3), VersionRange(3, 5)])], 0, name, "x", 5).Err?
  {
    var ranges := [VersionRange(1, 3), VersionRange(3, 5)];
    ReduceIsIntersection(ranges);
    assert MaxStart(ranges) == 3 && MinEnd(ranges) == 3;
  }

  /** The number of requesting fields over all groups. */
  function FieldCount(groups: seq<Provided>): nat
  {
    if groups == [] then 0 else FieldCount(groups[..|groups| - 1]) + |groups[|groups| - 1].fields|
  }

  /** `wl_registry::Event::GlobalRemove { name }`: every field of every group is told. */
  function OnGlobalRemove(groups: seq<Provided>, name: nat): (ns: seq<Notification>)
    ensures |ns| == FieldCount(groups)
    ensures forall k :: 0 <= k < |ns| ==>
      ns[k].RemoveGlobal? && ns[k].name == name &&
      ns[k].group < |groups| && ns[k].field < |groups[ns[k].group].fields|
    ensures forall g, i :: 0 <= g < |groups| && 0 <= i < |groups[g].fields| ==> RemoveGlobal(g, i, name) in ns
  {
    if groups == [] then []
    else
      var front := OnGlobalRemove(groups[..|groups| - 1], name);
      var last := RemoveGlobalAll(|groups| - 1, |groups[|groups| - 1].fields|, name);
      assert forall g :: 0 <= g < |groups| - 1 ==> groups[..|groups| - 1][g] == groups[g];
      assert forall i :: 0 <= i < |last| ==> last[i] == RemoveGlobal(|groups| - 1, i, name);
      front + last
  }
}
