/** The compositor globals and the per-surface data (src/compositor.rs): which
    outputs a surface is shown on, the largest scale factor among them, and the
    bookkeeping of the `wl_compositor` and `wl_subcompositor` globals. */
module Compositor {
  import opened Util

  /** Identity of a `wl_output` proxy. */
  type OutputId = nat

  /** Identity of a `wl_surface` proxy. */
  type SurfaceId = nat

  /** The two events a `wl_surface` sends to its data. */
  datatype SurfaceEvent = Enter(output: OutputId) | Leave(output: OutputId)

  /** The largest scale factor among `outputs`, folded left to right as
      `filter_map(..).reduce(i32::max)` does; outputs missing from `scales`
      (no output data yet) are skipped, and `None` means no output had one. */
  function LargestFactor(outputs: seq<OutputId>, scales: map<OutputId, int>): (r: Option<int>)
    ensures r.None? <==> forall i :: 0 <= i < |outputs| ==> outputs[i] !in scales
    ensures r.Some? ==> forall i :: 0 <= i < |outputs| && outputs[i] in scales ==> scales[outputs[i]] <= r.value
    ensures r.Some? ==> exists i :: 0 <= i < |outputs| && outputs[i] in scales && scales[outputs[i]] == r.value
  {
    if outputs == [] then None
    else
      var front := outputs[..|outputs| - 1];
      var last := outputs[|outputs| - 1];
      var acc := LargestFactor(front, scales);
      assert forall i :: 0 <= i < |front| ==> front[i] == outputs[i];
      if last !in scales then acc
      else if acc.None? || acc.value < scales[last] then Some(scales[last])
      else acc
  }

  /** The outputs list after one surface event: `Enter` pushes, `Leave` retains
      every other output. */
  function NextOutputs(outputs: seq<OutputId>, event: SurfaceEvent): (r: seq<OutputId>)
    ensures event.Enter? ==> |r| == |outputs| + 1 && r[..|outputs|] == outputs && r[|outputs|] == event.output
    ensures event.Leave? ==> event.output !in r
    ensures event.Leave? ==> forall o :: o != event.output ==> (o in r <==> o in outputs)
  {
    match event
    case Enter(o) => outputs + [o]
    case Leave(o) => RemoveAll(outputs, o)
  }

  /** `SurfaceData`: the largest scale factor and the outputs the surface is on. */
  class SurfaceData {
    var scaleFactor: int
    var outputs: seq<OutputId>
    var hasRole: bool

    /** The data `create_surface` attaches: factor 1, no outputs, no role. */
    constructor ()
      ensures scaleFactor == 1 && outputs == [] && !hasRole
    {
      scaleFactor := 1;
      outputs := [];
      hasRole := false;
    }

    /** The `wl_surface` event handler: updates the outputs, then stores the
        largest known scale factor if there is one. The result is the factor
        passed to `scale_factor_changed`, which is called only when the stored
        factor changed. `scales` holds the scale of each output that has
        output data. */
    method HandleEvent(event: SurfaceEvent, scales: map<OutputId, int>) returns (notified: Option<int>)
      modifies this
      ensures outputs == NextOutputs(old(outputs), event)
      ensures LargestFactor(outputs, scales).None? ==> scaleFactor == old(scaleFactor)
      ensures LargestFactor(outputs, scales).Some? ==> scaleFactor == LargestFactor(outputs, scales).value
      ensures notified.Some? <==> scaleFactor != old(scaleFactor)
      ensures notified.Some? ==> notified.value == scaleFactor
      ensures hasRole == old(hasRole)
    {
      outputs := NextOutputs(outputs, event);
      var current := scaleFactor;
      var largest := LargestFactor(outputs, scales);
      notified := None;
      if largest.Some? {
        scaleFactor := largest.value;
        if current != largest.value {
          notified := Some(largest.value);
        }
      }
    }
  }

  datatype SurfaceError = MissingCompositorGlobal

  datatype SubsurfaceError = MissingSubcompositorGlobal

  /** A created sub-surface: the `wl_subsurface` role object and the two surfaces it joins. */
  datatype Subsurface = Subsurface(subcompositor: Bound, parent: SurfaceId, surface: SurfaceId)

  /** The globals the registry advertises that this state cares about. */
  datatype Interface = WlCompositor | WlSubcompositor | OtherInterface

  /** `CompositorState`: the bound compositor and subcompositor, with the names
      of the globals they were bound from. */
  class CompositorState {
    var compositor: Option<Bound>
    var subcompositor: Option<Bound>

    constructor ()
      ensures compositor == None && subcompositor == None
    {
      compositor := None;
      subcompositor := None;
    }

    /** `create_surface`: fails when no compositor is bound; otherwise the new
        surface's data starts with factor 1, no outputs and no role. */
    method CreateSurface() returns (r: Result<SurfaceData, SurfaceError>)
      ensures r.Err? <==> compositor.None?
      ensures r.Err? ==> r.error == MissingCompositorGlobal
      ensures r.Ok? ==> fresh(r.value)
      ensures r.Ok? ==> r.value.scaleFactor == 1 && r.value.outputs == [] && !r.value.hasRole
    {
      if compositor.None? {
        return Err(MissingCompositorGlobal);
      }
      var data := new SurfaceData();
      r := Ok(data);
    }

    /** `create_subsurface`: fails when no subcompositor is bound. */
    function CreateSubsurface(parent: SurfaceId, surface: SurfaceId): (r: Result<Subsurface, SubsurfaceError>)
      reads this
      ensures r.Err? <==> subcompositor.None?
      ensures r.Err? ==> r.error == MissingSubcompositorGlobal
      ensures r.Ok? ==> r.value.parent == parent && r.value.surface == surface
      ensures r.Ok? ==> Some(r.value.subcompositor) == subcompositor
    {
      match subcompositor
      case None => Err(MissingSubcompositorGlobal)
      case Some(sub) => Ok(Subsurface(sub, parent, surface))
    }

    /** `RegistryHandler::new_global`: a compositor is bound at
        `min(version, 4)`, a subcompositor always at version 1; other
        interfaces are ignored. A newer global of the same interface replaces
        the one held. */
    method NewGlobal(name: nat, interface: Interface, version: nat)
      modifies this
      ensures interface == WlCompositor ==>
        compositor == Some(Bound(name, Min(version, 4))) && subcompositor == old(subcompositor)
      ensures interface == WlSubcompositor ==>
        subcompositor == Some(Bound(name, 1)) && compositor == old(compositor)
      ensures interface == OtherInterface ==>
        compositor == old(compositor) && subcompositor == old(subcompositor)
    {
      match interface
      case WlCompositor => compositor := Some(Bound(name, Min(version, 4)));
      case WlSubcompositor => subcompositor := Some(Bound(name, 1));
      case OtherInterface =>
    }

    /** `RegistryHandler::remove_global`: the compositor is dropped only when it
        was bound from the removed global; the subcompositor is never dropped. */
    method RemoveGlobal(name: nat)
      modifies this
      ensures old(compositor).Some? && old(compositor).value.name == name ==> compositor == None
      ensures !(old(compositor).Some? && old(compositor).value.name == name) ==> compositor == old(compositor)
      ensures subcompositor == old(subcompositor)
    {
      if compositor.Some? && compositor.value.name == name {
        compositor := None;
      }
    }
  }
}
