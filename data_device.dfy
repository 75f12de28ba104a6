/** The data-device state (src/data_device/mod.rs): the bound
    `wl_data_device_manager` and a table of the seats advertised so far, keyed
    by the name of the global each seat was bound from. */
module DataDevice {
  import opened Util

  /** The globals this state binds. */
  datatype Interface = WlDataDeviceManager | WlSeat | OtherInterface

  /** A seat-table entry: the global's name and the seat bound from it. */
  datatype SeatEntry = SeatEntry(name: nat, seat: Bound)

  /** `seats.retain(|(global_name, _)| global_name != &name)`: every entry of
      the removed global dropped, every other entry kept in order. */
  function WithoutGlobal(seats: seq<SeatEntry>, name: nat): (r: seq<SeatEntry>)
    ensures forall i :: 0 <= i < |r| ==> r[i].name != name
    ensures forall e: SeatEntry :: e.name != name ==> (e in r <==> e in seats)
    ensures (forall i :: 0 <= i < |seats| ==> seats[i].name != name) ==> r == seats
  {
    var keep := (e: SeatEntry) => e.name != name;
    var r := Retain(seats, keep);
    assert forall e: SeatEntry :: e.name != name ==> (e in r <==> e in seats) by {
      forall e: SeatEntry ensures e.name != name ==> (e in r <==> e in seats) {
        RetainMembers(seats, keep, e);
      }
    }
    assert (forall i :: 0 <= i < |seats| ==> seats[i].name != name) ==> r == seats by {
      if forall i :: 0 <= i < |seats| ==> seats[i].name != name {
        RetainAll(seats, keep);
      }
    }
    r
  }

  datatype DeviceError = NoManager

  class DataDeviceState {
    var manager: Option<Bound>
    var seats: seq<SeatEntry>

    /** `DataDeviceState::new`: no manager and an empty seat table. */
    constructor ()
      ensures manager == None && seats == []
    {
      manager := None;
      seats := [];
    }

    /** `get_data_device`: fails when no manager is bound; otherwise yields the
        manager through which the device for `seat` would be created. */
    function GetDataDevice(seat: Bound): (r: Result<Bound, DeviceError>)
      reads this
      ensures r.Err? <==> manager.None?
      ensures r.Ok? ==> Some(r.value) == manager
    {
      match manager
      case None => Err(NoManager)
      case Some(m) => Ok(m)
    }

    /** `RegistryHandler::new_global`: the manager is bound at
        `min(version, 3)` and replaces any held one; a seat is bound at
        `min(version, maxSeatVersion)` and appended to the table. */
    method NewGlobal(name: nat, interface: Interface, version: nat, maxSeatVersion: nat)
      modifies this
      ensures interface == WlDataDeviceManager ==>
        manager == Some(Bound(name, Min(version, 3))) && seats == old(seats)
      ensures interface == WlSeat ==>
        seats == old(seats) + [SeatEntry(name, Bound(name, Min(version, maxSeatVersion)))] &&
        manager == old(manager)
      ensures interface == OtherInterface ==> manager == old(manager) && seats == old(seats)
    {
      match interface
      case WlDataDeviceManager => manager := Some(Bound(name, Min(version, 3)));
      case WlSeat => seats := seats + [SeatEntry(name, Bound(name, Min(version, maxSeatVersion)))];
      case OtherInterface =>
    }

    /** `RegistryHandler::remove_global`: the manager is dropped only when it
        came from the removed global, and every seat entry of that global is
        dropped. */
    method RemoveGlobal(name: nat)
      modifies this
      ensures old(manager).Some? && old(manager).value.name == name ==> manager == None
      ensures !(old(manager).Some? && old(manager).value.name == name) ==> manager == old(manager)
      ensures seats == WithoutGlobal(old(seats), name)
    {
      if manager.Some? && manager.value.name == name {
        manager := None;
      }
      seats := WithoutGlobal(seats, name);
    }
  }

  /** A seat advertised and then removed leaves the table as it was before,
      whatever other seats it held. */
  lemma {:induction false} SeatAddRemove(seats: seq<SeatEntry>, name: nat, seat: Bound)
    requires forall i :: 0 <= i < |seats| ==> seats[i].name != name
    ensures WithoutGlobal(seats + [SeatEntry(name, seat)], name) == seats
  {
    var keep := (e: SeatEntry) => e.name != name;
    RetainConcat(seats, [SeatEntry(name, seat)], keep);
    RetainAll(seats, keep);
    assert Retain([SeatEntry(name, seat)], keep) == [];
  }
}
