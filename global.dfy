/** `NoEventGlobal` (src/global.rs): a container that holds one bound global
    which never sends events, together with the version range it accepts. The
    registry drives it through `new_global` and `remove_global`. */
module Global {
  import opened Util
  import opened Registry

  /** The container as written. */
  class NoEventGlobal<G(==)> {
    var inner: Option<G>
    var name: Option<nat>
    const version: VersionRange
    var destroyed: bool

    /** Nothing ever records a global name, so `name` stays `None`. */
    ghost predicate Valid()
      reads this
    {
      name.None?
    }

    /** `NoEventGlobal::new`: no global, no name, not destroyed, the given range. */
    constructor (version: VersionRange)
      ensures Valid()
      ensures inner == None && name == None && !destroyed && this.version == version
    {
      inner := None;
      name := None;
      this.version := version;
      destroyed := false;
    }

    /** `RequestGlobal::version`: the configured range, unchanged. */
    function Version(): (r: VersionRange)
      ensures r == version
    {
      version
    }

    /** `get`: the held global, if any. */
    function Get(): (r: Option<G>)
      reads this
      ensures r == inner
    {
      inner
    }

    /** `destroyed`: whether the held global was removed. */
    function Destroyed(): (r: bool)
      reads this
      ensures r == destroyed
    {
      destroyed
    }

    /** `new_global`: a live global already held is kept; otherwise the new
        one is stored. The global's name is not recorded. */
    method NewGlobal(globalName: nat, global: G)
      modifies this
      ensures old(inner).Some? && !old(destroyed) ==> inner == old(inner)
      ensures old(inner).None? || old(destroyed) ==> inner == Some(global)
      ensures name == old(name) && destroyed == old(destroyed)
    {
      if inner.Some? && !destroyed {
        // a second advertisement of the same interface is ignored
      } else {
        inner := Some(global);
      }
    }

    /** `remove_global`: clears the global and marks it destroyed only when the
        stored name matches; since no name is ever stored, nothing changes. */
    method RemoveGlobal(globalName: nat)
      modifies this
      ensures old(name) == Some(globalName) ==> inner == None && destroyed
      ensures old(name) != Some(globalName) ==> inner == old(inner) && destroyed == old(destroyed)
      ensures old(Valid()) ==> inner == old(inner) && destroyed == old(destroyed)
      ensures name == old(name)
    {
      if name == Some(globalName) {
        inner := None;
        destroyed := true;
      }
    }
  }

  /** The compositor advertises a global named 7 and later removes it: the
      container, as written, still hands the removed global out and does not
      report it destroyed. */
  method RemovalIgnored<G(==)>(range: VersionRange, global: G) returns (held: Option<G>, gone: bool)
    ensures held == Some(global) && !gone
  {
    var c := new NoEventGlobal<G>(range);
    c.NewGlobal(7, global);
    c.RemoveGlobal(7);
    held, gone := c.Get(), c.Destroyed();
  }

  /** The container as intended: `new_global` records the global's name, so
      that the matching `remove_global` releases it. */
  class NamedGlobal<G(==)> {
    var inner: Option<G>
    var name: Option<nat>
    const version: VersionRange
    var destroyed: bool

    /** A held global always has its name recorded. */
    ghost predicate Valid()
      reads this
    {
      inner.Some? ==> name.Some?
    }

    constructor (version: VersionRange)
      ensures Valid()
      ensures inner == None && name == None && !destroyed && this.version == version
    {
      inner := None;
      name := None;
      this.version := version;
      destroyed := false;
    }

    /** `get`, unchanged by the correction. */
    function Get(): (r: Option<G>)
      reads this
      ensures r == inner
    {
      inner
    }

    /** `destroyed`, unchanged by the correction. */
    function Destroyed(): (r: bool)
      reads this
      ensures r == destroyed
    {
      destroyed
    }

    method NewGlobal(globalName: nat, global: G)
      requires Valid()
      modifies this
      ensures Valid()
      ensures old(inner).Some? && !old(destroyed) ==> inner == old(inner) && name == old(name)
      ensures old(inner).None? || old(destroyed) ==> inner == Some(global) && name == Some(globalName)
      ensures destroyed == old(destroyed)
    {
      if inner.Some? && !destroyed {
      } else {
        inner := Some(global);
        name := Some(globalName);
      }
    }

    method RemoveGlobal(globalName: nat)
      requires Valid()
      modifies this
      ensures Valid()
      ensures old(name) == Some(globalName) ==> inner == None && destroyed
      ensures old(name) != Some(globalName) ==> inner == old(inner) && destroyed == old(destroyed)
      ensures name == old(name)
    {
      if name == Some(globalName) {
        inner := None;
        destroyed := true;
      }
    }
  }

  /** The same advertisement and removal against the intended container: the
      global is released and reported destroyed. */
  method RemovalHonoured<G(==)>(range: VersionRange, global: G) returns (held: Option<G>, gone: bool)
    ensures held == None && gone
  {
    var c := new NamedGlobal<G>(range);
    c.NewGlobal(7, global);
    c.RemoveGlobal(7);
    held, gone := c.Get(), c.Destroyed();
  }
}
