/** A map node at work: container, listeners and clock are objects that its operations change. */
module MapNode {
  import opened Wrappers
  import opened XValues
  import opened Callbacks
  import opened TimedMaps
  import opened Boxes
  import opened MapContainer
  import NodeMaps
  import Clock

  class XMapNode {
    const container: Container
    const callbacks: NodeCallbacks
    var clock: int

    constructor ()
      ensures fresh(container) && fresh(callbacks) && NodeMaps.Valid(N())
    {
      container := new Container();
      callbacks := new NodeCallbacks();
      clock := Clock.ABSENT;
    }

    ghost function N(): NodeMaps.Node
      reads this, container, callbacks
    {
      NodeMaps.Node(container.T(), callbacks.callbacks, clock)
    }

    // A new stamp: larger than every one before, whatever the clock reads.
    method Stamp(reading: int) returns (now: int)
      modifies this
      ensures now == clock == Clock.Max(reading, old(clock) + 1)
    {
      clock := Clock.Max(reading, clock + 1);
      now := clock;
    }

    // `ContainerKey_`
    method ContainerKey(key: Key, useIndex: bool) returns (k: string)
      requires Consistent(container.T())
      ensures k == NodeMaps.ContainerKey(container.T(), key, useIndex)
    {
      hide Live, TimedMaps.LiveKeys, Consistent, ErasedKeys, IsErased;
      SizeCountsLive(container.T());
      match key {
        case Name(s) => k := s;
        case At(i) => if useIndex { k := container.KeyAt(i); } else { k := ""; }
        case Last =>
          var size := container.Size();
          if useIndex && size > 0 { k := container.KeyAt(size - 1); } else { k := ""; }
        case _ => k := "";
      }
    }

    method Set(key: Key, v: XValue, reading: int) returns (ok: bool)
      requires NodeMaps.Valid(N())
      modifies this, container, callbacks
      ensures NodeMaps.Set(old(N()), key, v, reading) == NodeMaps.Res(N(), ok)
      ensures NodeMaps.Valid(N())
    {
      NodeMaps.StepValid(N(), NodeMaps.SetOp(key, v, reading));
      var k := ContainerKey(key, true);
      var now := Stamp(reading);
      var prev;
      ok, prev := container.Set(k, Timed(v, now), callbacks, false);
    }

    method Insert(key: Key, v: XValue, reading: int) returns (ok: bool)
      requires NodeMaps.Valid(N())
      modifies this, container, callbacks
      ensures NodeMaps.Insert(old(N()), key, v, reading) == NodeMaps.Res(N(), ok)
      ensures NodeMaps.Valid(N())
    {
      NodeMaps.StepValid(N(), NodeMaps.InsertOp(key, v, reading));
      var k := ContainerKey(key, false);
      var now := Stamp(reading);
      var prev;
      ok, prev := container.Emplace(k, Timed(v, now), callbacks);
    }

    method Erase(key: Key, reading: int) returns (ok: bool)
      requires NodeMaps.Valid(N())
      modifies this, container, callbacks
      ensures NodeMaps.Erase(old(N()), key, reading) == NodeMaps.Res(N(), ok)
      ensures NodeMaps.Valid(N())
    {
      NodeMaps.StepValid(N(), NodeMaps.EraseOp(key, reading));
      var k := ContainerKey(key, true);
      var now := Stamp(reading);
      var prev;
      ok, prev := container.Erase(k, now, callbacks);
    }

    method KeyChange(from: Key, to: Key, reading: int) returns (ok: bool)
      requires NodeMaps.Valid(N())
      modifies this, container, callbacks
      ensures NodeMaps.KeyChange(old(N()), from, to, reading) == NodeMaps.Res(N(), ok)
      ensures NodeMaps.Valid(N())
    {
      hide TimedMaps.Set, TimedMaps.Erase, TimedMaps.LiveKeys, TimedMaps.Consistent;
      NodeMaps.StepValid(N(), NodeMaps.KeyChangeOp(from, to, reading));
      if from == NoKey || to == NoKey || from.Name? != to.Name? { return false; }
      var keyTo := ContainerKey(to, false);
      if keyTo != "" && keyTo in container.entries { return false; }
      var source := ContainerKey(from, true);
      var now := Stamp(reading);
      var moved;
      ok, moved := container.Erase(source, now, callbacks);
      if ok {
        var _, _ := container.Set(keyTo, moved, callbacks, true);
      }
    }
  }
}
