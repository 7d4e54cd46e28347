/**
 The sink registry of report.go, with its slice as a backing array and a length: Report reads
 the slice under the lock and then walks it while Add goes on appending.
 */
module FanOut {
  // A sink, by its identity.
  type Sink = int

  class Registry {
    var backing: array<Sink>
    var len: nat

    ghost predicate Valid()
      reads this
    {
      len <= backing.Length
    }

    ghost function Sinks(): seq<Sink>
      requires Valid()
      reads this, backing
    {
      backing[..len]
    }

    constructor ()
      ensures Valid() && Sinks() == [] && fresh(backing)
    {
      backing := new Sink[0];
      len := 0;
    }

    // append: in place if there is room, else into a longer copy.
    method Add(s: Sink, room: nat)
      requires Valid()
      modifies this, backing
      ensures Valid() && Sinks() == old(Sinks()) + [s]
      ensures backing == old(backing) || fresh(backing)
      ensures backing == old(backing) ==> len == old(len) + 1
      ensures forall i :: 0 <= i < old(len) ==> old(backing)[i] == old(backing[i])
    {
      if len == backing.Length {
        var grown := new Sink[len + 1 + room];
        forall i | 0 <= i < len {
          grown[i] := backing[i];
        }
        backing := grown;
      }
      backing[len] := s;
      len := len + 1;
    }
  }

  // One call of Report: the slice it read, and the sinks it has emitted to.
  class Reporting {
    const backing: array<Sink>
    const len: nat
    var next: nat
    var emitted: seq<Sink>

    constructor (reg: Registry)
      requires reg.Valid()
      ensures Reads(reg, reg.Sinks()) && next == 0
    {
      backing, len, next, emitted := reg.backing, reg.len, 0, [];
    }

    // The slice still holds `seen`, and `next` of them have been emitted to.
    ghost predicate Reads(reg: Registry, seen: seq<Sink>)
      reads this, backing, reg
    {
      len <= backing.Length && backing[..len] == seen
      && next <= len && emitted == seen[..next]
      && (reg.backing == backing ==> len <= reg.len)
    }

    method EmitNext(reg: Registry, ghost seen: seq<Sink>)
      requires Reads(reg, seen) && next < len
      modifies this
      ensures Reads(reg, seen) && next == old(next) + 1
    {
      emitted := emitted + [backing[next]];
      next := next + 1;
    }
  }

  datatype Action = AddSink(s: Sink, room: nat) | Emit

  function AddedBy(actions: seq<Action>): seq<Sink> {
    if actions == [] then []
    else
      var last := actions[|actions| - 1];
      AddedBy(actions[..|actions| - 1]) + (if last.AddSink? then [last.s] else [])
  }

  /** Whatever Adds come between its emissions, a Report emits to exactly the sinks that were
      registered when it read the slice, in their order; the Adds all arrive. */
  method Interleave(reg: Registry, actions: seq<Action>) returns (r: Reporting)
    requires reg.Valid()
    modifies reg, reg.backing
    ensures reg.Valid() && r.emitted == old(reg.Sinks())
    ensures reg.Sinks() == old(reg.Sinks()) + AddedBy(actions)
  {
    ghost var seen := reg.Sinks();
    r := new Reporting(reg);
    for i := 0 to |actions|
      invariant reg.Valid() && r.Reads(reg, seen)
      invariant reg.backing == old(reg.backing) || fresh(reg.backing)
      invariant reg.Sinks() == seen + AddedBy(actions[..i])
    {
      assert actions[..i + 1][..i] == actions[..i];
      match actions[i]
      case AddSink(s, room) => reg.Add(s, room);
      case Emit =>
        if r.next < r.len {
          r.EmitNext(reg, seen);
        }
    }
    assert actions[..|actions|] == actions;
    while r.next < r.len
      invariant reg.Valid() && r.Reads(reg, seen)
      invariant reg.backing == old(reg.backing) || fresh(reg.backing)
      invariant reg.Sinks() == seen + AddedBy(actions)
    {
      r.EmitNext(reg, seen);
    }
  }
}
