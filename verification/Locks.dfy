/** Per-server locks shared by scheduled sweeps and manual operations. */
module Locks {
  import opened Prelude

  class Manager {
    var locked: set<string>

    constructor ()
      ensures locked == {}
    {
      locked := {};
    }

    /** Takes a free key without waiting. */
    method TryLock(key: string) returns (ok: bool)
      modifies this
      ensures ok <==> key !in old(locked)
      ensures locked == old(locked) + {key}
    {
      if key in locked {
        return false;
      }
      locked := locked + {key};
      return true;
    }

    /** What the function returned by TryLock does. */
    method Unlock(key: string)
      modifies this
      ensures locked == old(locked) - {key}
    {
      locked := locked - {key};
    }
  }

  // ---- Operations under locks ----

  function ServerKey(serverId: string): string {
    "server:" + serverId
  }

  /** An operation works on one server at a time: outside its lock, or in its locked section. */
  datatype Operation = Outside | Inside(serverId: string)

  datatype World = World(locked: set<string>, operations: seq<Operation>)

  /** An operation may come to any server at any time; it turns away when the lock is taken. It leaves once. */
  datatype Event = Arrive(i: nat, serverId: string) | Leave(i: nat)

  predicate Allowed(w: World, e: Event) {
    e.i < |w.operations| && if e.Arrive? then w.operations[e.i].Outside? else w.operations[e.i].Inside?
  }

  function Step(w: World, e: Event): World
    requires Allowed(w, e)
  {
    match e
    case Arrive(i, serverId) =>
      if ServerKey(serverId) in w.locked then w
      else World(w.locked + {ServerKey(serverId)}, w.operations[i := Inside(serverId)])
    case Leave(i) => World(w.locked - {ServerKey(w.operations[i].serverId)}, w.operations[i := Outside])
  }

  ghost predicate Leads(w: World, events: seq<Event>, w': World)
    decreases |events|
  {
    if events == [] then w' == w
    else
      var n := |events| - 1;
      exists before :: Leads(w, events[..n], before) && Allowed(before, events[n]) && w' == Step(before, events[n])
  }

  predicate IsInside(w: World, i: int, serverId: string) {
    0 <= i < |w.operations| && w.operations[i] == Inside(serverId)
  }

  /** The locked keys are exactly those of the servers being worked on, each by one operation. */
  ghost predicate Isolated(w: World) {
    (forall i, j, s :: IsInside(w, i, s) && IsInside(w, j, s) ==> i == j) &&
    (forall i, s :: IsInside(w, i, s) ==> ServerKey(s) in w.locked) &&
    (forall k :: k in w.locked ==> exists i, s :: IsInside(w, i, s) && ServerKey(s) == k)
  }

  lemma {:induction false} KeysAreDistinct(a: string, b: string)
    ensures ServerKey(a) == ServerKey(b) ==> a == b
  {
    assert a == ServerKey(a)[|"server:"|..] && b == ServerKey(b)[|"server:"|..];
  }

  lemma {:induction false} ArriveKeepsIsolated(w: World, i: nat, serverId: string)
    requires Isolated(w) && Allowed(w, Arrive(i, serverId))
    ensures Isolated(Step(w, Arrive(i, serverId)))
  {
    var w' := Step(w, Arrive(i, serverId));
    if w' != w {
      assert IsInside(w', i, serverId);
      forall j, s ensures IsInside(w', j, s) <==> IsInside(w, j, s) || (j == i && s == serverId) {
      }
    }
  }

  lemma {:induction false} LeaveKeepsIsolated(w: World, i: nat)
    requires Isolated(w) && Allowed(w, Leave(i))
    ensures Isolated(Step(w, Leave(i)))
  {
    var w', own := Step(w, Leave(i)), w.operations[i].serverId;
    assert IsInside(w, i, own);
    forall j, s ensures IsInside(w', j, s) <==> IsInside(w, j, s) && j != i {
    }
    forall j, s | IsInside(w', j, s) ensures ServerKey(s) in w'.locked {
      assert IsInside(w, j, s) && j != i;
      KeysAreDistinct(s, own);
    }
    forall k | k in w'.locked ensures exists j, s :: IsInside(w', j, s) && ServerKey(s) == k {
      var j, s :| IsInside(w, j, s) && ServerKey(s) == k;
      assert IsInside(w', j, s);
    }
  }

  lemma {:induction false} RunKeepsIsolated(w: World, events: seq<Event>, w': World)
    requires Isolated(w) && Leads(w, events, w')
    ensures Isolated(w')
    decreases |events|
  {
    if events != [] {
      var n := |events| - 1;
      var before :| Leads(w, events[..n], before) && Allowed(before, events[n]) && w' == Step(before, events[n]);
      RunKeepsIsolated(w, events[..n], before);
      match events[n]
      case Arrive(i, serverId) => ArriveKeepsIsolated(before, i, serverId);
      case Leave(i) => LeaveKeepsIsolated(before, i);
    }
  }

  function NewWorld(operations: nat): World {
    World({}, seq(operations, i => Outside))
  }

  /** Isolation: in any interleaving of any number of operations at most one is inside a server's locked section, and
      when none is inside any, no key is left locked. */
  lemma {:induction false} ServersAreIsolated(operations: nat, events: seq<Event>, w: World)
    requires Leads(NewWorld(operations), events, w)
    ensures forall i, j, s :: IsInside(w, i, s) && IsInside(w, j, s) ==> i == j
    ensures (forall i :: 0 <= i < |w.operations| ==> w.operations[i].Outside?) ==> w.locked == {}
  {
    RunKeepsIsolated(NewWorld(operations), events, w);
  }

  /** Two operations exclude each other exactly when they come to the same server: an arrival is turned away if and only
      if some operation is inside that server's section. */
  lemma {:induction false} TurnedAwayIff(operations: nat, events: seq<Event>, w: World, i: nat, serverId: string)
    requires Leads(NewWorld(operations), events, w) && Allowed(w, Arrive(i, serverId))
    ensures Step(w, Arrive(i, serverId)).operations[i].Outside? <==> exists j :: IsInside(w, j, serverId)
  {
    RunKeepsIsolated(NewWorld(operations), events, w);
    if ServerKey(serverId) in w.locked {
      var j, s :| IsInside(w, j, s) && ServerKey(s) == ServerKey(serverId);
      KeysAreDistinct(s, serverId);
    }
  }

  // ---- Unlocking more than once ----

  /** The function returned by TryLock, called once more. */
  function UnlockAgain(w: World, serverId: string): World {
    w.(locked := w.locked - {ServerKey(serverId)})
  }

  /** Unlocking a server once more is harmless exactly if no operation is inside its section: the lock remembers keys,
      not owners. When one is inside, the next operation that comes to the server gets in beside it. */
  lemma {:induction false} ExtraUnlockIsHarmlessIff(operations: nat, events: seq<Event>, w: World, serverId: string)
    requires Leads(NewWorld(operations), events, w)
    ensures Isolated(UnlockAgain(w, serverId)) <==> forall j :: !IsInside(w, j, serverId)
    ensures forall i: nat, j :: IsInside(w, j, serverId) && Allowed(w, Arrive(i, serverId)) ==>
              var w' := Step(UnlockAgain(w, serverId), Arrive(i, serverId));
              i != j && IsInside(w', i, serverId) && IsInside(w', j, serverId)
  {
    RunKeepsIsolated(NewWorld(operations), events, w);
    var w' := UnlockAgain(w, serverId);
    forall j, s ensures IsInside(w', j, s) <==> IsInside(w, j, s) {
    }
    if forall j :: !IsInside(w, j, serverId) {
      forall j, s | IsInside(w', j, s) ensures ServerKey(s) in w'.locked {
        KeysAreDistinct(s, serverId);
      }
      forall k | k in w'.locked ensures exists j, s :: IsInside(w', j, s) && ServerKey(s) == k {
        var j, s :| IsInside(w, j, s) && ServerKey(s) == k;
        assert IsInside(w', j, s);
      }
    }
  }

  /** Three operations: the first leaves, the second arrives, the first's second unlock frees the section the second is
      in, and the third gets in beside it. */
  lemma {:induction false} SecondUnlockBreaksIsolation(serverId: string) returns (events: seq<Event>, w: World)
    ensures Leads(NewWorld(3), events, w) && events == [Arrive(0, serverId), Leave(0), Arrive(1, serverId)]
    ensures Allowed(UnlockAgain(w, serverId), Arrive(2, serverId))
    ensures var w' := Step(UnlockAgain(w, serverId), Arrive(2, serverId));
            IsInside(w', 1, serverId) && IsInside(w', 2, serverId)
  {
    events := [Arrive(0, serverId), Leave(0), Arrive(1, serverId)];
    var w0 := NewWorld(3);
    var w1 := Step(w0, events[0]);
    var w2 := Step(w1, events[1]);
    w := Step(w2, events[2]);
    assert Leads(w0, events[..0], w0);
    assert events[..1][..0] == events[..0] && Leads(w0, events[..1], w1);
    assert events[..2][..1] == events[..1] && Leads(w0, events[..2], w2);
    ExtraUnlockIsHarmlessIff(3, events, w, serverId);
  }
}
