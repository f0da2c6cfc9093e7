/** The agent's operations, when nothing interrupts them, are steps of the
    delivery protocol. */
module DeliveryRefines {
  import opened Rows
  import opened Store
  import opened Delivery
  import opened DeliverySteps

  /** The actions are possible one after the other and lead from w to u. */
  ghost predicate Leads(cfg: Config, w: World, actions: seq<Action>, u: World)
    requires Keyed(w.s.hub.logs)
    decreases |actions|
  {
    if actions == [] then u == w
    else Possible(cfg, w, actions[0]) && Leads(cfg, Act(cfg, w, actions[0]), actions[1..], u)
  }

  lemma OneStep(cfg: Config, w: World, a: Action, rest: seq<Action>, u: World)
    requires Keyed(w.s.hub.logs) && Possible(cfg, w, a) && Leads(cfg, Act(cfg, w, a), rest, u)
    ensures Leads(cfg, w, [a] + rest, u)
  {
    hide Act, Possible, Keyed;
    assert ([a] + rest)[1..] == rest;
  }

  lemma LastStep(cfg: Config, w: World, a: Action)
    requires Keyed(w.s.hub.logs) && Possible(cfg, w, a)
    ensures Leads(cfg, w, [a], Act(cfg, w, a))
  {
    hide Act, Possible, Keyed;
    OneStep(cfg, w, a, [], Act(cfg, w, a));
  }

  lemma {:induction false} Joined(cfg: Config, w: World, first: seq<Action>, v: World, rest: seq<Action>, u: World)
    requires Keyed(w.s.hub.logs) && Leads(cfg, w, first, v) && Keyed(v.s.hub.logs) && Leads(cfg, v, rest, u)
    ensures Leads(cfg, w, first + rest, u)
    decreases |first|
  {
    hide Act, Possible, Keyed;
    if first == [] {
      assert first + rest == rest;
    } else {
      var a, next := first[0], Act(cfg, w, first[0]);
      Joined(cfg, next, first[1..], v, rest, u);
      OneStep(cfg, w, a, first[1..] + rest, u);
      assert first + rest == [a] + (first[1..] + rest);
    }
  }

  /** The actions lead from one well-keyed world to another, so that they can be
      joined. */
  ghost predicate Reaches(cfg: Config, w: World, actions: seq<Action>, u: World) {
    Keyed(w.s.hub.logs) && Keyed(u.s.hub.logs) && Leads(cfg, w, actions, u)
  }

  function Replayed(w: World, t: State, ok: bool): World
    requires w.phase.Replaying?
  {
    w.(s := t, phase := if !ok then Stopped(w.phase.hand)
    else if w.phase.hand.Some? then Sending(w.phase.hand.value) else Idle)
  }

  lemma LostRequest(cfg: Config, s: State, batch: EntryBatch)
    ensures Send(cfg, s, batch, Shot(RequestLost, 0)) == (s, false)
  {}

  /** A replay of the spool. An item beyond the given faults is one whose
      request is lost. */
  lemma {:induction false} ReplaySteps(cfg: Config, w: World, sends: seq<Attempt>) returns (actions: seq<Action>)
    requires Keyed(w.s.hub.logs) && w.phase.Replaying?
    ensures var (t, ok) := ReplayItems(cfg, w.s, sends); Reaches(cfg, w, actions, Replayed(w, t, ok))
    decreases |sends|
  {
    hide Leads, Send, Keyed;
    if w.s.spool == [] {
      actions := [ReplayDone];
      LastStep(cfg, w, ReplayDone);
    } else if sends == [] {
      LostRequest(cfg, w.s, w.s.spool[0].batch);
      var a := SendHead(Shot(RequestLost, 0));
      actions := [a];
      LastStep(cfg, w, a);
    } else {
      var a := SendHead(sends[0].shot);
      var sent := Act(cfg, w, a);
      if !sent.phase.Removing? {
        actions := [a];
        LastStep(cfg, w, a);
      } else {
        var b := RemoveHead(sends[0].removeFails);
        var removed := Act(cfg, sent, b);
        var (t, ok) := ReplayItems(cfg, w.s, sends);
        if sends[0].removeFails {
          actions := [b];
          LastStep(cfg, sent, b);
        } else {
          var rest := ReplaySteps(cfg, removed, sends[1..]);
          actions := [b] + rest;
          OneStep(cfg, sent, b, rest, Replayed(w, t, ok));
        }
        OneStep(cfg, w, a, actions, Replayed(w, t, ok));
        actions := [a] + actions;
      }
    }
  }

  lemma ReplayOrFail(cfg: Config, w: World, m: Moment) returns (actions: seq<Action>)
    requires Keyed(w.s.hub.logs) && w.phase.Replaying?
    ensures var (t, ok) := Replay(cfg, w.s, m); Reaches(cfg, w, actions, Replayed(w, t, ok))
  {
    if m.readFails {
      actions := [ReadFails];
      LastStep(cfg, w, ReadFails);
    } else {
      actions := ReplaySteps(cfg, w, m.sends);
    }
  }

  /** After the replay, the new batch is sent or saved. */
  lemma DeliverSteps(cfg: Config, w: World, m: Moment) returns (actions: seq<Action>)
    requires Keyed(w.s.hub.logs) && (w.phase.Sending? || w.phase.Spooling?)
    ensures var (sent, delivered) := Send(cfg, w.s, w.phase.batch, m.last);
            var t := if w.phase.Spooling? then WriteSpool(cfg, w.s, w.phase.batch, m.saving).0
                     else if delivered then sent else WriteSpool(cfg, sent, w.phase.batch, m.saving).0;
            Reaches(cfg, w, actions, w.(s := t, phase := Idle))
  {
    var save := Save(m.saving);
    if w.phase.Spooling? {
      actions := [save];
      LastStep(cfg, w, save);
    } else {
      var send := SendNew(m.last);
      var sent := Act(cfg, w, send);
      actions := [];
      if sent.phase.Spooling? {
        LastStep(cfg, sent, save);
        actions := [save];
      }
      OneStep(cfg, w, send, actions, if actions == [] then sent else Act(cfg, sent, save));
      actions := [send] + actions;
    }
  }

  /** A flush of the queue with its replay. */
  lemma FlushQueueSteps(cfg: Config, w: World, m: Moment) returns (actions: seq<Action>)
    requires Keyed(w.s.hub.logs) && w.phase.Due? && Lists(m.order, w.s.queue.containers)
    ensures Reaches(cfg, w, actions, w.(s := FlushQueue(cfg, w.s, m).0, phase := Idle))
  {
    var taken := Act(cfg, w, Take(m.order));
    var replay := ReplayOrFail(cfg, taken, m);
    var (t, ok) := Replay(cfg, taken.s, m);
    var replayed := Replayed(taken, t, ok);
    actions := replay;
    if taken.phase.hand.Some? {
      var deliver := DeliverSteps(cfg, replayed, m);
      Joined(cfg, taken, replay, replayed, deliver, w.(s := FlushQueue(cfg, w.s, m).0, phase := Idle));
      actions := replay + deliver;
    }
    OneStep(cfg, w, Take(m.order), actions, w.(s := FlushQueue(cfg, w.s, m).0, phase := Idle));
    actions := [Take(m.order)] + actions;
  }

  /** A flush when the queue is ready. */
  lemma FlushIfReadySteps(cfg: Config, w: World, m: Moment) returns (actions: seq<Action>)
    requires Keyed(w.s.hub.logs) && w.phase == if Ready(cfg, w.s.queue) then Due else Idle
    requires Ready(cfg, w.s.queue) ==> Lists(m.order, w.s.queue.containers)
    ensures Reaches(cfg, w, actions, w.(s := FlushIfReady(cfg, w.s, m), phase := Idle))
  {
    actions := [];
    if w.phase.Due? {
      actions := FlushQueueSteps(cfg, w, m);
    }
  }

  /** The second attempt to add a refused entry. */
  lemma AddAgainSteps(cfg: Config, w: World, m: Moment) returns (actions: seq<Action>)
    requires Keyed(w.s.hub.logs) && w.phase.Retrying? && Lists(m.order, w.s.queue.containers)
    ensures var (t, ended) := Enqueue(cfg, w.s, w.phase.e, w.phase.bytes, m);
            Reaches(cfg, w, actions, w.(s := t, phase := if ended then Ended else Idle))
  {
    var added := Act(cfg, w, AddAgain);
    var (t, ended) := Enqueue(cfg, w.s, w.phase.e, w.phase.bytes, m);
    actions := [];
    if !added.phase.Ended? {
      actions := FlushIfReadySteps(cfg, added, m);
    }
    OneStep(cfg, w, AddAgain, actions, w.(s := t, phase := if ended then Ended else Idle));
    actions := [AddAgain] + actions;
  }

  /** A batch in hand is saved, and the refused entry is added again unless the
      spool failed. */
  lemma StoreSteps(cfg: Config, w: World, saving: Saving, m: Moment) returns (actions: seq<Action>)
    requires Keyed(w.s.hub.logs) && w.phase.Storing? && Lists(m.order, w.s.queue.containers)
    ensures var (stored, ok) := WriteSpool(cfg, w.s, w.phase.batch, saving);
            var (t, ended) := if ok then Enqueue(cfg, stored, w.phase.e, w.phase.bytes, m)
                              else (DropQueue(stored, [w.phase.e]), true);
            Reaches(cfg, w, actions, w.(s := t, phase := if ended then Ended else Idle))
  {
    hide Leads, Enqueue, DropQueue, Keyed, Pruned, Insert, Lists;
    var save := Save(saving);
    var saved := Act(cfg, w, save);
    if saved.phase.Retrying? {
      var again := AddAgainSteps(cfg, saved, m);
      var (t, ended) := Enqueue(cfg, saved.s, w.phase.e, w.phase.bytes, m);
      OneStep(cfg, w, save, again, w.(s := t, phase := if ended then Ended else Idle));
      actions := [save] + again;
    } else {
      LastStep(cfg, w, save);
      actions := [save];
    }
  }

  /** The full queue goes to the spool, and the entry is added again. */
  lemma MakeRoomSteps(cfg: Config, w: World, full: Moment, m: Moment) returns (actions: seq<Action>)
    requires Keyed(w.s.hub.logs) && w.phase.Refused? && Lists(full.order, w.s.queue.containers) && m.order == []
    ensures var (t, ended) := MakeRoom(cfg, w.s, w.phase.e, w.phase.bytes, full, m);
            Reaches(cfg, w, actions, w.(s := t, phase := if ended then Ended else Idle))
  {
    hide Leads, Enqueue, WriteSpool, DropQueue, Keyed;
    var take := Take(full.order);
    var taken := Act(cfg, w, take);
    var (t, ended) := MakeRoom(cfg, w.s, w.phase.e, w.phase.bytes, full, m);
    if taken.phase.Retrying? {
      actions := AddAgainSteps(cfg, taken, m);
    } else {
      actions := StoreSteps(cfg, taken, full.saving, m);
    }
    OneStep(cfg, w, take, actions, w.(s := t, phase := if ended then Ended else Idle));
    actions := [take] + actions;
  }

  /** One arriving entry, from naming it to the flush it may bring about. */
  lemma CollectSteps(cfg: Config, w: World, e: Entry, bytes: nat, full: Moment, m: Moment)
    returns (actions: seq<Action>)
    requires Keyed(w.s.hub.logs) && w.phase.Idle?
    requires match Add(cfg, w.s.queue, e, bytes)
             case None => Lists(full.order, w.s.queue.containers) && m.order == []
             case Some(q) => Ready(cfg, q) ==> Lists(m.order, w.s.queue.containers)
    ensures var (t, ended) := Collect(cfg, w.s, Named(cfg, w, e), bytes, full, m);
            Reaches(cfg, w, actions, Count(w, Named(cfg, w, e)).(s := t, phase := if ended then Ended else Idle))
  {
    var arrived := Act(cfg, w, Arrive(e, bytes));
    if arrived.phase.Refused? {
      actions := MakeRoomSteps(cfg, arrived, full, m);
    } else {
      actions := FlushIfReadySteps(cfg, arrived, m);
    }
    var (t, ended) := Collect(cfg, w.s, Named(cfg, w, e), bytes, full, m);
    OneStep(cfg, w, Arrive(e, bytes), actions,
            Count(w, Named(cfg, w, e)).(s := t, phase := if ended then Ended else Idle));
    actions := [Arrive(e, bytes)] + actions;
  }
}
