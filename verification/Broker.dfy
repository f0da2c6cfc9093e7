/** The Hub's event bus: a bounded window of seen ids, and subscribers closed in
    two steps. */
module Broker {
  import opened Options
  import opened Rows

  const MAX_SEEN := 4096
  const BUFFER := 1024

  /** One subscription. `sent` is history: everything ever put into its channel. */
  datatype Subscriber = Subscriber(selected: map<string, bool>, selectedNodes: map<string, bool>, since: Option<int>,
                                   buffer: seq<Entry>, closed: bool, sent: seq<Entry>)

  /** `members` are the subscribers the broker holds; `accepted` and `broken`
      are history: the entries let through, and whether a closed channel was
      ever written to. */
  datatype State = State(subscribers: map<nat, Subscriber>, members: set<nat>, seen: set<string>,
                         seenOrder: seq<string>, accepted: seq<Entry>, broken: bool)

  const EMPTY := State(map[], {}, {}, [], [], false)

  predicate Chosen(selection: map<string, bool>, id: string) {
    selection == map[] || (id in selection && selection[id])
  }

  predicate Matches(s: Subscriber, e: Entry) {
    && !(s.since.Some? && e.timestamp < s.since.value)
    && Chosen(s.selected, e.containerId) && Chosen(s.selectedNodes, e.nodeId)
  }

  /** The non-blocking send. */
  function Offer(s: Subscriber, e: Entry): Subscriber {
    if |s.buffer| < BUFFER then s.(buffer := s.buffer + [e], sent := s.sent + [e]) else s
  }

  predicate Seen(b: State, e: Entry) {
    e.insertId != "" && e.insertId in b.seen
  }

  function Remember(b: State, e: Entry): State {
    if e.insertId == "" then b
    else
      var order := b.seenOrder + [e.insertId];
      if |order| > MAX_SEEN
      then b.(seen := b.seen + {e.insertId} - {order[0]}, seenOrder := order[1..])
      else b.(seen := b.seen + {e.insertId}, seenOrder := order)
  }

  function Deliver(subscribers: map<nat, Subscriber>, owners: set<nat>, e: Entry): map<nat, Subscriber> {
    map id | id in subscribers ::
      if id in owners && Matches(subscribers[id], e) then Offer(subscribers[id], e) else subscribers[id]
  }

  lemma DeliverStep(subscribers: map<nat, Subscriber>, owners: set<nat>, owner: nat, e: Entry)
    requires owner in subscribers && owner !in owners
    ensures owner in Deliver(subscribers, owners, e)
    ensures Deliver(subscribers, owners, e)[owner] == subscribers[owner]
    ensures Deliver(subscribers, owners + {owner}, e)
         == if Matches(subscribers[owner], e)
            then Deliver(subscribers, owners, e)[owner := Offer(subscribers[owner], e)]
            else Deliver(subscribers, owners, e)
  {
    hide Matches, Offer;
  }

  lemma DeliverNone(subscribers: map<nat, Subscriber>, e: Entry)
    ensures Deliver(subscribers, {}, e) == subscribers
  {}

  /** A send would reach a closed channel. */
  predicate WritesToClosed(subscribers: map<nat, Subscriber>, members: set<nat>, e: Entry) {
    exists id :: id in members && id in subscribers && subscribers[id].closed && Matches(subscribers[id], e)
  }

  function AfterPublish(b: State, e: Entry): State {
    if Seen(b, e) then b
    else
      var r := Remember(b, e);
      r.(subscribers := Deliver(b.subscribers, b.members, e), accepted := b.accepted + [e],
      broken := b.broken || WritesToClosed(b.subscribers, b.members, e))
  }

  datatype Step =
    | Published(e: Entry)
    | Subscribe(id: nat, selected: map<string, bool>, selectedNodes: map<string, bool>, since: Option<int>)
    | Detach(id: nat)                 // closeSubscription: taken out under the lock
    | CloseChannel(id: nat)           // closeSubscription: channels closed after it
    | Drain(id: nat, n: nat)          // the receiver takes entries

  function Next(b: State, step: Step): State {
    match step
    case Published(e) => AfterPublish(b, e)
    case Subscribe(id, selected, selectedNodes, since) =>
      if id in b.subscribers then b
      else b.(subscribers := b.subscribers[id := Subscriber(selected, selectedNodes, since, [], false, [])],
           members := b.members + {id})
    case Detach(id) => b.(members := b.members - {id})
    case CloseChannel(id) =>
      if id in b.subscribers && id !in b.members
      then b.(subscribers := b.subscribers[id := b.subscribers[id].(closed := true)]) else b
    case Drain(id, n) =>
      if id in b.subscribers && n <= |b.subscribers[id].buffer|
      then b.(subscribers := b.subscribers[id := b.subscribers[id].(buffer := b.subscribers[id].buffer[n..])]) else b
  }

  function Run(steps: seq<Step>): State {
    if steps == [] then EMPTY else Next(Run(steps[..|steps| - 1]), steps[|steps| - 1])
  }

  // ---- the window ------------------------------------------------------------------------

  /** The ids of accepted entries that have one, in order of acceptance. */
  function AcceptedIds(entries: seq<Entry>): seq<string> {
    if entries == [] then []
    else
      var last := entries[|entries| - 1].insertId;
      AcceptedIds(entries[..|entries| - 1]) + if last == "" then [] else [last]
  }

  function LastOf(ids: seq<string>, n: nat): seq<string> {
    if |ids| <= n then ids else ids[|ids| - n..]
  }

  ghost predicate Distinct(ids: seq<string>) {
    forall i, j :: 0 <= i < j < |ids| ==> ids[i] != ids[j]
  }

  ghost predicate Window(b: State) {
    && Distinct(b.seenOrder) && |b.seenOrder| <= MAX_SEEN
    && (forall id :: id in b.seen <==> id in b.seenOrder)
    && b.seenOrder == LastOf(AcceptedIds(b.accepted), MAX_SEEN)
  }

  lemma AcceptedMore(entries: seq<Entry>, e: Entry)
    ensures AcceptedIds(entries + [e]) == AcceptedIds(entries) + if e.insertId == "" then [] else [e.insertId]
  {
    assert (entries + [e])[..|entries|] == entries;
  }

  lemma DistinctMore(ids: seq<string>, id: string)
    requires Distinct(ids) && id !in ids
    ensures Distinct(ids + [id])
  {}

  lemma RememberWindow(b: State, e: Entry)
    requires Window(b) && !Seen(b, e)
    ensures Window(Remember(b, e).(accepted := b.accepted + [e]))
  {
    hide AcceptedIds, LastOf, Distinct;
    AcceptedMore(b.accepted, e);
    var ids := AcceptedIds(b.accepted);
    if e.insertId == "" {
      assert ids + [] == ids;
    } else {
      var order := b.seenOrder + [e.insertId];
      SlideWindow(ids, e.insertId);
      DistinctMore(b.seenOrder, e.insertId);
      if |order| > MAX_SEEN {
        TailMembers(order);
      }
    }
  }

  lemma SlideWindow(ids: seq<string>, id: string)
    ensures var order := LastOf(ids, MAX_SEEN) + [id];
            LastOf(ids + [id], MAX_SEEN) == if |order| > MAX_SEEN then order[1..] else order
  {}

  lemma TailMembers(order: seq<string>)
    requires Distinct(order) && order != []
    ensures Distinct(order[1..]) && forall id :: id in order[1..] <==> id in order && id != order[0]
  {
    forall id | id in order && id != order[0] ensures id in order[1..] {
      var i :| 0 <= i < |order| && order[i] == id;
      assert order[1..][i - 1] == id;
    }
  }

  lemma NothingSeen()
    ensures Window(EMPTY)
  {}

  /** Over every run the seen set is exactly the last 4096 accepted ids, each
      once: an id is refused if and only if it is among them. */
  lemma {:induction false} SeenIsWindow(steps: seq<Step>)
    ensures Window(Run(steps))
  {
    hide LastOf, AcceptedIds, Distinct;
    if steps == [] {
      NothingSeen();
    } else {
      var b, step := Run(steps[..|steps| - 1]), steps[|steps| - 1];
      SeenIsWindow(steps[..|steps| - 1]);
      if step.Published? && !Seen(b, step.e) {
        RememberWindow(b, step.e);
        var t := Remember(b, step.e);
        assert Run(steps).seen == t.seen && Run(steps).seenOrder == t.seenOrder;
      }
    }
  }

  // ---- subscribers ------------------------------------------------------------------------

  /** a is a subsequence of b. */
  ghost predicate Subsequence(a: seq<Entry>, b: seq<Entry>) {
    a == [] ||
    (b != [] && ((a[|a| - 1] == b[|b| - 1] && Subsequence(a[..|a| - 1], b[..|b| - 1])) || Subsequence(a, b[..|b| - 1])))
  }

  lemma SubsequenceGrows(a: seq<Entry>, b: seq<Entry>, e: Entry)
    requires Subsequence(a, b)
    ensures Subsequence(a, b + [e]) && Subsequence(a + [e], b + [e])
  {
    assert (b + [e])[..|b|] == b && (a + [e])[..|a|] == a;
  }

  lemma NothingSent(entries: seq<Entry>)
    ensures Subsequence([], entries)
  {}

  /** The channel holds what was sent last and not yet received. */
  ghost predicate Queued(s: Subscriber) {
    |s.buffer| <= BUFFER && |s.buffer| <= |s.sent| && s.buffer == s.sent[|s.sent| - |s.buffer|..]
  }

  lemma QueuedOffer(s: Subscriber, e: Entry)
    requires Queued(s)
    ensures Queued(Offer(s, e))
  {
    var t := Offer(s, e);
    if t != s {
      assert t.sent[|t.sent| - |t.buffer|..] == s.sent[|s.sent| - |s.buffer|..] + [e];
    }
  }

  ghost predicate Served(b: State, s: Subscriber) {
    && Subsequence(s.sent, b.accepted) && (forall e :: e in s.sent ==> Matches(s, e))
    && Queued(s)
  }

  ghost predicate Orderly(b: State) {
    && !b.broken && (forall id :: id in b.members ==> id in b.subscribers && !b.subscribers[id].closed)
    && (forall id :: id in b.subscribers ==> Served(b, b.subscribers[id]))
  }

  /** Serving depends on the selection and on what was sent. */
  lemma OfferMatches(s: Subscriber, e: Entry)
    requires Matches(s, e) && forall x :: x in s.sent ==> Matches(s, x)
    ensures forall x :: x in Offer(s, e).sent ==> Matches(Offer(s, e), x)
    ensures Offer(s, e).sent == s.sent || Offer(s, e).sent == s.sent + [e]
  {}

  lemma OfferServes(b: State, s: Subscriber, e: Entry, t: State)
    requires Served(b, s) && t.accepted == b.accepted + [e]
    ensures Served(t, s) && (Matches(s, e) ==> Served(t, Offer(s, e)))
  {
    hide Subsequence, Queued, Matches, Offer;
    SubsequenceGrows(s.sent, b.accepted, e);
    QueuedOffer(s, e);
    if Matches(s, e) {
      OfferMatches(s, e);
    }
  }

  /** Receiving, closing and a new channel keep it, too. */
  lemma OtherServes(b: State, s: Subscriber, n: nat)
    requires Served(b, s)
    ensures n <= |s.buffer| ==> Served(b, s.(buffer := s.buffer[n..]))
    ensures Served(b, s.(closed := true))
  {
    hide Subsequence;
    assert n <= |s.buffer| ==> s.buffer[n..] == s.sent[|s.sent| - (|s.buffer| - n)..];
    assert forall e :: Matches(s, e) ==> Matches(s.(closed := true), e);
    assert n <= |s.buffer| ==> forall e :: Matches(s, e) ==> Matches(s.(buffer := s.buffer[n..]), e);
  }

  lemma NewIsServed(b: State, selected: map<string, bool>, selectedNodes: map<string, bool>, since: Option<int>)
    ensures Served(b, Subscriber(selected, selectedNodes, since, [], false, []))
  {}

  /** What a publication does to one subscriber. */
  lemma PublishServes(b: State, e: Entry, id: nat)
    requires Orderly(b) && !Seen(b, e) && id in b.subscribers
    ensures var t := Next(b, Published(e));
            t.accepted == b.accepted + [e] && id in t.subscribers && Served(t, t.subscribers[id])
  {
    hide Served, Matches, Offer;
    OfferServes(b, b.subscribers[id], e, Next(b, Published(e)));
  }

  lemma PublishOrderly(b: State, e: Entry)
    requires Orderly(b)
    ensures Orderly(Next(b, Published(e)))
  {
    hide Matches, Served;
    if !Seen(b, e) {
      forall id | id in b.subscribers { PublishServes(b, e, id); }
    }
  }

  lemma {:induction false} StepOrderly(b: State, step: Step)
    requires Orderly(b)
    ensures Orderly(Next(b, step))
  {
    hide Served, AfterPublish;
    var a := Next(b, step);
    ServedAlike(b, a);
    match step
    case Published(e) => PublishOrderly(b, e);
    case Subscribe(id, selected, selectedNodes, since) =>
      NewIsServed(a, selected, selectedNodes, since);
      assert id !in b.subscribers ==>
          a.subscribers == b.subscribers[id := Subscriber(selected, selectedNodes, since, [], false, [])];
    case Detach(_) =>
    case CloseChannel(id) => if id in b.subscribers { OtherServes(b, b.subscribers[id], 0); }
    case Drain(id, n) => if id in b.subscribers { OtherServes(b, b.subscribers[id], n); }
  }

  /** Only what was accepted matters of the state. */
  lemma ServedAlike(b: State, a: State)
    ensures a.accepted == b.accepted ==> forall s :: Served(b, s) ==> Served(a, s)
  {}

  /** Over every run, two-step closes included: each subscriber gets a
      subsequence of the accepted entries that match its selection, and no send
      goes to a closed channel. */
  lemma {:induction false} SubscribersAreServed(steps: seq<Step>)
    ensures Orderly(Run(steps))
  {
    if steps == [] {
    } else {
      SubscribersAreServed(steps[..|steps| - 1]);
      StepOrderly(Run(steps[..|steps| - 1]), steps[|steps| - 1]);
    }
  }

  // ---- what a subscriber with room gets -------------------------------------------------------

  /** The selection of a subscriber: not before its start, and named by each map
      that is not empty. */
  ghost predicate Wants(s: Subscriber, e: Entry) {
    && (s.since.Some? ==> e.timestamp >= s.since.value)
    && (|s.selected| > 0 ==> e.containerId in s.selected && s.selected[e.containerId])
    && (|s.selectedNodes| > 0 ==> e.nodeId in s.selectedNodes && s.selectedNodes[e.nodeId])
  }

  /** What publishing an entry does to a subscriber. */
  ghost function Received(s: Subscriber, e: Entry): Subscriber {
    if Wants(s, e) && |s.buffer| < 1024 then s.(buffer := s.buffer + [e], sent := s.sent + [e]) else s
  }

  lemma DeliversTo(subscribers: map<nat, Subscriber>, members: set<nat>, e: Entry)
    ensures var after := Deliver(subscribers, members, e);
            after.Keys == subscribers.Keys &&
            forall id :: id in subscribers ==>
                           after[id] == if id in members then Received(subscribers[id], e) else subscribers[id]
  {}

  /** Those of the entries that the subscriber wants, in order. */
  ghost function WantedOf(s: Subscriber, entries: seq<Entry>): seq<Entry> {
    if entries == [] then []
    else
      var last := entries[|entries| - 1];
      WantedOf(s, entries[..|entries| - 1]) + if Wants(s, last) then [last] else []
  }

  /** After the first i steps and after each one since, the subscriber is a member,
      and at each publication its channel had room. */
  ghost predicate KeepsUp(steps: seq<Step>, i: nat, id: nat)
    requires i <= |steps|
  {
    && id in Run(steps).members && id in Run(steps).subscribers
    && (i < |steps| ==>
          var init := steps[..|steps| - 1];
          KeepsUp(init, i, id) &&
          (steps[|steps| - 1].Published? ==> |Run(init).subscribers[id].buffer| < BUFFER))
  }

  /** The same selection, and everything wanted of `more` was sent. */
  ghost predicate Caught(before: Subscriber, after: Subscriber, more: seq<Entry>) {
    && after.since == before.since && after.selected == before.selected && after.selectedNodes == before.selectedNodes
    && after.sent == before.sent + WantedOf(before, more)
  }

  lemma CaughtMore(before: Subscriber, middle: Subscriber, after: Subscriber, more: seq<Entry>, e: Entry)
    requires Caught(before, middle, more) && after == Received(middle, e) && |middle.buffer| < BUFFER
    ensures Caught(before, after, more + [e])
  {
    assert (more + [e])[..|more|] == more;
    assert Wants(before, e) <==> Wants(middle, e);
  }

  /** What one step leaves of a member that has room. */
  lemma StepCatches(b: State, step: Step, id: nat)
    requires id in b.members && id in b.subscribers && id in Next(b, step).members
    ensures var a := Next(b, step);
            id in a.subscribers &&
            if step.Published? && !Seen(b, step.e)
            then a.accepted == b.accepted + [step.e] && a.subscribers[id] == Received(b.subscribers[id], step.e)
            else a.accepted == b.accepted && a.subscribers[id].sent == b.subscribers[id].sent &&
                 a.subscribers[id].since == b.subscribers[id].since &&
                 a.subscribers[id].selected == b.subscribers[id].selected &&
                 a.subscribers[id].selectedNodes == b.subscribers[id].selectedNodes
  {
    hide Deliver, Received, WritesToClosed, Seen;
    if step.Published? {
      DeliversTo(b.subscribers, b.members, step.e);
    }
  }

  /** Over every run: while a subscriber is a member and has room, it is sent every
      accepted entry that it wants, and nothing else. */
  lemma {:induction false} NothingIsMissed(steps: seq<Step>, i: nat, id: nat)
    requires i <= |steps| && KeepsUp(steps, i, id)
    ensures var b, a := Run(steps[..i]), Run(steps);
            id in b.subscribers && id in a.subscribers && b.accepted <= a.accepted &&
            Caught(b.subscribers[id], a.subscribers[id], a.accepted[|b.accepted|..])
  {
    hide Next, Caught;
    if i == |steps| {
      assert steps[..i] == steps;
      CaughtNothing(Run(steps).subscribers[id], Run(steps).accepted);
    } else {
      var init, last := steps[..|steps| - 1], steps[|steps| - 1];
      assert init[..i] == steps[..i];
      NothingIsMissed(init, i, id);
      StepCatches(Run(init), last, id);
      CaughtOn(Run(steps[..i]), Run(init), last, id);
    }
  }

  lemma CaughtNothing(s: Subscriber, accepted: seq<Entry>)
    ensures Caught(s, s, accepted[|accepted|..])
  {
    assert accepted[|accepted|..] == [];
  }

  lemma CaughtOn(b: State, m: State, step: Step, id: nat)
    requires id in b.subscribers && id in m.subscribers && b.accepted <= m.accepted
    requires Caught(b.subscribers[id], m.subscribers[id], m.accepted[|b.accepted|..])
    requires id in m.members && id in Next(m, step).members
    requires step.Published? ==> |m.subscribers[id].buffer| < BUFFER
    ensures var a := Next(m, step);
            id in a.subscribers && b.accepted <= a.accepted &&
            Caught(b.subscribers[id], a.subscribers[id], a.accepted[|b.accepted|..])
  {
    hide Next, Received, Seen;
    var a := Next(m, step);
    StepCatches(m, step, id);
    if step.Published? && !Seen(m, step.e) {
      assert a.accepted[|b.accepted|..] == m.accepted[|b.accepted|..] + [step.e];
      CaughtMore(b.subscribers[id], m.subscribers[id], a.subscribers[id], m.accepted[|b.accepted|..], step.e);
    }
  }

  // ---- the object ----------------------------------------------------------------------------

  class EventBus {
    var subscribers: map<nat, Subscriber>
    var members: set<nat>
    var seen: set<string>
    var seenOrder: seq<string>
    ghost var accepted: seq<Entry>
    ghost var broken: bool

    ghost function Value(): State
      reads this
    {
      State(subscribers, members, seen, seenOrder, accepted, broken)
    }

    constructor ()
      ensures Value() == EMPTY
    {
      subscribers, members, seen, seenOrder, accepted, broken := map[], {}, {}, [], [], false;
    }

    method Publish(e: Entry)
      requires members <= subscribers.Keys
      modifies this
      ensures Value() == AfterPublish(old(Value()), e)
      ensures e.insertId != "" && e.insertId in old(seen) ==> Value() == old(Value())
      ensures e.insertId == "" || e.insertId !in old(seen) ==>
                accepted == old(accepted) + [e] &&
                forall id :: id in old(subscribers) ==>
                               id in subscribers &&
                               subscribers[id] == if id in members then Received(old(subscribers)[id], e)
                               else old(subscribers)[id]
    {
      hide Received, Deliver, WritesToClosed;
      DeliversTo(subscribers, members, e);
      if e.insertId != "" {
        if e.insertId in seen {
          return;
        }
        seen := seen + {e.insertId};
        seenOrder := seenOrder + [e.insertId];
        if |seenOrder| > MAX_SEEN {
          seen := seen - {seenOrder[0]};
          seenOrder := seenOrder[1..];
        }
      }
      accepted := accepted + [e];
      broken := broken || WritesToClosed(subscribers, members, e);
      Broadcast(e);
    }

    method Broadcast(e: Entry)
      requires members <= subscribers.Keys
      modifies this`subscribers
      ensures subscribers == Deliver(old(subscribers), members, e)
    {
      hide Deliver, Matches, Offer;
      var owners := members;
      DeliverNone(subscribers, e);
      assert members - owners == {};
      while owners != {}
        invariant owners <= members
        invariant subscribers == Deliver(old(subscribers), members - owners, e)
        decreases |owners|
      {
        var owner :| owner in owners;
        DeliverStep(old(subscribers), members - owners, owner, e);
        assert members - (owners - {owner}) == members - owners + {owner};
        if Matches(subscribers[owner], e) {
          subscribers := subscribers[owner := Offer(subscribers[owner], e)];
        }
        owners := owners - {owner};
      }
      assert members - owners == members;
    }

    method Subscribe(id: nat, selected: map<string, bool>, selectedNodes: map<string, bool>, since: Option<int>)
      requires id !in subscribers
      modifies this
      ensures Value() == Next(old(Value()), Step.Subscribe(id, selected, selectedNodes, since))
      ensures members == old(members) + {id}
      ensures subscribers == old(subscribers)[id := Subscriber(selected, selectedNodes, since, [], false, [])]
    {
      subscribers := subscribers[id := Subscriber(selected, selectedNodes, since, [], false, [])];
      members := members + {id};
    }

    /** Out of the broker first, then the channel is closed. */
    method CloseSubscription(id: nat)
      requires id in subscribers
      modifies this
      ensures Value() == Next(Next(old(Value()), Detach(id)), CloseChannel(id))
      ensures members == old(members) - {id} && id in subscribers && subscribers[id].closed
      ensures subscribers[id].buffer == old(subscribers)[id].buffer && subscribers[id].sent == old(subscribers)[id].sent
    {
      members := members - {id};
      subscribers := subscribers[id := subscribers[id].(closed := true)];
    }
  }
}
