/** Acknowledging an alarm while offline: the client's durable queue, a network that may
    lose any request or reply, and a server that only acknowledges what is still open. */
module OfflineAck {

  datatype Reply = Reply(id: int, ok: bool)

  /** How the server's UPDATE ends: done and reported, not done, or done but reported as a
      failure because the connection broke. */
  datatype Fate = Done | NotDone | DoneUnreported

  datatype State = State(
    cacheOpen: bool,
    pending: set<int>,          // the pending_acks table; survives restarts
    shownQueued: set<int>,      // what the alarm panel marks as queued; does not
    requests: multiset<int>,
    orphans: multiset<int>,     // requests of a process that is gone: nobody hears the answer
    replies: multiset<Reply>,
    alarms: map<int, bool>,     // at the server: acknowledged or not
    everQueued: set<int>,       // history: ids ever stored in the queue
    okAnswers: multiset<int>)   // history: ids whose request was answered with success

  datatype Step =
    | Raise(id: int)
    | Click(id: int, connected: bool)
    | Reconnect
    | LoseRequest(id: int)
    | Deliver(id: int, fate: Fate)
    | LoseOrphan(id: int)
    | DeliverOrphan(id: int, fate: Fate)
    | LoseReply(reply: Reply)
    | Receive(reply: Reply)
    | OtherClient(id: int, fate: Fate)
    | Restart(works: bool)

  // ---- The queue ----

  function Queued(open: bool, pending: set<int>, id: int): set<int> { if open then pending + {id} else pending }

  function Cleared(open: bool, pending: set<int>, id: int): set<int> { if open then pending - {id} else pending }

  /** The acknowledgement part of the cache, on one file. */
  class AckQueue {
    var isOpen: bool
    var pending: set<int>

    constructor (works: bool, stored: set<int>)
      ensures isOpen == works && pending == stored
    {
      isOpen, pending := works, stored;
    }

    method QueueAck(id: int) returns (changed: bool)
      modifies this
      ensures isOpen == old(isOpen) && pending == Queued(isOpen, old(pending), id)
      ensures pending == if isOpen then old(pending) + {id} else old(pending)
      ensures changed <==> pending != old(pending)
    {
      if !isOpen { return false; }
      changed := id !in pending;
      pending := pending + {id};
    }

    method ClearAck(id: int) returns (changed: bool)
      modifies this
      ensures isOpen == old(isOpen) && pending == Cleared(isOpen, old(pending), id)
      ensures pending == if isOpen then old(pending) - {id} else old(pending)
      ensures changed <==> pending != old(pending)
    {
      if !isOpen { return false; }
      changed := id in pending;
      pending := pending - {id};
    }

    /** What a reconnect sends: every queued id once. */
    method SendPending(requests0: multiset<int>) returns (requests: multiset<int>)
      ensures requests == Flushed(requests0, isOpen, pending)
      ensures requests == requests0 + if isOpen then multiset(pending) else multiset{}
    {
      requests := requests0;
      if !isOpen { return; }
      var todo := pending;
      while todo != {}
        invariant todo <= pending && requests == requests0 + multiset(pending - todo)
        decreases |todo|
      {
        assert exists id :: id in todo by { NonEmpty(todo); }
        var id :| id in todo;
        requests := requests + multiset{id};
        assert multiset(pending - (todo - {id})) == multiset(pending - todo) + multiset{id};
        todo := todo - {id};
      }
      assert pending - {} == pending;
    }
  }

  lemma NonEmpty(ids: set<int>)
    requires ids != {}
    ensures exists id :: id in ids
  {
    assert (forall id :: id !in ids) ==> ids == {};
  }

  // ---- The server ----

  /** `UPDATE alarms SET acknowledged = TRUE WHERE id = $1 AND acknowledged = FALSE`. */
  function Updated(alarms: map<int, bool>, id: int): map<int, bool> {
    if id in alarms then alarms[id := true] else alarms
  }

  predicate Acked(alarms: map<int, bool>, id: int) { id in alarms && alarms[id] }

  /** One row was changed and the client of the database heard about it. */
  predicate AnswersOk(alarms: map<int, bool>, id: int, fate: Fate) {
    fate.Done? && id in alarms && !alarms[id]
  }

  // ---- The protocol ----

  predicate Enabled(s: State, e: Step) {
    match e
    case Raise(id) => id !in s.alarms
    case LoseRequest(id) => id in s.requests
    case Deliver(id, _) => id in s.requests
    case LoseOrphan(id) => id in s.orphans
    case DeliverOrphan(id, _) => id in s.orphans
    case LoseReply(r) => r in s.replies
    case Receive(r) => r in s.replies
    case _ => true
  }

  function Plus<T>(m: multiset<T>, x: T): multiset<T> { m + multiset{x} }

  function Minus<T>(m: multiset<T>, x: T): multiset<T> { m - multiset{x} }

  /** The requests of a reconnect. */
  function Flushed(requests: multiset<int>, open: bool, pending: set<int>): multiset<int> {
    requests + if open then multiset(pending) else multiset{}
  }

  function Next(s: State, e: Step): State {
    match e
    case Raise(id) => s.(alarms := s.alarms[id := false])
    case Click(id, connected) =>
      if connected then s.(requests := Plus(s.requests, id))
      else s.(pending := Queued(s.cacheOpen, s.pending, id), shownQueued := s.shownQueued + {id},
              everQueued := if s.cacheOpen then s.everQueued + {id} else s.everQueued)
    case Reconnect =>
      s.(requests := Flushed(s.requests, s.cacheOpen, s.pending))
    case LoseRequest(id) => s.(requests := Minus(s.requests, id))
    case Deliver(id, fate) =>
      var ok := AnswersOk(s.alarms, id, fate);
      s.(requests := Minus(s.requests, id),
         alarms := if fate.NotDone? then s.alarms else Updated(s.alarms, id),
         replies := Plus(s.replies, Reply(id, ok)),
         okAnswers := if ok then Plus(s.okAnswers, id) else s.okAnswers)
    case LoseOrphan(id) => s.(orphans := Minus(s.orphans, id))
    case DeliverOrphan(id, fate) =>
      s.(orphans := Minus(s.orphans, id),
         alarms := if fate.NotDone? then s.alarms else Updated(s.alarms, id),
         okAnswers := if AnswersOk(s.alarms, id, fate) then Plus(s.okAnswers, id) else s.okAnswers)
    case LoseReply(r) => s.(replies := Minus(s.replies, r))
    case Receive(r) =>
      var t := s.(replies := Minus(s.replies, r));
      if r.ok then t.(pending := Cleared(s.cacheOpen, s.pending, r.id), shownQueued := s.shownQueued - {r.id})
      else t
    case OtherClient(id, fate) =>
      s.(alarms := if fate.NotDone? then s.alarms else Updated(s.alarms, id),
         okAnswers := if AnswersOk(s.alarms, id, fate) then Plus(s.okAnswers, id) else s.okAnswers)
    case Restart(works) =>
      s.(cacheOpen := works, shownQueued := {}, requests := multiset{}, orphans := s.orphans + s.requests,
         replies := multiset{})
  }

  ghost predicate Run(s: State, steps: seq<Step>, t: State) {
    if steps == [] then s == t
    else
      var last := |steps| - 1;
      exists mid :: Run(s, steps[..last], mid) && Enabled(mid, steps[last]) && t == Next(mid, steps[last])
  }

  function Initial(open: bool, alarms: map<int, bool>): State {
    State(open, {}, {}, multiset{}, multiset{}, multiset{}, alarms, {}, multiset{})
  }

  ghost predicate QueueSafe(s: State) { forall id | id in s.everQueued :: id in s.pending || Acked(s.alarms, id) }

  ghost predicate RepliesTrue(s: State) { forall r | r in s.replies && r.ok :: Acked(s.alarms, r.id) }

  predicate AnsweredOnce(s: State, id: int) {
    s.okAnswers[id] <= 1 && (s.okAnswers[id] == 1 ==> Acked(s.alarms, id))
  }

  ghost predicate Inv(s: State) { QueueSafe(s) && RepliesTrue(s) && forall id :: AnsweredOnce(s, id) }

  lemma StepKeepsQueueSafe(s: State, e: Step)
    requires QueueSafe(s) && RepliesTrue(s) && Enabled(s, e)
    ensures QueueSafe(Next(s, e))
  {
    var t := Next(s, e);
    forall id | id in t.everQueued ensures id in t.pending || Acked(t.alarms, id) {
      if Acked(s.alarms, id) { StepKeepsAck(s, e, id); }
    }
  }

  lemma StepKeepsRepliesTrue(s: State, e: Step)
    requires RepliesTrue(s) && Enabled(s, e)
    ensures RepliesTrue(Next(s, e))
  {
    var t := Next(s, e);
    forall r | r in t.replies && r.ok ensures Acked(t.alarms, r.id) {
      if r in s.replies { StepKeepsAck(s, e, r.id); }
    }
  }

  lemma StepKeepsAnsweredOnce(s: State, e: Step, id: int)
    requires AnsweredOnce(s, id) && Enabled(s, e)
    ensures AnsweredOnce(Next(s, e), id)
  {
    if Acked(s.alarms, id) { StepKeepsAck(s, e, id); }
    StepAtServer(s, e);
    StepAnswers(s, e);
    hide Next, Enabled;
  }

  lemma StepKeepsInv(s: State, e: Step)
    requires Inv(s) && Enabled(s, e)
    ensures Inv(Next(s, e))
  {
    hide *;
    InvParts(s);
    StepKeepsQueueSafe(s, e);
    StepKeepsRepliesTrue(s, e);
    forall id ensures AnsweredOnce(Next(s, e), id) { StepKeepsAnsweredOnce(s, e, id); }
    InvParts(Next(s, e));
  }

  lemma InvParts(s: State)
    ensures Inv(s) <==> QueueSafe(s) && RepliesTrue(s) && forall id :: AnsweredOnce(s, id)
  {
  }

  /** What a step does at the server. */
  function ServerNext(alarms: map<int, bool>, e: Step): map<int, bool> {
    match e
    case Raise(id) => alarms[id := false]
    case Deliver(id, fate) => if fate.NotDone? then alarms else Updated(alarms, id)
    case DeliverOrphan(id, fate) => if fate.NotDone? then alarms else Updated(alarms, id)
    case OtherClient(id, fate) => if fate.NotDone? then alarms else Updated(alarms, id)
    case _ => alarms
  }

  lemma StepAtServer(s: State, e: Step)
    ensures Next(s, e).alarms == ServerNext(s.alarms, e)
    ensures e.Raise? && Enabled(s, e) ==> e.id !in s.alarms
  {
    hide AnswersOk, Updated, Queued, Cleared, Plus, Minus, Flushed;
  }

  /** Which success a step adds. */
  function AnswersNext(alarms: map<int, bool>, answers: multiset<int>, e: Step): multiset<int> {
    match e
    case Deliver(id, fate) => if AnswersOk(alarms, id, fate) then Plus(answers, id) else answers
    case DeliverOrphan(id, fate) => if AnswersOk(alarms, id, fate) then Plus(answers, id) else answers
    case OtherClient(id, fate) => if AnswersOk(alarms, id, fate) then Plus(answers, id) else answers
    case _ => answers
  }

  lemma StepAnswers(s: State, e: Step)
    ensures Next(s, e).okAnswers == AnswersNext(s.alarms, s.okAnswers, e)
  {
    hide AnswersOk, Updated, Queued, Cleared, Plus, Minus, Flushed;
  }

  lemma StepKeepsAck(s: State, e: Step, id: int)
    requires Enabled(s, e) && Acked(s.alarms, id)
    ensures Acked(Next(s, e).alarms, id)
  {
    hide Next, Enabled;
    StepAtServer(s, e);
  }

  lemma {:induction false} RunKeepsInv(s: State, steps: seq<Step>, t: State)
    requires Inv(s) && Run(s, steps, t)
    ensures Inv(t)
  {
    if steps != [] {
      var last := |steps| - 1;
      var mid :| Run(s, steps[..last], mid) && Enabled(mid, steps[last]) && t == Next(mid, steps[last]);
      RunKeepsInv(s, steps[..last], mid);
      StepKeepsInv(mid, steps[last]);
    }
  }

  /** However many requests and replies are lost or doubled, and however often the client
      restarts: an acknowledgement that was ever queued is still queued or has reached the
      server, and no alarm is ever reported as acknowledged twice. */
  lemma NoQueuedAckIsLost(open: bool, alarms: map<int, bool>, steps: seq<Step>, t: State, id: int)
    requires Run(Initial(open, alarms), steps, t)
    ensures id in t.everQueued ==> id in t.pending || Acked(t.alarms, id)
    ensures t.okAnswers[id] <= 1
  {
    RunKeepsInv(Initial(open, alarms), steps, t);
    assert AnsweredOnce(t, id);
  }

  /** An acknowledgement is never undone. */
  lemma {:induction false} AckIsNeverUndone(s: State, steps: seq<Step>, t: State, id: int)
    requires Run(s, steps, t) && Acked(s.alarms, id)
    ensures Acked(t.alarms, id)
  {
    if steps != [] {
      var last := |steps| - 1;
      var mid :| Run(s, steps[..last], mid) && Enabled(mid, steps[last]) && t == Next(mid, steps[last]);
      AckIsNeverUndone(s, steps[..last], mid, id);
      StepKeepsAck(mid, steps[last], id);
    }
  }

  /** The acknowledgement is in the queue or has reached the server. */
  predicate Held(s: State, id: int) { id in s.pending || Acked(s.alarms, id) }

  lemma StepKeepsHeld(s: State, e: Step, id: int)
    requires Held(s, id) && RepliesTrue(s) && Enabled(s, e)
    ensures Held(Next(s, e), id)
  {
    if Acked(s.alarms, id) { StepKeepsAck(s, e, id); }
    if e.Receive? && e.reply.ok && e.reply.id == id { StepKeepsAck(s, e, id); }
  }

  lemma {:induction false} RunKeepsHeld(s: State, steps: seq<Step>, t: State, id: int)
    requires Held(s, id) && RepliesTrue(s) && Run(s, steps, t)
    ensures Held(t, id) && RepliesTrue(t)
  {
    if steps != [] {
      var last := |steps| - 1;
      var mid :| Run(s, steps[..last], mid) && Enabled(mid, steps[last]) && t == Next(mid, steps[last]);
      RunKeepsHeld(s, steps[..last], mid, id);
      hide Next, Enabled, Held, RepliesTrue;
      StepKeepsHeld(mid, steps[last], id);
      StepKeepsRepliesTrue(mid, steps[last]);
    }
  }

  /** Whatever happens after the click, the acknowledgement is in the queue or at the server. */
  ghost predicate ClickHeldForGood(s: State, id: int) {
    forall steps, t | Run(Next(s, Click(id, false)), steps, t) :: Held(t, id)
  }

  /** In every state the system can reach: a click while offline, which the panel shows as
      queued, is held through every later run exactly when the cache is open or the id was
      queued or acknowledged already. */
  lemma OfflineClickIsHeldExactlyWhenOpen(open: bool, alarms: map<int, bool>, before: seq<Step>, s: State, id: int)
    requires Run(Initial(open, alarms), before, s)
    ensures id in Next(s, Click(id, false)).shownQueued
    ensures ClickHeldForGood(s, id) <==> s.cacheOpen || Held(s, id)
  {
    var clicked := Next(s, Click(id, false));
    RunKeepsInv(Initial(open, alarms), before, s);
    assert RepliesTrue(s) && RepliesTrue(clicked);
    if s.cacheOpen || Held(s, id) {
      forall steps, t | Run(clicked, steps, t) ensures Held(t, id) { RunKeepsHeld(clicked, steps, t, id); }
    } else {
      assert Run(clicked, [], clicked) && !Held(clicked, id);
    }
  }

  /** Neither queued nor on its way. */
  ghost predicate Forgotten(s: State, id: int) { id !in s.pending && id !in s.requests && id !in s.orphans }

  lemma ForgottenStays(s: State, e: Step, id: int)
    requires Forgotten(s, id) && Enabled(s, e) && (e.Click? ==> e.id != id)
    ensures Forgotten(Next(s, e), id)
  {
  }

  /** With the cache closed a click is shown as queued, and then no reconnect and no
      restart ever sends it. */
  lemma {:induction false} ClosedCacheForgetsClick(s: State, steps: seq<Step>, t: State, id: int)
    requires !s.cacheOpen && Forgotten(s, id) && Run(Next(s, Click(id, false)), steps, t)
    requires forall i | 0 <= i < |steps| && steps[i].Click? :: steps[i].id != id
    ensures Forgotten(t, id)
  {
    if steps != [] {
      var last, from := |steps| - 1, Next(s, Click(id, false));
      var mid :| Run(from, steps[..last], mid) && Enabled(mid, steps[last]) && t == Next(mid, steps[last]);
      ClosedCacheForgetsClick(s, steps[..last], mid, id);
      ForgottenStays(mid, steps[last], id);
    }
  }

  // ---- When the queue drains ----

  /** The entry can still be cleared: its alarm is not acknowledged, so that a request can
      succeed, or the success is already on its way to an open cache. */
  predicate CanClear(s: State, id: int) {
    !Acked(s.alarms, id) || (s.cacheOpen && Reply(id, true) in s.replies)
  }

  ghost predicate Stranded(s: State, id: int) { id in s.pending && !CanClear(s, id) }

  lemma NoNewSuccess(s: State, e: Step, id: int)
    requires Acked(s.alarms, id) && Enabled(s, e)
    ensures Reply(id, true) !in s.replies ==> Reply(id, true) !in Next(s, e).replies
    ensures Next(s, e).cacheOpen && Reply(id, true) in Next(s, e).replies ==> s.cacheOpen
  {
  }

  lemma StrandedStays(s: State, e: Step, id: int)
    requires Stranded(s, id) && Enabled(s, e)
    ensures Stranded(Next(s, e), id)
  {
    StepKeepsAck(s, e, id);
    NoNewSuccess(s, e, id);
    if e.Receive? && e.reply.ok && e.reply.id == id { assert !s.cacheOpen; }
  }

  /** An entry that cannot be cleared stays queued for ever: later requests for it are
      answered 404, and those do not clear it. */
  lemma {:induction false} LostAnswerStaysQueued(s: State, steps: seq<Step>, t: State, id: int)
    requires Stranded(s, id) && Run(s, steps, t)
    ensures Stranded(t, id)
  {
    if steps != [] {
      var last := |steps| - 1;
      var mid :| Run(s, steps[..last], mid) && Enabled(mid, steps[last]) && t == Next(mid, steps[last]);
      LostAnswerStaysQueued(s, steps[..last], mid, id);
      StrandedStays(mid, steps[last], id);
    }
  }

  ghost predicate Reaches(s: State, t: State) { exists steps :: Run(s, steps, t) }

  lemma ReachesItself(s: State)
    ensures Reaches(s, s)
  {
    assert Run(s, [], s);
  }

  lemma ReachesNext(s: State, mid: State, e: Step)
    requires Reaches(s, mid) && Enabled(mid, e)
    ensures Reaches(s, Next(mid, e))
  {
    var steps :| Run(s, steps, mid);
    hide Enabled, Next;
    assert (steps + [e])[..|steps|] == steps;
    assert Run(s, steps + [e], Next(mid, e));
  }

  /** One reconnect, one request and one reply that get through. */
  lemma RoundTripClears(s: State, mid: State, id: int) returns (t: State)
    requires Reaches(s, mid) && mid.cacheOpen && id in mid.pending && id in mid.alarms && !mid.alarms[id]
    ensures Reaches(s, t) && id !in t.pending && Acked(t.alarms, id)
  {
    hide Reaches;
    var a := Next(mid, Reconnect);
    var b := Next(a, Deliver(id, Done));
    t := Next(b, Receive(Reply(id, true)));
    ReachesNext(s, mid, Reconnect);
    ReachesNext(s, a, Deliver(id, Done));
    ReachesNext(s, b, Receive(Reply(id, true)));
  }

  lemma ClearableIsCleared(s: State, id: int) returns (t: State)
    requires id in s.pending && CanClear(s, id)
    ensures Reaches(s, t) && id !in t.pending
  {
    ReachesItself(s);
    if !Acked(s.alarms, id) {
      hide Reaches;
      var a := Next(s, Restart(true));
      ReachesNext(s, s, Restart(true));
      var b := if id in a.alarms then a else Next(a, Raise(id));
      if id !in a.alarms { ReachesNext(s, a, Raise(id)); }
      t := RoundTripClears(s, b, id);
    } else {
      t := Next(s, Receive(Reply(id, true)));
      ReachesNext(s, s, Receive(Reply(id, true)));
    }
  }

  /** Some run clears a queued id exactly when its alarm is not acknowledged yet or the one
      success is on its way to an open cache. */
  lemma QueueDrainsExactly(s: State, id: int)
    requires id in s.pending
    ensures (exists t :: Reaches(s, t) && id !in t.pending) <==> CanClear(s, id)
  {
    if CanClear(s, id) {
      var t := ClearableIsCleared(s, id);
    } else {
      forall t | Reaches(s, t) ensures id in t.pending {
        var steps :| Run(s, steps, t);
        LostAnswerStaysQueued(s, steps, t, id);
      }
    }
  }
}
