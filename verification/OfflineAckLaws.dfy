/** Why things happen in the acknowledgement protocol: every click has its effect, and every
    effect its click, delivery or reply. */
module OfflineAckLaws {
  import opened OfflineAck

  lemma LastStep(s: State, steps: seq<Step>, t: State) returns (mid: State)
    requires steps != [] && Run(s, steps, t)
    ensures var last := |steps| - 1; Run(s, steps[..last], mid) && Enabled(mid, steps[last]) && t == Next(mid, steps[last])
    ensures forall e :: e in steps <==> e in steps[..|steps| - 1] || e == steps[|steps| - 1]
  {
    var last := |steps| - 1;
    mid :| Run(s, steps[..last], mid) && Enabled(mid, steps[last]) && t == Next(mid, steps[last]);
    assert steps == steps[..last] + [steps[last]];
  }

  // ---- What a click does ----

  /** A click while connected puts one request on its way, and does nothing else. */
  lemma OnlineClickSends(s: State, id: int)
    ensures Enabled(s, Click(id, true))
    ensures Next(s, Click(id, true)) == s.(requests := s.requests + multiset{id})
  {
  }

  /** The request that a click while connected sends acknowledges the alarm if it is
      delivered and carried out, and the reply clears the entry and the mark. */
  lemma OnlineClickAcknowledges(s: State, id: int) returns (t: State)
    requires id in s.alarms && !s.alarms[id]
    ensures Run(s, [Click(id, true), Deliver(id, Done), Receive(Reply(id, true))], t)
    ensures Acked(t.alarms, id) && id !in t.shownQueued && (s.cacheOpen ==> id !in t.pending)
    ensures t.okAnswers[id] == s.okAnswers[id] + 1
  {
    t := Next(Next(Next(s, Click(id, true)), Deliver(id, Done)), Receive(Reply(id, true)));
    ThreeEnabled(s, id);
    ThreeEffects(s, id);
    hide *;
    RunThree(s, Click(id, true), Deliver(id, Done), Receive(Reply(id, true)));
  }

  lemma RunThree(s: State, e1: Step, e2: Step, e3: Step)
    requires Enabled(s, e1) && Enabled(Next(s, e1), e2) && Enabled(Next(Next(s, e1), e2), e3)
    ensures Run(s, [e1, e2, e3], Next(Next(Next(s, e1), e2), e3))
  {
    hide Next, Enabled;
    assert [e1][..0] == [] && [e1, e2][..1] == [e1] && [e1, e2, e3][..2] == [e1, e2];
    assert Run(s, [], s);
    assert Run(s, [e1], Next(s, e1));
    assert Run(s, [e1, e2], Next(Next(s, e1), e2));
  }

  lemma ThreeEffects(s: State, id: int)
    requires id in s.alarms && !s.alarms[id]
    ensures var t := Next(Next(Next(s, Click(id, true)), Deliver(id, Done)), Receive(Reply(id, true)));
            && Acked(t.alarms, id) && id !in t.shownQueued && (s.cacheOpen ==> id !in t.pending)
            && t.okAnswers[id] == s.okAnswers[id] + 1
  {
  }

  lemma ThreeEnabled(s: State, id: int)
    requires id in s.alarms && !s.alarms[id]
    ensures var a := Next(s, Click(id, true)); var b := Next(a, Deliver(id, Done));
            Enabled(s, Click(id, true)) && Enabled(a, Deliver(id, Done)) && Enabled(b, Receive(Reply(id, true)))
  {
  }

  // ---- Nothing happens without a cause ----

  /** The step carries out an acknowledgement of the alarm. */
  predicate Acks(e: Step, id: int) {
    match e
    case Deliver(i, fate) => i == id && !fate.NotDone?
    case DeliverOrphan(i, fate) => i == id && !fate.NotDone?
    case OtherClient(i, fate) => i == id && !fate.NotDone?
    case _ => false
  }

  /** An alarm is acknowledged only by a request for it that the server carries out. */
  lemma {:induction false} AckHasACause(s: State, steps: seq<Step>, t: State, id: int)
    requires Run(s, steps, t) && !Acked(s.alarms, id) && Acked(t.alarms, id)
    ensures exists e :: e in steps && Acks(e, id)
  {
    if steps != [] {
      var mid := LastStep(s, steps, t);
      var e := steps[|steps| - 1];
      if Acked(mid.alarms, id) {
        AckHasACause(s, steps[..|steps| - 1], mid, id);
      } else {
        hide Next, Enabled;
        StepAtServer(mid, e);
        assert e in steps && Acks(e, id);
      }
    }
  }

  /** And a request for an alarm that the server carries out does acknowledge it. */
  lemma CarriedOutMeansAcked(s: State, e: Step, id: int)
    requires Enabled(s, e) && Acks(e, id) && id in s.alarms
    ensures Acked(Next(s, e).alarms, id)
  {
  }

  predicate Wanted(s: State, id: int) {
    id in s.pending || id in s.requests || id in s.orphans
  }

  lemma StepWants(s: State, e: Step, id: int)
    requires Enabled(s, e) && !Wanted(s, id) && Wanted(Next(s, e), id)
    ensures e == Click(id, true) || e == Click(id, false)
  {
  }

  /** Nothing is queued or sent for an alarm that nobody clicked on. */
  lemma {:induction false} RequestHasACause(s: State, steps: seq<Step>, t: State, id: int)
    requires Run(s, steps, t) && !Wanted(s, id) && Wanted(t, id)
    ensures Click(id, true) in steps || Click(id, false) in steps
  {
    if steps != [] {
      var mid := LastStep(s, steps, t);
      if Wanted(mid, id) {
        RequestHasACause(s, steps[..|steps| - 1], mid, id);
      } else {
        StepWants(mid, steps[|steps| - 1], id);
      }
    }
  }

  lemma StepClears(s: State, e: Step, id: int)
    requires Enabled(s, e) && id in s.pending && id !in Next(s, e).pending
    ensures e == Receive(Reply(id, true))
  {
  }

  /** An entry leaves the queue only by a success that is received. */
  lemma {:induction false} ClearingHasACause(s: State, steps: seq<Step>, t: State, id: int)
    requires Run(s, steps, t) && id in s.pending && id !in t.pending
    ensures Receive(Reply(id, true)) in steps
  {
    if steps != [] {
      var mid := LastStep(s, steps, t);
      if id !in mid.pending {
        ClearingHasACause(s, steps[..|steps| - 1], mid, id);
      } else {
        StepClears(mid, steps[|steps| - 1], id);
      }
    }
  }

  lemma StepReplies(s: State, e: Step, id: int)
    requires Enabled(s, e) && Reply(id, true) !in s.replies && Reply(id, true) in Next(s, e).replies
    ensures e == Deliver(id, Done) && id in s.alarms && !s.alarms[id]
  {
  }

  /** A success is sent only for a request that was carried out and reported, on an alarm
      that was open. */
  lemma {:induction false} SuccessHasACause(s: State, steps: seq<Step>, t: State, id: int)
    requires Run(s, steps, t) && Reply(id, true) !in s.replies && Reply(id, true) in t.replies
    ensures Deliver(id, Done) in steps && !Acked(s.alarms, id)
  {
    if steps != [] {
      var mid := LastStep(s, steps, t);
      var last := |steps| - 1;
      if Reply(id, true) in mid.replies {
        SuccessHasACause(s, steps[..last], mid, id);
      } else {
        StepReplies(mid, steps[last], id);
        if Acked(s.alarms, id) { AckIsNeverUndone(s, steps[..last], mid, id); }
      }
    }
  }

  // ---- What the panel shows ----

  /** The panel forgets the mark. */
  predicate Unmarks(e: Step, id: int) { e.Restart? || e == Receive(Reply(id, true)) }

  /** The alarm was clicked on while offline, and the mark has not been taken away since. */
  ghost predicate Marked(steps: seq<Step>, id: int) {
    exists i :: 0 <= i < |steps| && steps[i] == Click(id, false) && forall j | i < j < |steps| :: !Unmarks(steps[j], id)
  }

  lemma MarkedNext(steps: seq<Step>, id: int)
    requires steps != []
    ensures var last := |steps| - 1;
            Marked(steps, id) <==> steps[last] == Click(id, false) || (Marked(steps[..last], id) && !Unmarks(steps[last], id))
  {
    var last := |steps| - 1;
    var before := steps[..last];
    assert forall i | 0 <= i < last :: before[i] == steps[i];
    if Marked(before, id) && !Unmarks(steps[last], id) {
      var i :| 0 <= i < |before| && before[i] == Click(id, false) && forall j | i < j < |before| :: !Unmarks(before[j], id);
      assert steps[i] == Click(id, false);
    }
  }

  lemma StepMarks(s: State, e: Step, id: int)
    requires Enabled(s, e)
    ensures id in Next(s, e).shownQueued <==> e == Click(id, false) || (id in s.shownQueued && !Unmarks(e, id))
  {
    hide AnswersOk, Updated, Queued, Cleared, Plus, Minus, Flushed, Enabled;
  }

  /** The panel marks an alarm as queued exactly if it was clicked on while offline, and
      since then the client has neither been restarted nor heard of a success. */
  lemma {:induction false} ShownExactly(open: bool, alarms: map<int, bool>, steps: seq<Step>, t: State, id: int)
    requires Run(Initial(open, alarms), steps, t)
    ensures id in t.shownQueued <==> Marked(steps, id)
  {
    if steps != [] {
      var mid := LastStep(Initial(open, alarms), steps, t);
      ShownExactly(open, alarms, steps[..|steps| - 1], mid, id);
      MarkedNext(steps, id);
      StepMarks(mid, steps[|steps| - 1], id);
    }
  }
}
