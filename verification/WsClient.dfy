/** Reconnecting the client's WebSocket with exponential back-off. */
module WsClient {
  import opened Wrappers

  function Pow2(k: nat): nat { if k == 0 then 1 else 2 * Pow2(k - 1) }

  function Clamped(attempt: int): (k: nat)
    ensures k <= 15
  {
    var least := if attempt < 15 then attempt else 15;
    if least < 0 then 0 else least
  }

  /** `reconnect_delay_ms`. */
  function Delay(attempt: int): int {
    var delay := 1000 * Pow2(Clamped(attempt));
    if delay < 30000 then delay else 30000
  }

  lemma {:induction false} Pow2Grows(j: nat, k: nat)
    requires j <= k
    ensures 1 <= Pow2(j) <= Pow2(k)
  {
    if k > 0 {
      if j == k { Pow2Grows(j - 1, k - 1); } else { Pow2Grows(j, k - 1); }
    }
  }

  /** Capping the exponent at 15 changes nothing: the delay is min(1000 * 2^k, 30000). */
  lemma DelayIsCappedPower(k: nat)
    ensures Delay(k) == if 1000 * Pow2(k) < 30000 then 1000 * Pow2(k) else 30000
  {
    if k > 15 {
      Pow2Grows(15, k);
      Pow2Grows(5, 15);
      assert Pow2(5) == 32;
    }
  }

  lemma DelayGrowsWithinBounds(j: int, k: int)
    requires j <= k
    ensures 1000 <= Delay(j) <= Delay(k) <= 30000
  {
    Pow2Grows(Clamped(j), Clamped(k));
  }

  /** What happened to the client, from its construction on. */
  datatype Event =
    | UrlSet(url: string)
    | AutoSet(on: bool)
    | StartAsked
    | StopAsked
    | Connected
    | Dropped
    | TimerRanOut

  // ---- What the client should be, given everything that happened ----

  function Before(events: seq<Event>): seq<Event>
    requires events != []
  {
    events[..|events| - 1]
  }

  /** The address set last. */
  function UrlOf(events: seq<Event>): string {
    if events == [] then ""
    else
      match events[|events| - 1]
      case UrlSet(url) => url
      case _ => UrlOf(Before(events))
  }

  /** Whether reconnecting was last switched on; it is on to begin with. */
  function AutoOf(events: seq<Event>): bool {
    if events == [] then true
    else
      match events[|events| - 1]
      case AutoSet(on) => on
      case _ => AutoOf(Before(events))
  }

  /** Whether the client was told to disconnect, and not since to connect to an address. */
  function ManualOf(events: seq<Event>): bool {
    if events == [] then false
    else
      var before := Before(events);
      match events[|events| - 1]
      case StopAsked => true
      case StartAsked => if UrlOf(before) == "" then ManualOf(before) else false
      case _ => ManualOf(before)
  }

  function ConnectedOf(events: seq<Event>): bool {
    if events == [] then false
    else
      match events[|events| - 1]
      case Connected => true
      case Dropped => false
      case _ => ConnectedOf(Before(events))
  }

  /** A drop now is one to recover from. */
  predicate Recovers(events: seq<Event>) {
    AutoOf(events) && !ManualOf(events) && UrlOf(events) != ""
  }

  /** Drops to recover from since the client last connected or was last told to stop. */
  function Streak(events: seq<Event>): nat {
    if events == [] then 0
    else
      var before := Before(events);
      match events[|events| - 1]
      case Connected | StopAsked => 0
      case Dropped => Streak(before) + if Recovers(before) then 1 else 0
      case _ => Streak(before)
  }

  /** The delay of the reconnect timer, if it is armed. */
  function TimerOf(events: seq<Event>): Option<int> {
    if events == [] then None
    else
      var before := Before(events);
      match events[|events| - 1]
      case Dropped => if Recovers(before) then Some(Delay(Streak(before))) else TimerOf(before)
      case Connected | StopAsked | TimerRanOut => None
      case StartAsked => if UrlOf(before) == "" then TimerOf(before) else None
      case AutoSet(on) => if on then TimerOf(before) else None
      case UrlSet(_) => TimerOf(before)
  }

  /** An armed timer means that reconnecting is still wanted, and a client that is connected
      has no drops to recover from. */
  lemma {:induction false} TimerMeansWanted(events: seq<Event>)
    ensures TimerOf(events).Some? ==> AutoOf(events) && !ManualOf(events) && !ConnectedOf(events)
    ensures ConnectedOf(events) ==> Streak(events) == 0
  {
    if events != [] { TimerMeansWanted(Before(events)); }
  }

  // ---- The settings in terms of the events themselves ----

  /** Nobody has switched reconnecting off without switching it on again. */
  ghost predicate AutoOn(events: seq<Event>) {
    forall i | 0 <= i < |events| && events[i] == AutoSet(false) ::
      exists j :: i < j < |events| && events[j] == AutoSet(true)
  }

  /** Some address was set that is not empty, and none since. */
  ghost predicate HasUrl(events: seq<Event>) {
    exists i :: 0 <= i < |events| && events[i].UrlSet? && events[i].url != ""
                && forall j | i < j < |events| :: !events[j].UrlSet?
  }

  /** After every request to disconnect there was one to connect, at a time when there was
      an address. */
  ghost predicate NotStopped(events: seq<Event>) {
    forall i | 0 <= i < |events| && events[i].StopAsked? :: StartedAfter(events, i)
  }

  ghost predicate StartedAfter(events: seq<Event>, i: int) {
    exists j :: i < j < |events| && 0 <= j && events[j].StartAsked? && HasUrl(events[..j])
  }

  lemma {:induction false} HasUrlExactly(events: seq<Event>)
    ensures HasUrl(events) <==> UrlOf(events) != ""
  {
    if events != [] {
      var last := |events| - 1;
      var before := Before(events);
      HasUrlExactly(before);
      if events[last].UrlSet? {
        if events[last].url != "" { assert HasUrl(events); }
      } else if HasUrl(before) {
        var i :| 0 <= i < |before| && before[i].UrlSet? && before[i].url != ""
                 && forall j | i < j < |before| :: !before[j].UrlSet?;
        assert events[i] == before[i];
        assert forall j | i < j < last :: events[j] == before[j];
      }
    }
  }

  lemma {:induction false} AutoOnExactly(events: seq<Event>)
    ensures AutoOn(events) <==> AutoOf(events)
  {
    if events != [] {
      var last := |events| - 1;
      var before := Before(events);
      AutoOnExactly(before);
      assert forall i | 0 <= i < last :: events[i] == before[i];
      if events[last].AutoSet? {
        if !events[last].on { assert events[last] == AutoSet(false); }
      } else if AutoOn(before) {
        forall i | 0 <= i < |events| && events[i] == AutoSet(false)
          ensures exists j :: i < j < |events| && events[j] == AutoSet(true)
        {
          var j :| i < j < |before| && before[j] == AutoSet(true);
          assert events[j] == AutoSet(true);
        }
      } else {
        var i :| 0 <= i < |before| && before[i] == AutoSet(false)
                 && forall j | i < j < |before| :: before[j] != AutoSet(true);
        assert events[i] == AutoSet(false);
        assert forall j | i < j < |events| :: events[j] != AutoSet(true);
      }
    }
  }

  lemma StartedAfterNext(events: seq<Event>, i: nat)
    requires i < |events|
    ensures var last := |events| - 1;
            StartedAfter(events, i)
            <==> i < last && (StartedAfter(Before(events), i) || (events[last].StartAsked? && HasUrl(Before(events))))
  {
    hide HasUrl;
    var last, before := |events| - 1, Before(events);
    assert forall j | 0 <= j < last :: events[j] == before[j] && events[..j] == before[..j];
    assert events[..last] == before;
  }

  lemma {:induction false} NotStoppedExactly(events: seq<Event>)
    ensures NotStopped(events) <==> !ManualOf(events)
  {
    if events != [] {
      var last := |events| - 1;
      var before := Before(events);
      NotStoppedExactly(before);
      HasUrlExactly(before);
      hide HasUrl, StartedAfter;
      forall i: nat | i < |events|
        ensures StartedAfter(events, i)
                <==> i < last && (StartedAfter(before, i) || (events[last].StartAsked? && HasUrl(before)))
      {
        StartedAfterNext(events, i);
      }
      assert forall i | 0 <= i < last :: before[i] == events[i];
    }
  }

  /** A drop arms the timer, with the delay of its streak, exactly if nobody has switched
      reconnecting off or disconnected the client without taking it back, and there is an
      address; otherwise it leaves the timer alone. */
  lemma DropArmsTheTimerExactly(events: seq<Event>)
    ensures TimerOf(events + [Dropped])
         == if AutoOn(events) && NotStopped(events) && HasUrl(events) then Some(Delay(Streak(events)))
            else TimerOf(events)
  {
    AutoOnExactly(events);
    NotStoppedExactly(events);
    HasUrlExactly(events);
    hide Delay, AutoOn, NotStopped, HasUrl;
    assert Before(events + [Dropped]) == events;
  }

  // ---- The client ----

  class WsClient {
    var url: string
    var connected: bool
    var autoReconnect: bool
    var manualDisconnect: bool
    var attempt: nat
    var timer: Option<int>      // the delay it was started with
    ghost var history: seq<Event>

    /** Every field is what the history makes it. */
    ghost predicate Valid()
      reads this
    {
      && url == UrlOf(history) && autoReconnect == AutoOf(history) && manualDisconnect == ManualOf(history)
      && connected == ConnectedOf(history) && attempt == Streak(history) && timer == TimerOf(history)
    }

    constructor ()
      ensures Valid() && history == []
      ensures url == "" && autoReconnect && !manualDisconnect && !connected && attempt == 0 && timer.None?
    {
      url, connected, autoReconnect, manualDisconnect, attempt, timer := "", false, true, false, 0, None;
      history := [];
    }

    method SetUrl(newUrl: string)
      requires Valid()
      modifies this
      ensures Valid() && history == old(history) + [UrlSet(newUrl)]
      ensures url == newUrl && autoReconnect == old(autoReconnect) && manualDisconnect == old(manualDisconnect)
      ensures connected == old(connected) && attempt == old(attempt) && timer == old(timer)
    {
      history := history + [UrlSet(newUrl)];
      assert Before(history) == old(history);
      if url == newUrl { return; }
      url := newUrl;
    }

    method SetAutoReconnect(enabled: bool)
      requires Valid()
      modifies this
      ensures Valid() && history == old(history) + [AutoSet(enabled)]
      ensures timer == if enabled then old(timer) else None
      ensures autoReconnect == enabled && url == old(url) && manualDisconnect == old(manualDisconnect)
      ensures connected == old(connected) && attempt == old(attempt)
    {
      TimerMeansWanted(history);
      history := history + [AutoSet(enabled)];
      assert Before(history) == old(history);
      if autoReconnect == enabled {
        return;
      }
      autoReconnect := enabled;
      if !enabled { timer := None; }
    }

    /** Returns whether a connection attempt is started; `idle` says that the socket is
        neither connected nor connecting. */
    method ConnectToServer(idle: bool) returns (opens: bool)
      requires Valid()
      modifies this
      ensures Valid() && history == old(history) + [StartAsked]
      ensures opens <==> url != "" && idle
      ensures if url != "" then timer.None? && !manualDisconnect
              else timer == old(timer) && manualDisconnect == old(manualDisconnect)
      ensures url == old(url) && autoReconnect == old(autoReconnect)
      ensures connected == old(connected) && attempt == old(attempt)
    {
      history := history + [StartAsked];
      assert Before(history) == old(history);
      if url == "" { return false; }
      manualDisconnect := false;
      timer := None;
      opens := idle;
    }

    method DisconnectFromServer()
      requires Valid()
      modifies this
      ensures Valid() && history == old(history) + [StopAsked]
      ensures manualDisconnect && timer.None? && attempt == 0
      ensures url == old(url) && autoReconnect == old(autoReconnect) && connected == old(connected)
    {
      history := history + [StopAsked];
      assert Before(history) == old(history);
      manualDisconnect := true;
      timer := None;
      attempt := 0;
    }

    /** The timer runs out. Being armed means that reconnecting is still wanted. */
    method TryReconnect(idle: bool) returns (opens: bool)
      requires Valid() && timer.Some?
      modifies this
      ensures Valid() && history == old(history) + [TimerRanOut]
      ensures opens <==> url != "" && idle
      ensures timer.None? && url == old(url) && autoReconnect == old(autoReconnect)
      ensures manualDisconnect == old(manualDisconnect) && connected == old(connected) && attempt == old(attempt)
    {
      TimerMeansWanted(history);
      history := history + [TimerRanOut];
      assert Before(history) == old(history);
      timer := None;
      if !autoReconnect || manualDisconnect || url == "" { return false; }
      opens := idle;
    }

    method OnConnected()
      requires Valid()
      modifies this
      ensures Valid() && history == old(history) + [Connected]
      ensures connected && timer.None? && attempt == 0
      ensures url == old(url) && autoReconnect == old(autoReconnect) && manualDisconnect == old(manualDisconnect)
    {
      history := history + [Connected];
      assert Before(history) == old(history);
      attempt := 0;
      timer := None;
      connected := true;
    }

    /** A drop that is not wanted arms the timer; its delay depends on how many such drops
        in a row there were before it. */
    method OnDisconnected()
      requires Valid()
      modifies this
      ensures Valid() && history == old(history) + [Dropped]
      ensures !connected && url == old(url) && autoReconnect == old(autoReconnect)
      ensures manualDisconnect == old(manualDisconnect)
      ensures if autoReconnect && !manualDisconnect && url != "" then
                timer == Some(Delay(old(attempt))) && attempt == old(attempt) + 1
              else
                timer == old(timer) && attempt == old(attempt)
    {
      hide Delay;
      history := history + [Dropped];
      assert Before(history) == old(history);
      connected := false;
      if autoReconnect && !manualDisconnect && url != "" {
        var delay := Delay(attempt);
        attempt := attempt + 1;
        timer := Some(delay);
      }
    }
  }
}
