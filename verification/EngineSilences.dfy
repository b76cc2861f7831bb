/** What silences do to alerts over whole calls: what releaseHeld leaves behind, and that
    downtime planned under a silence never pages. */
module EngineSilences {
  import opened Alerts
  import opened Clocks
  import EngineRuns
  import opened EngineState

  predicate InFlap(s: State, cfg: Config, kind: string, key: string, now: Time) {
    ResolvedAt(s, kind, key).Some? && now - ResolvedAt(s, kind, key).value < cfg.flap
  }

  ghost predicate Closed(s: State, key: string) {
    forall kind :: !Open(s, kind, key)
  }

  /** The dedup maps of s and t agree on a key. */
  ghost predicate SameDedup(s: State, t: State, key: string) {
    forall kind :: (Open(s, kind, key) <==> Open(t, kind, key)) && ResolvedAt(s, kind, key) == ResolvedAt(t, kind, key)
  }

  predicate NoEvent(events: seq<Event>, key: string) {
    forall i :: 0 <= i < |events| ==> events[i].key != key
  }

  /** Dispatch has nothing left to fill in. */
  predicate IsPrepared(a: Alert) {
    && (a.key == "" ==> a.message == "") && a.time != 0
    && (a.kind == "" ==> (a.kind, a.target) == SplitKey(a.key))
  }

  lemma PreparedIsPrepared(a: Alert, now: Time)
    requires now != 0
    ensures IsPrepared(Prepared(a, now))
    ensures IsPrepared(a) ==> Prepared(a, now) == a
  {}

  /** Held alerts are raises as Dispatch prepared them, under their own key. */
  ghost predicate HeldOk(s: State) {
    forall key :: key in s.held ==> s.held[key].key == key && !s.held[key].resolved && IsPrepared(s.held[key])
  }

  // ----- One dispatch -----

  lemma DecideOwn(s: State, cfg: Config, kind: string, a: Alert, now: Time)
    ensures var (ok, t) := ShouldSend(s, cfg, kind, a, now);
            && t.(sent := s.sent, flapped := s.flapped) == s
            && (!a.resolved ==> Open(t, kind, a.key) || InFlap(t, cfg, kind, a.key, now))
            && (a.resolved ==> !Open(t, kind, a.key) && (ok ==> Open(s, kind, a.key)))
  {
    DestUpdate(s, kind, Decide(DestOf(s, kind), cfg, a, now).1, kind);
  }

  lemma DecideOthers(s: State, cfg: Config, kind: string, a: Alert, now: Time, key: string)
    requires key != a.key
    ensures SameDedup(s, ShouldSend(s, cfg, kind, a, now).1, key)
  {
    var d, t := Decide(DestOf(s, kind), cfg, a, now).1, ShouldSend(s, cfg, kind, a, now).1;
    forall k
      ensures Open(s, k, key) <==> Open(t, k, key)
      ensures ResolvedAt(s, k, key) == ResolvedAt(t, k, key)
    {
      DestUpdate(s, kind, d, k);
      hide Inner, WithDest;
      assert DestOf(t, k).sent == Inner(t.sent, k) && DestOf(t, k).flapped == Inner(t.flapped, k);
    }
  }

  /** Deciding again for another destination keeps what was decided for this one. */
  lemma DecideOtherKind(s: State, cfg: Config, kind: string, a: Alert, now: Time, k: string)
    requires k != kind
    ensures var t := ShouldSend(s, cfg, kind, a, now).1;
            (Open(s, k, a.key) <==> Open(t, k, a.key)) && ResolvedAt(s, k, a.key) == ResolvedAt(t, k, a.key)
  {
    var t := ShouldSend(s, cfg, kind, a, now).1;
    DestUpdate(s, kind, Decide(DestOf(s, kind), cfg, a, now).1, k);
    hide Inner, WithDest;
    assert DestOf(t, k).sent == Inner(t.sent, k) && DestOf(t, k).flapped == Inner(t.flapped, k);
  }

  /** Sending to a list of destinations touches only the alert's own key. */
  lemma {:induction false} SendAllOthers(s: State, cfg: Config, kinds: seq<string>, a: Alert, now: Time, key: string)
    requires key != a.key
    ensures var (t, events) := SendAll(s, cfg, kinds, a, now);
            SameDedup(s, t, key) && NoEvent(events, key)
    decreases |kinds|
  {
    hide ShouldSend, Open, ResolvedAt;
    if kinds != [] {
      if kinds[0] in cfg.notifiers {
        DecideOthers(s, cfg, kinds[0], a, now, key);
        SendAllOthers(ShouldSend(s, cfg, kinds[0], a, now).1, cfg, kinds[1..], a, now, key);
      } else {
        SendAllOthers(s, cfg, kinds[1..], a, now, key);
      }
    }
  }

  lemma {:induction false} SendAllFrame(s: State, cfg: Config, kinds: seq<string>, a: Alert, now: Time)
    ensures var (t, events) := SendAll(s, cfg, kinds, a, now);
            && t.active == s.active && t.silences == s.silences && t.held == s.held
            && (a.resolved && Closed(s, a.key) ==> events == [] && Closed(t, a.key))
    decreases |kinds|
  {
    if kinds != [] {
      if kinds[0] in cfg.notifiers {
        var t := ShouldSend(s, cfg, kinds[0], a, now).1;
        DecideOwn(s, cfg, kinds[0], a, now);
        hide ShouldSend, Open;
        SendAllFrame(t, cfg, kinds[1..], a, now);
        if a.resolved && Closed(s, a.key) {
          forall k
            ensures !Open(t, k, a.key)
          {
            if k != kinds[0] {
              DecideOtherKind(s, cfg, kinds[0], a, now, k);
            }
          }
        }
      } else {
        SendAllFrame(s, cfg, kinds[1..], a, now);
      }
    }
  }

  /** After a raise went through the list, each registered destination on it has the alert
      open or is within its flap window. */
  lemma {:induction false} SendAllReaches(s: State, cfg: Config, kinds: seq<string>, a: Alert, now: Time, kind: string)
    requires !a.resolved
    requires (kind in kinds && kind in cfg.notifiers) || Open(s, kind, a.key) || InFlap(s, cfg, kind, a.key, now)
    ensures var t := SendAll(s, cfg, kinds, a, now).0;
            Open(t, kind, a.key) || InFlap(t, cfg, kind, a.key, now)
    decreases |kinds|
  {
    if kinds != [] {
      if kinds[0] in cfg.notifiers {
        DecideOwn(s, cfg, kinds[0], a, now);
        if kind != kinds[0] {
          DecideOtherKind(s, cfg, kinds[0], a, now, kind);
        }
        hide ShouldSend, Open, ResolvedAt;
        SendAllReaches(ShouldSend(s, cfg, kinds[0], a, now).1, cfg, kinds[1..], a, now, kind);
      } else {
        SendAllReaches(s, cfg, kinds[1..], a, now, kind);
      }
    }
  }

  // ----- releaseHeld -----

  lemma RegisterUnmuted(s: State, cfg: Config, a: Alert, now: Time)
    requires !a.resolved && !Silenced(s, cfg, a, now)
    ensures var (muted, t) := Register(s, cfg, a, now);
            !muted && t == s.(active := t.active)
  {
    hide Inner;
  }

  /** Dispatching an alert no silence mutes: it reaches its destinations, and nothing else
      changes but `active`. */
  lemma DispatchUnmuted(s: State, cfg: Config, a: Alert, resolver: Alert -> seq<string>, now: Time)
    requires now != 0 && IsPrepared(a) && !a.resolved && !Silenced(s, cfg, a, now)
    ensures var (t, events) := Dispatch(s, cfg, a, resolver, now);
            && t.silences == s.silences && t.held == s.held
            && (forall kind :: kind in resolver(a) && kind in cfg.notifiers ==>
                  Open(t, kind, a.key) || InFlap(t, cfg, kind, a.key, now))
            && (forall key :: key != a.key ==> SameDedup(s, t, key) && NoEvent(events, key))
  {
    PreparedIsPrepared(a, now);
    RegisterUnmuted(s, cfg, a, now);
    var u := Register(s, cfg, a, now).1;
    var (t, events) := SendAll(u, cfg, resolver(a), a, now);
    hide Register, Silenced, SameDedup, SendAll;
    SendAllFrame(u, cfg, resolver(a), a, now);
    forall kind | kind in resolver(a) && kind in cfg.notifiers
      ensures Open(t, kind, a.key) || InFlap(t, cfg, kind, a.key, now)
    {
      SendAllReaches(u, cfg, resolver(a), a, now, kind);
    }
    forall key
      ensures key != a.key ==> SameDedup(s, t, key) && NoEvent(events, key)
    {
      if key != a.key {
        SendAllOthers(u, cfg, resolver(a), a, now, key);
        SameDedupFrame(s, u, t, key);
      }
    }
  }

  lemma SameDedupFrame(s: State, u: State, t: State, key: string)
    requires s.sent == u.sent && s.flapped == u.flapped && SameDedup(u, t, key)
    ensures SameDedup(s, t, key)
  {}

  lemma SameDedupTransitive(s: State, t: State, u: State, key: string)
    requires SameDedup(s, t, key) && SameDedup(t, u, key)
    ensures SameDedup(s, u, key)
  {}

  /** Alerts that are dispatched one after the other: raises, prepared, under distinct keys. */
  ghost predicate Batch(alerts: seq<Alert>) {
    && (forall i :: 0 <= i < |alerts| ==> !alerts[i].resolved && IsPrepared(alerts[i]))
    && (forall i, j :: 0 <= i < j < |alerts| ==> alerts[i].key != alerts[j].key)
  }

  predicate Reached(t: State, cfg: Config, a: Alert, resolver: Alert -> seq<string>, now: Time) {
    forall i :: 0 <= i < |resolver(a)| && resolver(a)[i] in cfg.notifiers ==>
      Open(t, resolver(a)[i], a.key) || InFlap(t, cfg, resolver(a)[i], a.key, now)
  }

  lemma {:induction false} DispatchBatch(s: State, cfg: Config, alerts: seq<Alert>, resolver: Alert -> seq<string>,
                                         now: Time)
    requires now != 0 && Batch(alerts)
    requires forall i :: 0 <= i < |alerts| ==> !Silenced(s, cfg, alerts[i], now)
    ensures var (t, events) := DispatchEach(s, cfg, alerts, resolver, now);
            && t.silences == s.silences && t.held == s.held
            && (forall i :: 0 <= i < |alerts| ==> Reached(t, cfg, alerts[i], resolver, now))
            && (forall key :: (forall i :: 0 <= i < |alerts| ==> alerts[i].key != key) ==>
                  SameDedup(s, t, key) && NoEvent(events, key))
    decreases |alerts|
  {
    hide Silenced, Dispatch, SameDedup, Open, ResolvedAt;
    if alerts == [] {
      forall key
        ensures SameDedup(s, s, key)
      {
        SameDedupReflexive(s, key);
      }
    } else {
      var a, rest := alerts[0], alerts[1..];
      var (u, first) := Dispatch(s, cfg, a, resolver, now);
      var (t, more) := DispatchEach(u, cfg, rest, resolver, now);
      DispatchUnmuted(s, cfg, a, resolver, now);
      forall i | 0 <= i < |rest|
        ensures !Silenced(u, cfg, rest[i], now)
      {
        assert rest[i] == alerts[i + 1];
        SilencedBySilences(s, u, cfg, rest[i], now);
      }
      DispatchBatch(u, cfg, rest, resolver, now);
      assert Reached(t, cfg, a, resolver, now) by {
        assert forall i :: 0 <= i < |rest| ==> rest[i].key == alerts[i + 1].key != a.key;
        ReachedFrame(u, t, cfg, a, resolver, now);
      }
      forall key | forall i :: 0 <= i < |alerts| ==> alerts[i].key != key
        ensures SameDedup(s, t, key) && NoEvent(first + more, key)
      {
        assert forall i :: 0 <= i < |rest| ==> rest[i].key == alerts[i + 1].key != key;
        SameDedupTransitive(s, u, t, key);
      }
    }
  }

  lemma SameDedupReflexive(s: State, key: string)
    ensures SameDedup(s, s, key)
  {}

  lemma ReachedFrame(u: State, t: State, cfg: Config, a: Alert, resolver: Alert -> seq<string>, now: Time)
    requires SameDedup(u, t, a.key)
    requires forall kind :: kind in resolver(a) && kind in cfg.notifiers ==>
              Open(u, kind, a.key) || InFlap(u, cfg, kind, a.key, now)
    ensures Reached(t, cfg, a, resolver, now)
  {
    hide Open, ResolvedAt;
  }

  lemma ReleaseKeepsDedup(s: State, cfg: Config, now: Time)
    ensures var t := Release(s, cfg, now); t.sent == s.sent && t.flapped == s.flapped && t.silences == s.silences
  {}

  /** What releaseHeld takes out is a batch of unmuted raises under the keys of the walk. */
  lemma ReleasedBatch(s: State, cfg: Config, order: seq<string>, now: Time)
    requires HeldOk(s) && IsOrder(DueKeys(s, cfg, now), order)
    ensures var alerts := HeldAlerts(s, order);
            && Batch(alerts) && |alerts| == |order|
            && (forall i :: 0 <= i < |alerts| ==> alerts[i].key == order[i])
            && (forall i :: 0 <= i < |alerts| ==> !Silenced(Release(s, cfg, now), cfg, alerts[i], now))
  {
    var alerts := HeldAlerts(s, order);
    hide Silenced, IsPrepared, Inner;
    forall i | 0 <= i < |alerts|
      ensures !Silenced(Release(s, cfg, now), cfg, alerts[i], now)
    {
      assert order[i] in DueKeys(s, cfg, now);
      ReleaseKeepsDedup(s, cfg, now);
      SilencedBySilences(s, Release(s, cfg, now), cfg, alerts[i], now);
    }
    assert forall i :: 0 <= i < |alerts| ==> alerts[i] == s.held[order[i]] && alerts[i].key == order[i];
  }

  /** With the clock fixed during the call, releaseHeld leaves in `held` exactly the alerts
      still muted; every alert it releases is then open on each of its registered
      destinations or within that destination's flap window; and the dedup state of every
      other key is untouched. */
  lemma ReleaseConserves(s: State, cfg: Config, order: seq<string>, resolver: Alert -> seq<string>, now: Time)
    requires now != 0 && HeldOk(s) && IsOrder(DueKeys(s, cfg, now), order)
    ensures var (t, events) := ReleaseAll(s, cfg, order, resolver, now);
            && t.silences == s.silences
            && t.held == (map key | key in s.held && Silenced(s, cfg, s.held[key], now) :: s.held[key])
            && (forall key :: key in DueKeys(s, cfg, now) ==> Reached(t, cfg, s.held[key], resolver, now))
            && (forall key :: key !in DueKeys(s, cfg, now) ==> SameDedup(s, t, key) && NoEvent(events, key))
  {
    var u := Release(s, cfg, now);
    var alerts := HeldAlerts(s, order);
    var (t, events) := DispatchEach(u, cfg, alerts, resolver, now);
    ReleasedBatch(s, cfg, order, now);
    assert u.held == (map key | key in s.held && Silenced(s, cfg, s.held[key], now) :: s.held[key]);
    hide Silenced, SameDedup, Reached, NoEvent, DispatchEach, IsPrepared, Inner, Batch, HeldOk, Release;
    DispatchBatch(u, cfg, alerts, resolver, now);
    assert u.sent == s.sent && u.flapped == s.flapped by { ReleaseKeepsDedup(s, cfg, now); }
    forall key | key in DueKeys(s, cfg, now)
      ensures Reached(t, cfg, s.held[key], resolver, now)
    {
      var i :| 0 <= i < |order| && order[i] == key;
      assert alerts[i] == s.held[key];
    }
    forall key | key !in DueKeys(s, cfg, now)
      ensures SameDedup(s, t, key) && NoEvent(events, key)
    {
      assert forall i :: 0 <= i < |alerts| ==> alerts[i].key == order[i] != key;
      SameDedupFrame(s, u, t, key);
    }
  }

  // ----- Planned downtime -----

  /** A whole call, taken with no other in between. `order` is the order in which the walk
      over `held` meets the due keys, `items` the reminders in the order of the walk over
      `sent`. */
  datatype Call =
    | Dispatching(alert: Alert, resolver: Alert -> seq<string>)
    | ReleasingHeld(order: seq<string>, resolver: Alert -> seq<string>)
    | ExpiringSilence(id: string, order: seq<string>, resolver: Alert -> seq<string>)
    | AddingSilence(silence: Silence)
    | PruningSilences
    | Reminding(items: seq<ReminderItem>, resolver: Alert -> seq<string>)

  datatype Timed = Timed(call: Call, now: Time)

  /** An order that is not a walk over the due keys is not a call, nor is a list that is not
      the tick's reminders: nothing happens. */
  ghost function Perform(s: State, cfg: Config, c: Timed): (State, seq<Event>) {
    match c.call
    case Dispatching(a, resolver) => Dispatch(s, cfg, a, resolver, c.now)
    case ReleasingHeld(order, resolver) => ReleaseIfOrder(s, cfg, order, resolver, c.now)
    case ExpiringSilence(id, order, resolver) =>
      if id in s.silences then ReleaseIfOrder(Expire(s, id, c.now), cfg, order, resolver, c.now) else (s, [])
    case AddingSilence(silence) => (Store(s, silence), [])
    case PruningSilences => (Prune(s, c.now), [])
    case Reminding(items, resolver) =>
      if cfg.remind > 0 && IsReminderList(s, cfg, resolver, items, c.now)
      then (Remind(s, cfg, c.now), ReminderEvents(items, c.now)) else (s, [])
  }

  function ReminderEvents(items: seq<ReminderItem>, now: Time): seq<Event> {
    seq(|items|, i requires 0 <= i < |items| => Event(items[i].kind, items[i].key, Edge.Reminder, now))
  }

  function ReleaseIfOrder(s: State, cfg: Config, order: seq<string>, resolver: Alert -> seq<string>, now: Time)
    : (State, seq<Event>)
  {
    if IsOrder(DueKeys(s, cfg, now), order) then ReleaseAll(s, cfg, order, resolver, now) else (s, [])
  }

  ghost function PerformAll(s: State, cfg: Config, calls: seq<Timed>): (State, seq<Event>)
    decreases |calls|
  {
    if calls == [] then (s, [])
    else
      var (t, events) := Perform(s, cfg, calls[0]);
      var (u, more) := PerformAll(t, cfg, calls[1..]);
      (u, events + more)
  }

  /** The prepared alert a call raises or resolves under `key`, if it is a dispatch of it. */
  predicate Raises(c: Timed, key: string) {
    c.call.Dispatching? && Prepared(c.call.alert, c.now).key == key && !c.call.alert.resolved
  }

  predicate Resolves(c: Timed, key: string) {
    c.call.Dispatching? && Prepared(c.call.alert, c.now).key == key && c.call.alert.resolved
  }

  lemma HeldOkFrame(s: State, t: State)
    requires s.held == t.held && HeldOk(s)
    ensures HeldOk(t)
  {}

  lemma ClosedFrame(s: State, t: State, key: string)
    requires s.sent == t.sent && Closed(s, key)
    ensures Closed(t, key)
  {
    forall kind
      ensures !Open(t, kind, key)
    {
      assert !Open(s, kind, key);
    }
  }

  lemma ClosedSame(s: State, t: State, key: string)
    requires SameDedup(s, t, key) && Closed(s, key)
    ensures Closed(t, key)
  {}

  /** What Dispatch's first section does to `held`, and that it leaves the dedup maps alone. */
  lemma RegisterHeld(s: State, cfg: Config, a: Alert, now: Time)
    ensures var (muted, t) := Register(s, cfg, a, now);
            && t == s.(active := t.active, held := t.held)
            && (a.resolved ==> !muted && t.held == s.held - {a.key})
            && (!a.resolved ==>
                muted == Silenced(s, cfg, a, now) && t.held == if muted then s.held[a.key := a] else s.held)
  {
    hide Inner;
    if !a.resolved {
      SilencedBySilences(s, s.(active := s.active[a.chain := Inner(s.active, a.chain)[a.key := a.time]]), cfg, a, now);
      hide Silenced;
    }
  }

  /** A dispatch leaves `held` alone but for the alert's own key. */
  lemma DispatchHeldOk(s: State, cfg: Config, a: Alert, resolver: Alert -> seq<string>, now: Time)
    requires now != 0 && HeldOk(s)
    ensures var (t, events) := Dispatch(s, cfg, a, resolver, now);
            var p := Prepared(a, now);
            && HeldOk(t) && t.silences == s.silences
            && t.held ==
                if a.resolved then s.held - {p.key} else if Silenced(s, cfg, p, now) then s.held[p.key := p] else s.held
  {
    var p := Prepared(a, now);
    PreparedIsPrepared(a, now);
    RegisterHeld(s, cfg, p, now);
    var u := Register(s, cfg, p, now).1;
    hide Register, Prepared, IsPrepared, Silenced;
    SendAllFrame(u, cfg, resolver(p), p, now);
    hide SendAll;
  }

  /** A dispatch of another key, a muted raise, or a resolve of a key that is open nowhere
      sends nothing about the key. */
  lemma QuietDispatch(s: State, cfg: Config, a: Alert, resolver: Alert -> seq<string>, now: Time, key: string)
    requires now != 0 && Closed(s, key)
    requires var p := Prepared(a, now); p.key == key && !a.resolved ==> Silenced(s, cfg, p, now)
    ensures var (t, events) := Dispatch(s, cfg, a, resolver, now); Closed(t, key) && NoEvent(events, key)
  {
    var p := Prepared(a, now);
    PreparedIsPrepared(a, now);
    RegisterHeld(s, cfg, p, now);
    var (muted, u) := Register(s, cfg, p, now);
    ClosedFrame(s, u, key);
    hide Register, Prepared, Silenced, Closed;
    if !muted {
      SendAllFrame(u, cfg, resolver(p), p, now);
      if p.key != key {
        SendAllOthers(u, cfg, resolver(p), p, now, key);
        ClosedSame(u, SendAll(u, cfg, resolver(p), p, now).0, key);
      }
    }
  }

  /** The key's raise, if the call is one, is muted; its held alert, if a release meets it,
      still is. */
  ghost predicate Muted(s: State, cfg: Config, c: Timed, key: string) {
    && (Raises(c, key) ==> Silenced(s, cfg, Prepared(c.call.alert, c.now), c.now))
    && (c.call.ReleasingHeld? && key in s.held ==> Silenced(s, cfg, s.held[key], c.now))
    && (c.call.ExpiringSilence? && key in s.held ==> Silenced(Expire(s, c.call.id, c.now), cfg, s.held[key], c.now))
  }

  /** A key open nowhere stays so through a call under which it is muted, and nothing is sent
      about it. */
  lemma QuietCall(s: State, cfg: Config, c: Timed, key: string)
    requires c.now != 0 && HeldOk(s) && Closed(s, key) && Muted(s, cfg, c, key)
    ensures var (t, events) := Perform(s, cfg, c);
            && HeldOk(t) && Closed(t, key) && NoEvent(events, key)
            && (Resolves(c, key) ==> key !in t.held)
            && (key in t.held && !Raises(c, key) ==> key in s.held && t.held[key] == s.held[key])
            && (key in t.held && Raises(c, key) ==>
                  t.held[key] == Prepared(c.call.alert, c.now) || (key in s.held && t.held[key] == s.held[key]))
  {
    hide Silenced, Prepared, HeldOk, Closed;
    match c.call {
      case Dispatching(a, resolver) =>
        QuietDispatch(s, cfg, a, resolver, c.now, key);
        DispatchHeldOk(s, cfg, a, resolver, c.now);
        hide Dispatch;
      case ReleasingHeld(order, resolver) => QuietRelease(s, cfg, order, resolver, c.now, key);
      case ExpiringSilence(id, order, resolver) =>
        if id in s.silences {
          ClosedFrame(s, Expire(s, id, c.now), key);
          HeldOkFrame(s, Expire(s, id, c.now));
          QuietRelease(Expire(s, id, c.now), cfg, order, resolver, c.now, key);
        }
      case AddingSilence(silence) =>
        ClosedFrame(s, Store(s, silence), key);
        HeldOkFrame(s, Store(s, silence));
      case PruningSilences =>
        ClosedFrame(s, Prune(s, c.now), key);
        HeldOkFrame(s, Prune(s, c.now));
      case Reminding(items, resolver) => QuietTick(s, cfg, items, resolver, c.now, key);
    }
  }

  lemma RemindFrame(s: State, cfg: Config, now: Time)
    ensures var t := Remind(s, cfg, now);
            && t.active == s.active && t.held == s.held && t.silences == s.silences
            && forall kind, key :: Open(t, kind, key) <==> Open(s, kind, key)
  {}

  /** A reminder tick opens and closes nothing, and reminds only of open alerts. */
  lemma QuietTick(s: State, cfg: Config, items: seq<ReminderItem>, resolver: Alert -> seq<string>, now: Time,
                  key: string)
    requires HeldOk(s) && Closed(s, key)
    ensures HeldOk(Remind(s, cfg, now)) && Closed(Remind(s, cfg, now), key)
    ensures Remind(s, cfg, now).held == s.held && Remind(s, cfg, now).silences == s.silences
    ensures IsReminderList(s, cfg, resolver, items, now) ==> NoEvent(ReminderEvents(items, now), key)
  {
    RemindFrame(s, cfg, now);
    HeldOkFrame(s, Remind(s, cfg, now));
    if IsReminderList(s, cfg, resolver, items, now) {
      forall i | 0 <= i < |items|
        ensures items[i].key != key
      {
        var item := items[i];
        assert multiset(items)[item] > 0;
        assert !Open(s, item.kind, key);
        hide DueEntry;
      }
    }
    hide Remind;
  }

  lemma QuietRelease(s: State, cfg: Config, order: seq<string>, resolver: Alert -> seq<string>, now: Time, key: string)
    requires now != 0 && HeldOk(s) && Closed(s, key)
    requires key in s.held ==> Silenced(s, cfg, s.held[key], now)
    ensures var (t, events) := ReleaseIfOrder(s, cfg, order, resolver, now);
            && HeldOk(t) && Closed(t, key) && NoEvent(events, key)
            && (key in t.held ==> key in s.held && t.held[key] == s.held[key])
  {
    hide Silenced;
    if IsOrder(DueKeys(s, cfg, now), order) {
      ReleaseConserves(s, cfg, order, resolver, now);
      assert key !in DueKeys(s, cfg, now);
      hide ReleaseAll, IsOrder, DueKeys;
    }
  }

  /** While the planned silence stands: the key is closed, and if held, held by it. */
  ghost predicate Standing(s: State, cfg: Config, key: string, silence: Silence) {
    && HeldOk(s) && Closed(s, key)
    && silence.id in s.silences && s.silences[silence.id] == silence
    && (key in s.held ==> silence.Selects(cfg.rx, s.held[key].LabelSet()))
  }

  /** A call made while the planned silence is active and left alone; its raises of the key
      are ones the silence selects. */
  predicate Covered(c: Timed, cfg: Config, key: string, silence: Silence) {
    && c.now != 0 && silence.startsAt <= c.now < silence.endsAt
    && !(c.call.ExpiringSilence? && c.call.id == silence.id)
    && !(c.call.AddingSilence? && c.call.silence.id == silence.id)
    && (Raises(c, key) ==> silence.Selects(cfg.rx, Prepared(c.call.alert, c.now).LabelSet()))
  }

  lemma MutedBy(s: State, cfg: Config, silence: Silence, a: Alert, now: Time)
    requires silence.id in s.silences && s.silences[silence.id] == silence
    requires silence.startsAt <= now < silence.endsAt && silence.Selects(cfg.rx, a.LabelSet())
    ensures Silenced(s, cfg, a, now)
  {}

  lemma CoveredCall(s: State, cfg: Config, c: Timed, key: string, silence: Silence)
    requires Standing(s, cfg, key, silence) && Covered(c, cfg, key, silence)
    ensures var (t, events) := Perform(s, cfg, c);
            Standing(t, cfg, key, silence) && NoEvent(events, key) && (Resolves(c, key) ==> key !in t.held)
  {
    if Raises(c, key) {
      MutedBy(s, cfg, silence, Prepared(c.call.alert, c.now), c.now);
    }
    if key in s.held {
      MutedBy(s, cfg, silence, s.held[key], c.now);
      if c.call.ExpiringSilence? {
        MutedBy(Expire(s, c.call.id, c.now), cfg, silence, s.held[key], c.now);
      }
    }
    QuietCall(s, cfg, c, key);
    SilenceStands(s, cfg, c, silence);
    hide Perform, Silenced, Prepared, HeldOk, Closed;
  }

  lemma SilenceStands(s: State, cfg: Config, c: Timed, silence: Silence)
    requires HeldOk(s) && c.now != 0 && c.now < silence.endsAt
    requires silence.id in s.silences && s.silences[silence.id] == silence
    requires !(c.call.ExpiringSilence? && c.call.id == silence.id)
    requires !(c.call.AddingSilence? && c.call.silence.id == silence.id)
    ensures var t := Perform(s, cfg, c).0; silence.id in t.silences && t.silences[silence.id] == silence
  {
    hide Silenced;
    match c.call {
      case Dispatching(a, resolver) =>
        DispatchHeldOk(s, cfg, a, resolver, c.now);
        hide Dispatch;
      case ReleasingHeld(order, resolver) =>
        if IsOrder(DueKeys(s, cfg, c.now), order) {
          ReleaseConserves(s, cfg, order, resolver, c.now);
        }
        hide ReleaseAll, DueKeys, IsOrder;
      case ExpiringSilence(id, order, resolver) =>
        var u := Expire(s, id, c.now);
        if IsOrder(DueKeys(u, cfg, c.now), order) {
          ReleaseConserves(u, cfg, order, resolver, c.now);
        }
        hide ReleaseAll, DueKeys, IsOrder;
      case AddingSilence(_) =>
      case PruningSilences =>
      case Reminding(_, _) =>
        RemindFrame(s, cfg, c.now);
        hide Remind, IsReminderList;
    }
  }

  lemma {:induction false} CoveredRun(s: State, cfg: Config, calls: seq<Timed>, key: string, silence: Silence)
    requires Standing(s, cfg, key, silence) && forall i :: 0 <= i < |calls| ==> Covered(calls[i], cfg, key, silence)
    ensures var (t, events) := PerformAll(s, cfg, calls); Standing(t, cfg, key, silence) && NoEvent(events, key)
    decreases |calls|
  {
    hide Perform, Standing, Covered;
    if calls != [] {
      CoveredCall(s, cfg, calls[0], key, silence);
      CoveredRun(Perform(s, cfg, calls[0]).0, cfg, calls[1..], key, silence);
    }
  }

  /** Every call of a run finds the key muted: its raises arrive while a silence mutes them,
      and no release meets its alert after the muting has ended. */
  ghost predicate MutedThroughout(s: State, cfg: Config, calls: seq<Timed>, key: string)
    decreases |calls|
  {
    calls == [] ||
    (calls[0].now != 0 && Muted(s, cfg, calls[0], key)
     && MutedThroughout(Perform(s, cfg, calls[0]).0, cfg, calls[1..], key))
  }

  /** A key open nowhere that is muted throughout a run causes no send in it. */
  lemma {:induction false} MutedRunIsQuiet(s: State, cfg: Config, calls: seq<Timed>, key: string)
    requires HeldOk(s) && Closed(s, key) && MutedThroughout(s, cfg, calls, key)
    ensures NoEvent(PerformAll(s, cfg, calls).1, key)
    decreases |calls|
  {
    hide Perform, Muted, HeldOk, Closed;
    if calls != [] {
      QuietCall(s, cfg, calls[0], key);
      MutedRunIsQuiet(Perform(s, cfg, calls[0]).0, cfg, calls[1..], key);
    }
  }

  /** A key that is not held and not raised again is muted from then on. */
  lemma {:induction false} NeverRaisedIsMuted(s: State, cfg: Config, calls: seq<Timed>, key: string)
    requires HeldOk(s) && Closed(s, key) && key !in s.held
    requires forall i :: 0 <= i < |calls| ==> calls[i].now != 0 && !Raises(calls[i], key)
    ensures MutedThroughout(s, cfg, calls, key)
    decreases |calls|
  {
    hide Perform, Raises, HeldOk, Closed, Silenced;
    if calls != [] {
      QuietCall(s, cfg, calls[0], key);
      NeverRaisedIsMuted(Perform(s, cfg, calls[0]).0, cfg, calls[1..], key);
    }
  }

  /** Planned downtime never pages. A key is open nowhere; while a silence stands, every raise
      of it is one the silence selects; it is resolved while the silence still stands; and
      it is not raised again. Whatever else a running engine is called for in between and
      afterwards, reminder ticks and the end of the silence included, no send about the key
      ever happens. */
  lemma {:induction false} PlannedDowntimeNeverPages(s: State, cfg: Config, key: string, silence: Silence,
                                  during: seq<Timed>, resolve: Timed, after: seq<Timed>)
    requires Standing(s, cfg, key, silence)
    requires forall i :: 0 <= i < |during| ==> Covered(during[i], cfg, key, silence)
    requires Covered(resolve, cfg, key, silence) && Resolves(resolve, key)
    requires forall i :: 0 <= i < |after| ==> after[i].now != 0 && !Raises(after[i], key)
    ensures NoEvent(PerformAll(s, cfg, during + [resolve] + after).1, key)
  {
    hide Perform, PerformAll, Covered, Resolves, Raises, HeldOk, Closed, NoEvent, MutedThroughout;
    var (t, early) := PerformAll(s, cfg, during);
    CoveredRun(s, cfg, during, key, silence);
    CoveredCall(t, cfg, resolve, key, silence);
    var (u, events) := Perform(t, cfg, resolve);
    NeverRaisedIsMuted(u, cfg, after, key);
    MutedRunIsQuiet(u, cfg, after, key);
    var late := PerformAll(u, cfg, after).1;
    ThreeStages(s, cfg, during, resolve, after);
    NoEventConcat(early, events, key);
    NoEventConcat(early + events, late, key);
  }

  lemma NoEventConcat(a: seq<Event>, b: seq<Event>, key: string)
    requires NoEvent(a, key) && NoEvent(b, key)
    ensures NoEvent(a + b, key)
  {}

  /** What a run with one call in the middle sends. */
  lemma ThreeStages(s: State, cfg: Config, during: seq<Timed>, middle: Timed, after: seq<Timed>)
    ensures var (t, early) := PerformAll(s, cfg, during);
            var (u, events) := Perform(t, cfg, middle);
            PerformAll(s, cfg, during + [middle] + after).1 == (early + events) + PerformAll(u, cfg, after).1
  {
    var t, rest := PerformAll(s, cfg, during).0, [middle] + after;
    PerformAllConcat(s, cfg, during, rest);
    hide Perform;
    assert during + [middle] + after == during + rest && rest[1..] == after && rest[0] == middle;
  }

  // ----- Held alerts over whole runs -----

  lemma DispatchKeepsActive(s: State, cfg: Config, a: Alert, resolver: Alert -> seq<string>, now: Time)
    requires EngineRuns.HeldAreActive(s)
    ensures EngineRuns.HeldAreActive(Dispatch(s, cfg, a, resolver, now).0)
  {
    var p := Prepared(a, now);
    EngineRuns.RegisterKeepsHeld(s, cfg, p, now);
    SendAllFrame(Register(s, cfg, p, now).1, cfg, resolver(p), p, now);
    hide Register, Prepared, SendAll, Inner;
  }

  lemma {:induction false} BatchKeepsActive(s: State, cfg: Config, alerts: seq<Alert>, resolver: Alert -> seq<string>,
                                            now: Time)
    requires EngineRuns.HeldAreActive(s)
    ensures EngineRuns.HeldAreActive(DispatchEach(s, cfg, alerts, resolver, now).0)
    decreases |alerts|
  {
    hide Dispatch, EngineRuns.HeldAreActive;
    if alerts != [] {
      DispatchKeepsActive(s, cfg, alerts[0], resolver, now);
      BatchKeepsActive(Dispatch(s, cfg, alerts[0], resolver, now).0, cfg, alerts[1..], resolver, now);
    }
  }

  lemma ReleaseIfOrderKeeps(s: State, cfg: Config, order: seq<string>, resolver: Alert -> seq<string>, now: Time)
    requires now != 0 && HeldOk(s) && EngineRuns.HeldAreActive(s)
    ensures var t := ReleaseIfOrder(s, cfg, order, resolver, now).0; HeldOk(t) && EngineRuns.HeldAreActive(t)
  {
    hide Silenced, EngineRuns.HeldAreActive, IsPrepared;
    if IsOrder(DueKeys(s, cfg, now), order) {
      EngineRuns.ReleaseKeepsHeld(s, cfg, now);
      BatchKeepsActive(Release(s, cfg, now), cfg, HeldAlerts(s, order), resolver, now);
      ReleaseConserves(s, cfg, order, resolver, now);
      hide DueKeys, Release;
    }
  }

  lemma HeldFrame(s: State, t: State)
    requires s.held == t.held && s.active == t.active && HeldOk(s) && EngineRuns.HeldAreActive(s)
    ensures HeldOk(t) && EngineRuns.HeldAreActive(t)
  {}

  lemma CallKeepsHeld(s: State, cfg: Config, c: Timed)
    requires c.now != 0 && HeldOk(s) && EngineRuns.HeldAreActive(s)
    ensures var t := Perform(s, cfg, c).0; HeldOk(t) && EngineRuns.HeldAreActive(t)
  {
    match c.call {
      case Dispatching(a, resolver) =>
        DispatchKeepsActive(s, cfg, a, resolver, c.now);
        DispatchHeldOk(s, cfg, a, resolver, c.now);
        hide Dispatch, HeldOk, EngineRuns.HeldAreActive;
      case ReleasingHeld(order, resolver) => ReleaseIfOrderKeeps(s, cfg, order, resolver, c.now);
      case ExpiringSilence(id, order, resolver) =>
        if id in s.silences {
          HeldFrame(s, Expire(s, id, c.now));
          ReleaseIfOrderKeeps(Expire(s, id, c.now), cfg, order, resolver, c.now);
        }
      case AddingSilence(silence) => HeldFrame(s, Store(s, silence));
      case PruningSilences => HeldFrame(s, Prune(s, c.now));
      case Reminding(_, _) =>
        RemindFrame(s, cfg, c.now);
        HeldFrame(s, Remind(s, cfg, c.now));
    }
  }

  lemma {:induction false} CallsKeepHeld(s: State, cfg: Config, calls: seq<Timed>)
    requires HeldOk(s) && EngineRuns.HeldAreActive(s) && forall i :: 0 <= i < |calls| ==> calls[i].now != 0
    ensures var t := PerformAll(s, cfg, calls).0; HeldOk(t) && EngineRuns.HeldAreActive(t)
    decreases |calls|
  {
    hide Perform, HeldOk, EngineRuns.HeldAreActive;
    if calls != [] {
      CallKeepsHeld(s, cfg, calls[0]);
      CallsKeepHeld(Perform(s, cfg, calls[0]).0, cfg, calls[1..]);
    }
  }

  /** Held alerts are conserved. After every run of whole calls, from a new or restarted
      engine, releaseHeld neither loses nor repeats a held alert: it stays held, unchanged,
      exactly if it is still muted, and otherwise it is open on each of its registered
      destinations or within the flap window there. */
  lemma HeldAreConserved(start: State, cfg: Config, calls: seq<Timed>, order: seq<string>,
                         resolver: Alert -> seq<string>, now: Time)
    requires EngineRuns.Booted(start) && now != 0 && forall i :: 0 <= i < |calls| ==> calls[i].now != 0
    requires IsOrder(DueKeys(PerformAll(start, cfg, calls).0, cfg, now), order)
    ensures var s := PerformAll(start, cfg, calls).0;
            var t := ReleaseAll(s, cfg, order, resolver, now).0;
            && (forall key :: key in t.held ==> key in s.held)
            && (forall key :: key in s.held ==>
                  if Silenced(s, cfg, s.held[key], now) then key in t.held && t.held[key] == s.held[key]
                  else key !in t.held && Reached(t, cfg, s.held[key], resolver, now))
  {
    var s := PerformAll(start, cfg, calls).0;
    CallsKeepHeld(start, cfg, calls);
    ReleaseConserves(s, cfg, order, resolver, now);
    hide Silenced, Reached, ReleaseAll, PerformAll, HeldOk;
  }

  lemma {:induction false} PerformAllConcat(s: State, cfg: Config, a: seq<Timed>, b: seq<Timed>)
    ensures var (t, early) := PerformAll(s, cfg, a);
            var (u, late) := PerformAll(t, cfg, b);
            PerformAll(s, cfg, a + b) == (u, early + late)
    decreases |a|
  {
    hide Perform;
    if a == [] {
      assert a + b == b;
      assert [] + PerformAll(s, cfg, b).1 == PerformAll(s, cfg, b).1;
    } else {
      assert (a + b)[0] == a[0] && (a + b)[1..] == a[1..] + b;
      var (t, events) := Perform(s, cfg, a[0]);
      PerformAllConcat(t, cfg, a[1..], b);
      var (u, early) := PerformAll(t, cfg, a[1..]);
      assert events + (early + PerformAll(u, cfg, b).1) == (events + early) + PerformAll(u, cfg, b).1;
    }
  }
}
