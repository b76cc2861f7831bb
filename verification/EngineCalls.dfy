/** What whole calls send. A Dispatch sends to exactly the destinations whose own history lets
    the alert through, and every run of whole calls is a run of locked sections, so what holds
    for those holds for the sends. */
module EngineCalls {
  import opened Alerts
  import opened Clocks
  import opened EngineRuns
  import opened EngineSilences
  import opened EngineState

  // ----- What one Dispatch sends -----

  /** Whether a destination lets an alert through: a resolve of what is open there, a raise of
      what is neither open nor within the flap window. */
  predicate Lets(s: State, cfg: Config, kind: string, a: Alert, now: Time) {
    if a.resolved then Open(s, kind, a.key) else !Open(s, kind, a.key) && !InFlap(s, cfg, kind, a.key, now)
  }

  /** The sends a list of destinations gets: one for each registered one that lets the alert
      through, at its first place in the list. */
  function Sendings(s: State, cfg: Config, kinds: seq<string>, a: Alert, now: Time): seq<Event> {
    if kinds == [] then []
    else
      var before, kind := kinds[..|kinds| - 1], kinds[|kinds| - 1];
      Sendings(s, cfg, before, a, now) +
      if kind in cfg.notifiers && kind !in before && Lets(s, cfg, kind, a, now)
      then [Event(kind, a.key, if a.resolved then Resolve else Raise, now)] else []
  }

  /** The loop over a longer list goes on from where the shorter one ended. */
  lemma {:induction false} SendAllLast(s: State, cfg: Config, kinds: seq<string>, kind: string, a: Alert, now: Time)
    ensures var (t, events) := SendAll(s, cfg, kinds, a, now);
            var (ok, u) := ShouldSend(t, cfg, kind, a, now);
            SendAll(s, cfg, kinds + [kind], a, now) ==
              if kind in cfg.notifiers then (u, events + if ok then [Event(kind, a.key, EdgeOf(a), now)] else [])
              else (t, events)
    decreases |kinds|
  {
    hide ShouldSend, EdgeOf;
    var all := kinds + [kind];
    if kinds == [] {
      assert all[0] == kind && all[1..] == [];
      assert forall e: seq<Event> :: e + [] == [] + e;
    } else {
      assert all[0] == kinds[0] && all[1..] == kinds[1..] + [kind];
      var v := if kinds[0] in cfg.notifiers then ShouldSend(s, cfg, kinds[0], a, now).1 else s;
      SendAllLast(v, cfg, kinds[1..], kind, a, now);
      var more := if kind in cfg.notifiers && ShouldSend(SendAll(v, cfg, kinds[1..], a, now).0, cfg, kind, a, now).0
                  then [Event(kind, a.key, EdgeOf(a), now)] else [];
      var rest := SendAll(v, cfg, kinds[1..], a, now).1;
      assert rest + [] == rest;
      assert forall e: seq<Event> :: e + (rest + more) == (e + rest) + more;
    }
  }

  /** What a destination knows of a key after the loop: what it was told, or what it knew. */
  ghost predicate Told(s: State, t: State, cfg: Config, kinds: seq<string>, a: Alert, now: Time, kind: string) {
    if kind in kinds && kind in cfg.notifiers then
      && !Lets(t, cfg, kind, a, now)
      && (Open(t, kind, a.key) <==> if Lets(s, cfg, kind, a, now) then !a.resolved else Open(s, kind, a.key))
    else
      (Open(t, kind, a.key) <==> Open(s, kind, a.key)) && ResolvedAt(t, kind, a.key) == ResolvedAt(s, kind, a.key)
  }

  /** What a Dispatch's loop sends is decided by the state it starts from, and each registered
      destination has then been told. */
  lemma {:induction false} SendAllIsSendings(s: State, cfg: Config, kinds: seq<string>, a: Alert, now: Time)
    ensures var (t, events) := SendAll(s, cfg, kinds, a, now);
            events == Sendings(s, cfg, kinds, a, now) && forall kind :: Told(s, t, cfg, kinds, a, now, kind)
  {
    if kinds == [] {
      hide Lets, Open, ResolvedAt;
    } else {
      var before, kind := kinds[..|kinds| - 1], kinds[|kinds| - 1];
      assert kinds == before + [kind];
      var t := SendAll(s, cfg, before, a, now).0;
      SendAllIsSendings(s, cfg, before, a, now);
      SendAllLast(s, cfg, before, kind, a, now);
      var u := SendAll(s, cfg, kinds, a, now).0;
      ToldLets(s, t, cfg, before, a, now, kind);
      DecidingTells(t, cfg, kind, a, now);
      hide SendAll, ShouldSend, Lets, Told, Open, ResolvedAt;
      forall k
        ensures Told(s, u, cfg, kinds, a, now, k)
      {
        ToldNext(s, t, cfg, before, kind, a, now, k);
      }
    }
  }

  /** Whether the next destination lets the alert through can be read off the start: it does
      if it did then and was not told since. */
  lemma ToldLets(s: State, t: State, cfg: Config, kinds: seq<string>, a: Alert, now: Time, kind: string)
    requires Told(s, t, cfg, kinds, a, now, kind)
    ensures kind in cfg.notifiers ==> (Lets(t, cfg, kind, a, now) <==> kind !in kinds && Lets(s, cfg, kind, a, now))
  {
    hide Open, ResolvedAt;
  }

  lemma ToldNext(s: State, t: State, cfg: Config, kinds: seq<string>, kind: string, a: Alert, now: Time, k: string)
    requires Told(s, t, cfg, kinds, a, now, k)
    ensures var u := if kind in cfg.notifiers then ShouldSend(t, cfg, kind, a, now).1 else t;
            Told(s, u, cfg, kinds + [kind], a, now, k)
  {
    DecidingTells(t, cfg, kind, a, now);
    hide ShouldSend, Open, ResolvedAt;
  }

  lemma DecidingTells(s: State, cfg: Config, kind: string, a: Alert, now: Time)
    ensures var (ok, t) := ShouldSend(s, cfg, kind, a, now);
            && ok == Lets(s, cfg, kind, a, now) && !Lets(t, cfg, kind, a, now)
            && (Open(t, kind, a.key) <==> if ok then !a.resolved else Open(s, kind, a.key))
            && forall k :: k != kind ==>
                 (Open(t, k, a.key) <==> Open(s, k, a.key)) && ResolvedAt(t, k, a.key) == ResolvedAt(s, k, a.key)
  {
    DecidingOwn(s, cfg, kind, a, now);
    forall k
      ensures k != kind ==>
                (Open(s, k, a.key) <==> Open(ShouldSend(s, cfg, kind, a, now).1, k, a.key))
                && ResolvedAt(s, k, a.key) == ResolvedAt(ShouldSend(s, cfg, kind, a, now).1, k, a.key)
    {
      if k != kind {
        DecideOtherKind(s, cfg, kind, a, now, k);
      }
    }
    hide Inner, WithDest;
    var t := ShouldSend(s, cfg, kind, a, now).1;
    assert DestOf(t, kind).sent == Inner(t.sent, kind) && DestOf(t, kind).flapped == Inner(t.flapped, kind);
  }

  /** A Dispatch that is muted holds its alert and sends nothing. Any other sends, in the
      resolver's order, to the registered destinations that let the alert through, each of
      which has then been told. */
  lemma {:induction false} DispatchSends(s: State, cfg: Config, a: Alert, resolver: Alert -> seq<string>, now: Time)
    ensures var p := Prepared(a, now);
            var (t, events) := Dispatch(s, cfg, a, resolver, now);
            && t.silences == s.silences
            && if !a.resolved && Silenced(s, cfg, p, now) then
                 events == [] && t.sent == s.sent && t.flapped == s.flapped && t.held == s.held[p.key := p]
               else
                 && events == Sendings(s, cfg, resolver(p), p, now)
                 && t.held == (if a.resolved then s.held - {p.key} else s.held)
                 && (forall kind :: Told(s, t, cfg, resolver(p), p, now, kind))
  {
    var p := Prepared(a, now);
    var u := Register(s, cfg, p, now).1;
    RegisterHeld(s, cfg, p, now);
    SendAllFrame(u, cfg, resolver(p), p, now);
    SendAllIsSendings(u, cfg, resolver(p), p, now);
    SendingsFrame(s, u, cfg, resolver(p), p, now);
    var t := SendAll(u, cfg, resolver(p), p, now).0;
    hide Register, SendAll, Silenced, SplitKey, Sendings, Told;
    forall kind
      ensures !(!a.resolved && Silenced(s, cfg, p, now)) ==> Told(s, t, cfg, resolver(p), p, now, kind)
    {
      ToldFrame(s, u, t, cfg, resolver(p), p, now, kind);
    }
  }

  lemma ToldFrame(s: State, u: State, t: State, cfg: Config, kinds: seq<string>, a: Alert, now: Time, kind: string)
    requires s.sent == u.sent && s.flapped == u.flapped
    ensures Told(u, t, cfg, kinds, a, now, kind) ==> Told(s, t, cfg, kinds, a, now, kind)
  {
    assert Open(s, kind, a.key) == Open(u, kind, a.key) && ResolvedAt(s, kind, a.key) == ResolvedAt(u, kind, a.key);
    hide Open, ResolvedAt;
  }

  /** A resolve leaves its key open on none of the registered destinations the resolver names
      for it, and a raise that is not muted open on each or within the flap window there. */
  lemma {:induction false} DispatchReaches(s: State, cfg: Config, a: Alert, resolver: Alert -> seq<string>, now: Time,
                                           kind: string)
    requires var p := Prepared(a, now);
             kind in resolver(p) && kind in cfg.notifiers && (a.resolved || !Silenced(s, cfg, p, now))
    ensures var p := Prepared(a, now);
            var t := Dispatch(s, cfg, a, resolver, now).0;
            if a.resolved then !Open(t, kind, p.key) else Open(t, kind, p.key) || InFlap(t, cfg, kind, p.key, now)
  {
    DispatchSends(s, cfg, a, resolver, now);
    var p := Prepared(a, now);
    var t := Dispatch(s, cfg, a, resolver, now).0;
    hide Dispatch, Silenced, Open, InFlap, SplitKey, Sendings;
    assert Told(s, t, cfg, resolver(p), p, now, kind);
  }

  lemma {:induction false} SendingsFrame(s: State, t: State, cfg: Config, kinds: seq<string>, a: Alert, now: Time)
    requires s.sent == t.sent && s.flapped == t.flapped
    ensures Sendings(s, cfg, kinds, a, now) == Sendings(t, cfg, kinds, a, now)
  {
    if kinds != [] {
      SendingsFrame(s, t, cfg, kinds[..|kinds| - 1], a, now);
    }
  }

  // ----- Whole calls as runs of sections -----

  /** The events the decisions of a run let through. */
  function Fired(log: seq<Logged>): seq<Event> {
    if log == [] then []
    else Fired(log[..|log| - 1]) + match log[|log| - 1] case One(e) => [e] case Many(_, _) => []
  }

  lemma {:induction false} FiredConcat(a: seq<Logged>, b: seq<Logged>)
    ensures Fired(a + b) == Fired(a) + Fired(b)
  {
    if b == [] {
      assert a + b == a;
    } else {
      FiredConcat(a, b[..|b| - 1]);
      assert (a + b)[..|a + b| - 1] == a + b[..|b| - 1];
    }
  }

  lemma {:induction false} ExecConcat(s: State, cfg: Config, a: seq<Step>, b: seq<Step>)
    ensures var (t, log) := Exec(s, cfg, a);
            var (u, more) := Exec(t, cfg, b);
            Exec(s, cfg, a + b) == (u, log + more)
  {
    hide Apply;
    if b == [] {
      assert a + b == a;
      assert Exec(s, cfg, a).1 + [] == Exec(s, cfg, a).1;
    } else {
      ExecConcat(s, cfg, a, b[..|b| - 1]);
      assert (a + b)[..|a + b| - 1] == a + b[..|b| - 1];
      var (t, log) := Exec(s, cfg, a);
      var (u, more) := Exec(t, cfg, b[..|b| - 1]);
      var last := Apply(u, cfg, b[|b| - 1]).1;
      assert (log + more) + last == log + (more + last);
    }
  }

  /** What a run does to the state, and what it sends. */
  function Outcome(s: State, cfg: Config, run: seq<Step>): (State, seq<Event>) {
    var (t, log) := Exec(s, cfg, run);
    (t, Fired(log))
  }

  lemma OutcomeConcat(s: State, cfg: Config, a: seq<Step>, b: seq<Step>)
    ensures var (t, events) := Outcome(s, cfg, a);
            var (u, more) := Outcome(t, cfg, b);
            Outcome(s, cfg, a + b) == (u, events + more)
  {
    ExecConcat(s, cfg, a, b);
    var (t, log) := Exec(s, cfg, a);
    FiredConcat(log, Exec(t, cfg, b).1);
    hide Exec, Fired;
  }

  lemma OutcomeOne(s: State, cfg: Config, step: Step)
    ensures Outcome(s, cfg, [step]) == (Apply(s, cfg, step).0, Fired(Apply(s, cfg, step).1))
  {
    hide Apply, Fired;
    var run := [step];
    assert run[..|run| - 1] == [] && Exec(s, cfg, []) == (s, []);
    assert [] + Apply(s, cfg, step).1 == Apply(s, cfg, step).1;
  }

  lemma OutcomeCons(s: State, cfg: Config, step: Step, rest: seq<Step>)
    ensures var (t, more) := Apply(s, cfg, step);
            var (u, events) := Outcome(t, cfg, rest);
            Outcome(s, cfg, [step] + rest) == (u, Fired(more) + events)
  {
    OutcomeOne(s, cfg, step);
    OutcomeConcat(s, cfg, [step], rest);
    hide Outcome, Apply, Fired;
  }

  lemma FiredOne(e: Event)
    ensures Fired([One(e)]) == [e] && Fired([]) == []
  {
    var log := [One(e)];
    assert log[..|log| - 1] == [] && [] + [e] == [e];
  }

  /** The decisions of a Dispatch: one for each registered destination the resolver names. */
  function Decisions(cfg: Config, kinds: seq<string>, a: Alert, now: Time): seq<Step> {
    if kinds == [] then []
    else (if kinds[0] in cfg.notifiers then [Step(Deciding(kinds[0], a), now)] else []) +
         Decisions(cfg, kinds[1..], a, now)
  }

  lemma {:induction false} SendAllIsRun(s: State, cfg: Config, kinds: seq<string>, a: Alert, now: Time)
    ensures SendAll(s, cfg, kinds, a, now) == Outcome(s, cfg, Decisions(cfg, kinds, a, now))
    decreases |kinds|
  {
    hide ShouldSend;
    if kinds != [] {
      var rest := Decisions(cfg, kinds[1..], a, now);
      if kinds[0] in cfg.notifiers {
        OutcomeCons(s, cfg, Step(Deciding(kinds[0], a), now), rest);
        SendAllIsRun(ShouldSend(s, cfg, kinds[0], a, now).1, cfg, kinds[1..], a, now);
        FiredOne(Event(kinds[0], a.key, EdgeOf(a), now));
        hide Outcome, Fired, EdgeOf;
      } else {
        assert [] + rest == rest;
        SendAllIsRun(s, cfg, kinds[1..], a, now);
        hide Outcome;
      }
    }
  }

  /** The sections of a Dispatch: the registration, and unless it is muted the decisions. */
  function DispatchRun(s: State, cfg: Config, a: Alert, resolver: Alert -> seq<string>, now: Time): seq<Step> {
    var p := Prepared(a, now);
    [Step(Registering(p), now)] +
    if !a.resolved && Silenced(s, cfg, p, now) then [] else Decisions(cfg, resolver(p), p, now)
  }

  /** A Dispatch changes the state as its sections do, and sends what they let through, in
      their order. */
  lemma {:induction false} DispatchIsRun(s: State, cfg: Config, a: Alert, resolver: Alert -> seq<string>, now: Time)
    ensures Dispatch(s, cfg, a, resolver, now) == Outcome(s, cfg, DispatchRun(s, cfg, a, resolver, now))
  {
    var p := Prepared(a, now);
    var t := Register(s, cfg, p, now).1;
    var rest := Decisions(cfg, resolver(p), p, now);
    RegisterHeld(s, cfg, p, now);
    OutcomeCons(s, cfg, Step(Registering(p), now), rest);
    OutcomeOne(s, cfg, Step(Registering(p), now));
    SendAllIsRun(t, cfg, resolver(p), p, now);
    hide Register, Outcome, Silenced, SplitKey;
    assert [Step(Registering(p), now)] + [] == [Step(Registering(p), now)];
    assert [] + SendAll(t, cfg, resolver(p), p, now).1 == SendAll(t, cfg, resolver(p), p, now).1;
  }

  /** The sections of a list of Dispatches, one after the other. */
  function EachRun(s: State, cfg: Config, alerts: seq<Alert>, resolver: Alert -> seq<string>, now: Time): seq<Step>
    decreases |alerts|
  {
    if alerts == [] then []
    else
      var run := DispatchRun(s, cfg, alerts[0], resolver, now);
      run + EachRun(Outcome(s, cfg, run).0, cfg, alerts[1..], resolver, now)
  }

  lemma {:induction false} EachIsRun(s: State, cfg: Config, alerts: seq<Alert>, resolver: Alert -> seq<string>,
                                     now: Time)
    ensures DispatchEach(s, cfg, alerts, resolver, now) == Outcome(s, cfg, EachRun(s, cfg, alerts, resolver, now))
    decreases |alerts|
  {
    if alerts != [] {
      var run := DispatchRun(s, cfg, alerts[0], resolver, now);
      var t := Outcome(s, cfg, run).0;
      DispatchIsRun(s, cfg, alerts[0], resolver, now);
      EachIsRun(t, cfg, alerts[1..], resolver, now);
      OutcomeConcat(s, cfg, run, EachRun(t, cfg, alerts[1..], resolver, now));
      hide Dispatch, Outcome, DispatchRun;
    }
  }

  /** The sections of a whole call. */
  ghost function CallRun(s: State, cfg: Config, c: Timed): seq<Step> {
    match c.call
    case Dispatching(a, resolver) => DispatchRun(s, cfg, a, resolver, c.now)
    case ReleasingHeld(order, resolver) => ReleaseRun(s, cfg, order, resolver, c.now)
    case ExpiringSilence(id, order, resolver) =>
      if id !in s.silences then []
      else [Step(Expiring(id), c.now)] + ReleaseRun(Expire(s, id, c.now), cfg, order, resolver, c.now)
    case AddingSilence(silence) => [Step(Storing(silence), c.now)]
    case PruningSilences => [Step(Pruning, c.now)]
    case Reminding(items, resolver) =>
      if cfg.remind > 0 && IsReminderList(s, cfg, resolver, items, c.now)
      then [Step(Section.Reminding, c.now)] else []
  }

  /** releaseHeld takes the unmuted alerts out, and dispatches those still open. */
  function ReleaseRun(s: State, cfg: Config, order: seq<string>, resolver: Alert -> seq<string>, now: Time): seq<Step> {
    if !IsOrder(DueKeys(s, cfg, now), order) then []
    else [Step(Releasing, now)] + EachRun(Release(s, cfg, now), cfg, HeldAlerts(s, order), resolver, now)
  }

  lemma ReleaseIsRun(s: State, cfg: Config, order: seq<string>, resolver: Alert -> seq<string>, now: Time)
    ensures ReleaseIfOrder(s, cfg, order, resolver, now) ==
              Outcome(s, cfg, ReleaseRun(s, cfg, order, resolver, now))
  {
    hide Silenced, Inner, Outcome, Release;
    if IsOrder(DueKeys(s, cfg, now), order) {
      var alerts := HeldAlerts(s, order);
      var t := Release(s, cfg, now);
      EachIsRun(t, cfg, alerts, resolver, now);
      OutcomeCons(s, cfg, Step(Releasing, now), EachRun(t, cfg, alerts, resolver, now));
      assert [] + DispatchEach(t, cfg, alerts, resolver, now).1 == DispatchEach(t, cfg, alerts, resolver, now).1;
    } else {
      assert Outcome(s, cfg, []) == (s, []) by { OutcomeNone(s, cfg); }
    }
  }

  lemma OutcomeNone(s: State, cfg: Config)
    ensures Outcome(s, cfg, []) == (s, [])
  {}

  /** The raises and resolves among some events. */
  function Sends(events: seq<Event>): seq<Event> {
    if events == [] then []
    else
      var e := events[|events| - 1];
      Sends(events[..|events| - 1]) + if e.edge == Edge.Reminder then [] else [e]
  }

  lemma {:induction false} SendsConcat(a: seq<Event>, b: seq<Event>)
    ensures Sends(a + b) == Sends(a) + Sends(b)
  {
    if b == [] {
      assert a + b == a;
    } else {
      var before, last := b[..|b| - 1], b[|b| - 1];
      SendsConcat(a, before);
      assert (a + b)[..|a + b| - 1] == a + before && (a + b)[|a + b| - 1] == last;
      assert forall e: seq<Event> :: (Sends(a) + Sends(before)) + e == Sends(a) + (Sends(before) + e);
    }
  }

  /** Nothing but raises and resolves is let through by a decision. */
  lemma {:induction false} FiredAreSends(s: State, cfg: Config, run: seq<Step>)
    ensures var events := Outcome(s, cfg, run).1; Sends(events) == events
  {
    if run != [] {
      var (t, log) := Exec(s, cfg, run[..|run| - 1]);
      FiredAreSends(s, cfg, run[..|run| - 1]);
      var more := Apply(t, cfg, run[|run| - 1]).1;
      FiredConcat(log, more);
      SendsConcat(Fired(log), Fired(more));
      ApplySends(t, cfg, run[|run| - 1]);
      hide Apply, Fired, Sends;
    }
  }

  lemma ApplySends(s: State, cfg: Config, step: Step)
    ensures var events := Fired(Apply(s, cfg, step).1); Sends(events) == events
    ensures !step.section.Deciding? ==> Fired(Apply(s, cfg, step).1) == []
  {
    hide ShouldSend, DueSet;
    var more := Apply(s, cfg, step).1;
    if step.section.Deciding? && more != [] {
      var e := more[0].event;
      FiredOne(e);
      assert [e][..|[e]| - 1] == [];
    } else if more != [] {
      assert more[..|more| - 1] == [];
    }
  }

  lemma {:induction false} RemindersAreNoSends(items: seq<ReminderItem>, now: Time)
    ensures Sends(ReminderEvents(items, now)) == []
  {
    if items != [] {
      var events := ReminderEvents(items, now);
      RemindersAreNoSends(items[..|items| - 1], now);
      assert events[..|events| - 1] == ReminderEvents(items[..|items| - 1], now);
    }
  }

  lemma {:induction false} CallIsRun(s: State, cfg: Config, c: Timed)
    ensures var (t, events) := Perform(s, cfg, c);
            Outcome(s, cfg, CallRun(s, cfg, c)) == (t, Sends(events))
  {
    hide Outcome, Sends, Fired, Expire, Prune, Remind, IsReminderList, DueSet, ReminderEvents;
    FiredAreSends(s, cfg, CallRun(s, cfg, c));
    OutcomeNone(s, cfg);
    match c.call {
      case Dispatching(a, resolver) =>
        DispatchIsRun(s, cfg, a, resolver, c.now);
        hide Dispatch, DispatchRun;
      case ReleasingHeld(order, resolver) =>
        ReleaseIsRun(s, cfg, order, resolver, c.now);
        hide ReleaseIfOrder, ReleaseRun;
      case ExpiringSilence(id, order, resolver) =>
        var t := Expire(s, id, c.now);
        var step := Step(Expiring(id), c.now);
        ReleaseIsRun(t, cfg, order, resolver, c.now);
        OutcomeCons(s, cfg, step, ReleaseRun(t, cfg, order, resolver, c.now));
        ApplySends(s, cfg, step);
        hide ReleaseIfOrder, ReleaseRun;
        assert forall e: seq<Event> :: [] + e == e;
      case AddingSilence(silence) => OutcomeSilent(s, cfg, Step(Storing(silence), c.now));
      case PruningSilences => OutcomeSilent(s, cfg, Step(Pruning, c.now));
      case Reminding(items, _) =>
        OutcomeSilent(s, cfg, Step(Section.Reminding, c.now));
        RemindersAreNoSends(items, c.now);
    }
  }

  lemma OutcomeSilent(s: State, cfg: Config, step: Step)
    requires !step.section.Deciding?
    ensures Outcome(s, cfg, [step]) == (Apply(s, cfg, step).0, [])
  {
    OutcomeOne(s, cfg, step);
    ApplySends(s, cfg, step);
    hide Outcome, Apply;
  }

  ghost function CallsRun(s: State, cfg: Config, calls: seq<Timed>): seq<Step>
    decreases |calls|
  {
    if calls == [] then []
    else CallRun(s, cfg, calls[0]) + CallsRun(Perform(s, cfg, calls[0]).0, cfg, calls[1..])
  }

  /** Every run of whole calls is a run of sections: the same state, and the raises and
      resolves its decisions let through, in their order. */
  lemma {:induction false} CallsAreRuns(s: State, cfg: Config, calls: seq<Timed>)
    ensures var (t, events) := PerformAll(s, cfg, calls);
            Outcome(s, cfg, CallsRun(s, cfg, calls)) == (t, Sends(events))
    decreases |calls|
  {
    if calls == [] {
      OutcomeNone(s, cfg);
    } else {
      var (t, events) := Perform(s, cfg, calls[0]);
      CallIsRun(s, cfg, calls[0]);
      CallsAreRuns(t, cfg, calls[1..]);
      OutcomeConcat(s, cfg, CallRun(s, cfg, calls[0]), CallsRun(t, cfg, calls[1..]));
      SendsConcat(events, PerformAll(t, cfg, calls[1..]).1);
      hide Perform, Outcome, CallRun, Sends;
    }
  }

  // ----- Sends alternate -----

  /** What one destination is sent about one key. */
  function SentTo(events: seq<Event>, kind: string, key: string): seq<(Edge, Time)> {
    if events == [] then []
    else
      var e := events[|events| - 1];
      SentTo(events[..|events| - 1], kind, key) +
      if e.kind == kind && e.key == key && e.edge != Edge.Reminder then [(e.edge, e.at)] else []
  }

  lemma {:induction false} SentToSends(events: seq<Event>, kind: string, key: string)
    ensures SentTo(Sends(events), kind, key) == SentTo(events, kind, key)
  {
    if events != [] {
      var before, e := Sends(events[..|events| - 1]), events[|events| - 1];
      SentToSends(events[..|events| - 1], kind, key);
      if e.edge == Edge.Reminder {
        assert before + [] == before;
      } else {
        assert (before + [e])[..|before + [e]| - 1] == before;
      }
    }
  }

  lemma {:induction false} EdgesConcat(a: seq<(Edge, Time)>, b: seq<(Edge, Time)>)
    ensures Edges(a + b) == Edges(a) + Edges(b)
  {
    if b == [] {
      assert a + b == a;
    } else {
      EdgesConcat(a, b[..|b| - 1]);
      assert (a + b)[..|a + b| - 1] == a + b[..|b| - 1];
    }
  }

  /** The history of a key, without reminders, is what its destination was sent. */
  lemma {:induction false} HistoryIsSentTo(log: seq<Logged>, kind: string, key: string)
    ensures Edges(History(log, kind, key)) == SentTo(Fired(log), kind, key)
  {
    if log != [] {
      var before, last := log[..|log| - 1], log[|log| - 1];
      HistoryIsSentTo(before, kind, key);
      EdgesConcat(History(before, kind, key), Own(last, kind, key));
      EdgesOwn(last, kind, key);
      match last {
        case One(e) => assert (Fired(before) + [e])[..|Fired(before) + [e]| - 1] == Fired(before);
        case Many(_, _) => assert Fired(before) + [] == Fired(before);
      }
    }
  }

  lemma EdgesOwn(e: Logged, kind: string, key: string)
    ensures Edges(Own(e, kind, key)) ==
              if e.One? && e.event.kind == kind && e.event.key == key && e.event.edge != Edge.Reminder
              then [(e.event.edge, e.event.at)] else []
  {
    var own := Own(e, kind, key);
    if own != [] {
      assert own[..|own| - 1] == [];
    }
  }

  /** In every run of whole calls a destination is sent raises and resolves of a key in turn:
      it starts with a raise, or with a resolve if the engine booted with the key open there,
      and the key is open there exactly if the last was a raise. */
  lemma {:induction false} CallsAlternate(start: State, cfg: Config, calls: seq<Timed>, kind: string, key: string)
    requires Booted(start)
    ensures var (s, events) := PerformAll(start, cfg, calls);
            var e, before := SentTo(events, kind, key), if Open(start, kind, key) then 1 else 0;
            && (forall i :: 0 <= i < |e| ==> e[i].0 == if (before + i) % 2 == 0 then Raise else Resolve)
            && (Open(s, kind, key) <==> (before + |e|) % 2 == 1)
  {
    hide *;
    var run := CallsRun(start, cfg, calls);
    var e := SentTo(PerformAll(start, cfg, calls).1, kind, key);
    SentIsHistory(start, cfg, calls, kind, key);
    RunAlternates(cfg, start, run, kind, key);
    PastEdges(start, kind, key);
    AlternatingEnd(Edges(Past(start, kind, key)), e);
  }

  /** What a destination is sent in a run of whole calls ends the history of its sections. */
  lemma SentIsHistory(start: State, cfg: Config, calls: seq<Timed>, kind: string, key: string)
    ensures var (s, log) := Exec(start, cfg, CallsRun(start, cfg, calls));
            && s == PerformAll(start, cfg, calls).0
            && Edges(Whole(start, log, kind, key)) ==
                 Edges(Past(start, kind, key)) + SentTo(PerformAll(start, cfg, calls).1, kind, key)
  {
    hide PerformAll, CallsRun, Exec, Fired, SentTo, History, Past, Edges;
    var log := Exec(start, cfg, CallsRun(start, cfg, calls)).1;
    CallsAreRuns(start, cfg, calls);
    SentToSends(PerformAll(start, cfg, calls).1, kind, key);
    HistoryIsSentTo(log, kind, key);
    EdgesConcat(Past(start, kind, key), History(log, kind, key));
  }

  lemma AlternatingEnd(a: seq<(Edge, Time)>, b: seq<(Edge, Time)>)
    requires forall i :: 0 <= i < |a + b| ==> (a + b)[i].0 == if i % 2 == 0 then Raise else Resolve
    ensures forall i :: 0 <= i < |b| ==> b[i].0 == if (|a| + i) % 2 == 0 then Raise else Resolve
  {
    assert forall i :: 0 <= i < |b| ==> (a + b)[|a| + i] == b[i];
  }

  lemma PastEdges(start: State, kind: string, key: string)
    ensures var past := Past(start, kind, key);
            Edges(past) == past && |past| == if Open(start, kind, key) then 1 else 0
  {
    var past := Past(start, kind, key);
    if past != [] {
      assert past[..|past| - 1] == [];
    }
  }
}
