/** Every run of the engine, at the grain of its lock: Dispatch gives the lock up between
    registering an alert and deciding for each destination, so calls interleave. A run is any
    sequence of such sections, each with its own clock reading. */
module EngineRuns {
  import opened Alerts
  import opened Clocks
  import opened EngineState
  import opened Options

  datatype Section =
    | Registering(alert: Alert)               // Dispatch's first section
    | Deciding(kind: string, alert: Alert)    // one shouldSend
    | Reminding                               // one reminder tick
    | Releasing                               // releaseHeld's section
    | Storing(silence: Silence)               // AddSilence, RestoreSilences
    | Expiring(id: string)                    // ExpireSilence's section
    | Pruning                                 // RunSilences' section

  datatype Step = Step(section: Section, now: Time)

  /** What a step lets through. A reminder tick reports every entry it counts as sent. */
  datatype Logged = One(event: Event) | Many(keys: set<(string, string)>, at: Time)

  function Apply(s: State, cfg: Config, step: Step): (State, seq<Logged>) {
    match step.section
    case Registering(a) => (Register(s, cfg, a, step.now).1, [])
    case Deciding(kind, a) =>
      var (ok, t) := ShouldSend(s, cfg, kind, a, step.now);
      (t, if ok then [One(Event(kind, a.key, EdgeOf(a), step.now))] else [])
    case Reminding =>
      if cfg.remind <= 0 then (s, []) else (Remind(s, cfg, step.now), [Many(DueSet(s, cfg, step.now), step.now)])
    case Releasing => (Release(s, cfg, step.now), [])
    case Storing(silence) => (Store(s, silence), [])
    case Expiring(id) => (Expire(s, id, step.now), [])
    case Pruning => (Prune(s, step.now), [])
  }

  function DueSet(s: State, cfg: Config, now: Time): set<(string, string)> {
    set kind, key | kind in s.sent && key in s.sent[kind] && DueEntry(s, cfg, s.sent[kind][key], now) :: (kind, key)
  }

  function Exec(s: State, cfg: Config, run: seq<Step>): (State, seq<Logged>) {
    if run == [] then (s, [])
    else
      var (t, log) := Exec(s, cfg, run[..|run| - 1]);
      var (u, more) := Apply(t, cfg, run[|run| - 1]);
      (u, log + more)
  }

  function EntryOf(s: State, kind: string, key: string): Entry
    requires Open(s, kind, key)
  {
    Inner(s.sent, kind)[key]
  }

  // ----- The history of one destination and key -----

  /** The events of one destination and key in a log, in order. */
  function History(log: seq<Logged>, kind: string, key: string): seq<(Edge, Time)> {
    if log == [] then []
    else History(log[..|log| - 1], kind, key) + Own(log[|log| - 1], kind, key)
  }

  function Own(e: Logged, kind: string, key: string): seq<(Edge, Time)> {
    match e
    case One(ev) => if ev.kind == kind && ev.key == key then [(ev.edge, ev.at)] else []
    case Many(keys, at) => if (kind, key) in keys then [(Reminder, at)] else []
  }

  predicate LastIsOpen(h: seq<(Edge, Time)>) {
    h != [] && h[|h| - 1].0 != Resolve
  }

  /** When the last resolve was let through. */
  function LastResolve(h: seq<(Edge, Time)>): Option<Time> {
    if h == [] then None
    else if h[|h| - 1].0 == Resolve then Some(h[|h| - 1].1)
    else LastResolve(h[..|h| - 1])
  }

  /** What may follow what: raises and resolves alternate, starting with a raise; a raise
      comes no sooner than the flap window after the resolve; a reminder comes only while
      the alert is open, and no sooner than remindMinutes after the last send. */
  predicate Follows(cfg: Config, before: seq<(Edge, Time)>, next: (Edge, Time)) {
    match next.0
    case Raise => !LastIsOpen(before) && (before != [] ==> next.1 - before[|before| - 1].1 >= cfg.flap)
    case Resolve => LastIsOpen(before)
    case Reminder => LastIsOpen(before) && next.1 - before[|before| - 1].1 >= cfg.remind
  }

  predicate WellPaired(cfg: Config, h: seq<(Edge, Time)>) {
    forall i :: 0 <= i < |h| ==> Follows(cfg, h[..i], h[i])
  }

  /** The dedup decision, read off the history alone. */
  predicate HistoryAllows(cfg: Config, h: seq<(Edge, Time)>, resolved: bool, now: Time) {
    if resolved then LastIsOpen(h)
    else !LastIsOpen(h) && (LastResolve(h).Some? ==> now - LastResolve(h).value >= cfg.flap)
  }

  /** The engine's maps say about one destination and key what its history says. */
  ghost predicate Agrees(s: State, h: seq<(Edge, Time)>, kind: string, key: string) {
    && (Open(s, kind, key) <==> LastIsOpen(h))
    && ResolvedAt(s, kind, key) == LastResolve(h)
    && (Open(s, kind, key) ==> EntryOf(s, kind, key).when == h[|h| - 1].1)
  }

  // ----- One step -----

  lemma DecisionFromHistory(s: State, cfg: Config, kind: string, a: Alert, now: Time, h: seq<(Edge, Time)>)
    requires Agrees(s, h, kind, a.key)
    ensures ShouldSend(s, cfg, kind, a, now).0 <==> HistoryAllows(cfg, h, a.resolved, now)
  {}

  lemma ClosedHistory(h: seq<(Edge, Time)>)
    requires h != [] && !LastIsOpen(h)
    ensures LastResolve(h) == Some(h[|h| - 1].1)
  {}

  lemma DecidingKeepsOthers(s: State, cfg: Config, kind: string, a: Alert, now: Time, k: string, key: string)
    requires (k, key) != (kind, a.key)
    ensures var t := ShouldSend(s, cfg, kind, a, now).1;
            && (Open(t, k, key) <==> Open(s, k, key)) && ResolvedAt(t, k, key) == ResolvedAt(s, k, key)
            && (Open(s, k, key) ==> EntryOf(t, k, key) == EntryOf(s, k, key))
  {
    var d, t := Decide(DestOf(s, kind), cfg, a, now).1, ShouldSend(s, cfg, kind, a, now).1;
    DestUpdate(s, kind, d, k);
    assert t == WithDest(s, kind, d);
    hide Inner, WithDest;
    assert DestOf(t, k).sent == Inner(t.sent, k) && DestOf(t, k).flapped == Inner(t.flapped, k);
  }

  lemma DecidingOwn(s: State, cfg: Config, kind: string, a: Alert, now: Time)
    ensures var (ok, t) := ShouldSend(s, cfg, kind, a, now);
            DestOf(t, kind) == Decide(DestOf(s, kind), cfg, a, now).1
  {
    DestUpdate(s, kind, Decide(DestOf(s, kind), cfg, a, now).1, kind);
  }

  lemma RemindingKeeps(s: State, cfg: Config, now: Time, kind: string, key: string)
    ensures var t := Remind(s, cfg, now);
            && (Open(t, kind, key) <==> Open(s, kind, key)) && ResolvedAt(t, kind, key) == ResolvedAt(s, kind, key)
            && (Open(s, kind, key) ==>
                  EntryOf(t, kind, key).when ==
                      if (kind, key) in DueSet(s, cfg, now) then now else EntryOf(s, kind, key).when)
            && ((kind, key) in DueSet(s, cfg, now) ==>
                Open(s, kind, key) && now - EntryOf(s, kind, key).when >= cfg.remind)
  {}

  /** Whatever a step appends to the history of a key may follow it, and the maps keep up. */
  lemma StepAgrees(s: State, cfg: Config, step: Step, h: seq<(Edge, Time)>, kind: string, key: string)
    requires Agrees(s, h, kind, key)
    ensures var (t, more) := Apply(s, cfg, step);
            && |more| <= 1
            && var own := if more == [] then [] else Own(more[0], kind, key);
               |own| <= 1 && Agrees(t, h + own, kind, key) && (own != [] ==> Follows(cfg, h, own[0]))
  {
    assert h + [] == h;
    if step.section.Deciding? {
      DecidingAgrees(s, cfg, step.section.kind, step.section.alert, step.now, h, kind, key);
      hide Agrees, ShouldSend, Follows;
    } else if step.section.Reminding? {
      RemindingAgrees(s, cfg, step.now, h, kind, key);
      hide Agrees, Remind, DueSet, Follows;
    } else {
      SilentSections(s, cfg, step);
      hide Apply;
    }
  }

  /** The sections that decide nothing leave the dedup maps alone. */
  lemma SilentSections(s: State, cfg: Config, step: Step)
    requires !step.section.Deciding? && !step.section.Reminding?
    ensures var (t, more) := Apply(s, cfg, step);
            more == [] && t.sent == s.sent && t.flapped == s.flapped
  {
    hide Inner, Silenced, Unmuted;
  }

  lemma RemindingAgrees(s: State, cfg: Config, now: Time, h: seq<(Edge, Time)>, kind: string, key: string)
    requires Agrees(s, h, kind, key)
    ensures var next := (Reminder, now);
            var own := (kind, key) in DueSet(s, cfg, now);
            Agrees(Remind(s, cfg, now), if own then h + [next] else h, kind, key) && (own ==> Follows(cfg, h, next))
  {
    RemindingKeeps(s, cfg, now, kind, key);
    hide Remind, DueSet, Inner;
    assert (h + [(Reminder, now)])[..|h|] == h;
  }

  lemma DecidingAgrees(s: State, cfg: Config, k: string, a: Alert, now: Time, h: seq<(Edge, Time)>, kind: string,
                       key: string)
    requires Agrees(s, h, kind, key)
    ensures var (ok, t) := ShouldSend(s, cfg, k, a, now);
            var next := (EdgeOf(a), now);
            var own := ok && (k, a.key) == (kind, key);
            Agrees(t, if own then h + [next] else h, kind, key) && (own ==> Follows(cfg, h, next))
  {
    if (k, a.key) == (kind, key) {
      var next := (EdgeOf(a), now);
      DecisionFromHistory(s, cfg, k, a, now, h);
      DecidingOwn(s, cfg, k, a, now);
      hide Inner, WithDest;
      var t := ShouldSend(s, cfg, k, a, now).1;
      assert DestOf(t, k).sent == Inner(t.sent, k) && DestOf(t, k).flapped == Inner(t.flapped, k);
      assert (h + [next])[..|h|] == h;
      if !a.resolved && h != [] && !LastIsOpen(h) {
        ClosedHistory(h);
      }
    } else {
      DecidingKeepsOthers(s, cfg, k, a, now, kind, key);
      hide ShouldSend;
    }
  }

  // ----- Every run -----

  lemma HistoryAppends(log: seq<Logged>, more: seq<Logged>, kind: string, key: string)
    requires |more| <= 1
    ensures History(log + more, kind, key) ==
              History(log, kind, key) + if more == [] then [] else Own(more[0], kind, key)
  {
    if more == [] {
      assert log + more == log;
    } else {
      assert (log + more)[..|log|] == log;
    }
  }

  /** An engine before its first section: nothing resolved and nothing held yet. The open
      alerts may be those a restart restored, and the silences too. */
  predicate Booted(s: State) {
    s.flapped == map[] && s.held == map[]
  }

  /** New engines, and new engines with a state file restored, are such engines. */
  lemma RestoredIsBooted(saved: Saved, maxAge: Duration, now: Time)
    ensures Booted(EMPTY) && Booted(Restore(EMPTY, saved, maxAge, now))
  {}

  /** What a booted engine knows of a key's past: the send of an alert it restored. */
  function Past(start: State, kind: string, key: string): seq<(Edge, Time)> {
    if Open(start, kind, key) then [(Raise, EntryOf(start, kind, key).when)] else []
  }

  /** A key's history over a run: what the engine booted with, and what the run let through. */
  function Whole(start: State, log: seq<Logged>, kind: string, key: string): seq<(Edge, Time)> {
    Past(start, kind, key) + History(log, kind, key)
  }

  lemma WholeAppends(start: State, log: seq<Logged>, more: seq<Logged>, kind: string, key: string)
    requires |more| <= 1
    ensures Whole(start, log + more, kind, key) ==
              Whole(start, log, kind, key) + if more == [] then [] else Own(more[0], kind, key)
  {
    HistoryAppends(log, more, kind, key);
    hide Past, History, Own;
  }

  lemma WholeStarts(cfg: Config, start: State, kind: string, key: string)
    requires Booted(start)
    ensures var h := Whole(start, [], kind, key); WellPaired(cfg, h) && Agrees(start, h, kind, key)
  {
    var h := Whole(start, [], kind, key);
    assert h == Past(start, kind, key);
    if h != [] {
      assert h[..0] == [] && LastResolve(h[..0]) == None && Follows(cfg, h[..0], h[0]);
    }
  }

  /** In every run of every booted engine, restarted or not, under every interleaving, the
      history of each destination and key pairs up, and `sent` and `flapped` are that
      history's last word. */
  lemma {:induction false} RunPairs(cfg: Config, start: State, run: seq<Step>, kind: string, key: string)
    requires Booted(start)
    ensures var (s, log) := Exec(start, cfg, run);
            WellPaired(cfg, Whole(start, log, kind, key)) && Agrees(s, Whole(start, log, kind, key), kind, key)
  {
    if run == [] {
      WholeStarts(cfg, start, kind, key);
    } else {
      var before := run[..|run| - 1];
      var (s, log) := Exec(start, cfg, before);
      var (t, more) := Apply(s, cfg, run[|run| - 1]);
      var h := Whole(start, log, kind, key);
      RunPairs(cfg, start, before, kind, key);
      StepAgrees(s, cfg, run[|run| - 1], h, kind, key);
      WholeAppends(start, log, more, kind, key);
      hide Apply, Own, Agrees, Follows, WellPaired, Whole, Booted;
      if Whole(start, log + more, kind, key) != h {
        WellPairedExtends(cfg, h, Own(more[0], kind, key)[0]);
        assert Own(more[0], kind, key) == [Own(more[0], kind, key)[0]];
      }
    }
  }

  /** So it is for every daemon that restores a state file and silences at its start, whatever
      they hold. */
  lemma {:induction false} RestartedRunPairs(cfg: Config, saved: Saved, maxAge: Duration, boot: Time,
                                             silences: map<string, Silence>, run: seq<Step>, kind: string, key: string)
    ensures var start := Restore(EMPTY, saved, maxAge, boot).(silences := silences);
            var (s, log) := Exec(start, cfg, run);
            WellPaired(cfg, Whole(start, log, kind, key)) && Agrees(s, Whole(start, log, kind, key), kind, key)
  {
    RestoredIsBooted(saved, maxAge, boot);
    RunPairs(cfg, Restore(EMPTY, saved, maxAge, boot).(silences := silences), run, kind, key);
    hide *;
  }

  lemma WellPairedExtends(cfg: Config, h: seq<(Edge, Time)>, next: (Edge, Time))
    requires WellPaired(cfg, h) && Follows(cfg, h, next)
    ensures WellPaired(cfg, h + [next])
  {
    hide Follows;
    var after := h + [next];
    forall i | 0 <= i < |after|
      ensures Follows(cfg, after[..i], after[i])
    {
      assert after[..i] == h[..i];
      if i < |h| {
        assert after[i] == h[i];
      } else {
        assert h[..i] == h;
      }
    }
  }

  /** After every run, the next decision depends on nothing but the history of its key: an
      alert is let through exactly when the history allows it. */
  lemma DecisionIsHistory(cfg: Config, start: State, run: seq<Step>, kind: string, a: Alert, now: Time)
    requires Booted(start)
    ensures var (s, log) := Exec(start, cfg, run);
            ShouldSend(s, cfg, kind, a, now).0 <==> HistoryAllows(cfg, Whole(start, log, kind, a.key), a.resolved, now)
  {
    var (s, log) := Exec(start, cfg, run);
    RunPairs(cfg, start, run, kind, a.key);
    DecisionFromHistory(s, cfg, kind, a, now, Whole(start, log, kind, a.key));
  }

  /** Raises and resolves strictly alternate: with the reminders left out, even positions
      are raises, odd positions resolves, and a key is open after an odd number of them. */
  function Edges(h: seq<(Edge, Time)>): seq<(Edge, Time)> {
    if h == [] then []
    else Edges(h[..|h| - 1]) + if h[|h| - 1].0 == Reminder then [] else [h[|h| - 1]]
  }

  lemma {:induction false} WellPairedAlternates(cfg: Config, h: seq<(Edge, Time)>)
    requires WellPaired(cfg, h)
    ensures var e := Edges(h);
            && (forall i :: 0 <= i < |e| ==> e[i].0 == if i % 2 == 0 then Raise else Resolve)
            && (LastIsOpen(h) <==> |e| % 2 == 1)
  {
    if h != [] {
      var before := h[..|h| - 1];
      forall i | 0 <= i < |before|
        ensures Follows(cfg, before[..i], before[i])
      {
        assert before[..i] == h[..i] && before[i] == h[i];
      }
      WellPairedAlternates(cfg, before);
      assert Follows(cfg, before, h[|h| - 1]);
    }
  }

  lemma RunAlternates(cfg: Config, start: State, run: seq<Step>, kind: string, key: string)
    requires Booted(start)
    ensures var (s, log) := Exec(start, cfg, run);
            var e := Edges(Whole(start, log, kind, key));
            && (forall i :: 0 <= i < |e| ==> e[i].0 == if i % 2 == 0 then Raise else Resolve)
            && (Open(s, kind, key) <==> |e| % 2 == 1)
  {
    RunPairs(cfg, start, run, kind, key);
    WellPairedAlternates(cfg, Whole(start, Exec(start, cfg, run).1, kind, key));
  }

  /** Whether an alert is open for anyone is a matter of the histories too. */
  lemma {:induction false} HasOpenIsHistory(cfg: Config, start: State, run: seq<Step>, key: string)
    requires Booted(start)
    ensures var (s, log) := Exec(start, cfg, run);
            HasOpen(s, key) <==> exists kind :: LastIsOpen(Whole(start, log, kind, key))
  {
    var (s, log) := Exec(start, cfg, run);
    forall kind
      ensures LastIsOpen(Whole(start, log, kind, key)) <==> Open(s, kind, key)
    {
      RunPairs(cfg, start, run, kind, key);
    }
    assert forall kind :: Open(s, kind, key) <==> kind in s.sent && key in s.sent[kind];
    hide Whole, Exec, LastIsOpen, Open;
  }

  // ----- Active conditions -----

  /** The last alert a run registered under a chain's key. */
  function LastRegistered(run: seq<Step>, chain: string, key: string): Option<Alert> {
    if run == [] then None
    else
      var last := run[|run| - 1].section;
      if last.Registering? && last.alert.chain == chain && last.alert.key == key then Some(last.alert)
      else LastRegistered(run[..|run| - 1], chain, key)
  }

  /** A condition is active exactly if the last alert registered for it was a raise, from that
      raise's time on, delivered or not. */
  lemma {:induction false} ActiveIsHistory(cfg: Config, start: State, run: seq<Step>, chain: string, key: string)
    ensures var before, after := Inner(start.active, chain), Inner(Exec(start, cfg, run).0.active, chain);
            match LastRegistered(run, chain, key)
            case None => (key in after <==> key in before) && (key in after ==> after[key] == before[key])
            case Some(a) => (key in after <==> !a.resolved) && (key in after ==> after[key] == a.time)
  {
    if run != [] {
      var last := run[|run| - 1];
      var s := Exec(start, cfg, run[..|run| - 1]).0;
      ActiveIsHistory(cfg, start, run[..|run| - 1], chain, key);
      if last.section.Registering? {
        RegisterActive(s, cfg, last.section.alert, last.now, chain, key);
        hide Register, Inner;
      } else {
        ActiveKept(s, cfg, last);
        hide Apply, Inner;
      }
    }
  }

  lemma RegisterActive(s: State, cfg: Config, a: Alert, now: Time, chain: string, key: string)
    ensures var before, after := Inner(s.active, chain), Inner(Register(s, cfg, a, now).1.active, chain);
            if (chain, key) == (a.chain, a.key) then
              (key in after <==> !a.resolved) && (key in after ==> after[key] == a.time)
            else
              (key in after <==> key in before) && (key in after ==> after[key] == before[key])
  {
    hide Silenced;
  }

  lemma ActiveKept(s: State, cfg: Config, step: Step)
    requires !step.section.Registering?
    ensures Apply(s, cfg, step).0.active == s.active
  {
    hide Inner, DueSet, Unmuted, RemindKind;
  }

  // ----- Held alerts -----

  /** Each held alert is held under its own key and is still active under its chain. */
  ghost predicate HeldAreActive(s: State) {
    forall key :: key in s.held ==> s.held[key].key == key && key in Inner(s.active, s.held[key].chain)
  }

  lemma RegisterKeepsHeld(s: State, cfg: Config, a: Alert, now: Time)
    requires HeldAreActive(s)
    ensures HeldAreActive(Register(s, cfg, a, now).1)
  {
    hide Silenced;
    var t := Register(s, cfg, a, now).1;
    forall key | key in t.held
      ensures t.held[key].key == key && key in Inner(t.active, t.held[key].chain)
    {
      assert key == a.key || t.held[key] == s.held[key];
    }
  }

  lemma OtherSections(s: State, cfg: Config, step: Step)
    requires !step.section.Registering? && !step.section.Releasing?
    ensures Apply(s, cfg, step).0.active == s.active && Apply(s, cfg, step).0.held == s.held
  {
    hide Inner, DueSet, Prune, RemindKind;
    if step.section.Pruning? {
      assert Prune(s, step.now) == s.(silences := Prune(s, step.now).silences) by { PruneKeeps(s, step.now); }
    }
  }

  lemma PruneKeeps(s: State, now: Time)
    ensures Prune(s, now) == s.(silences := Prune(s, now).silences)
  {}

  lemma ReleaseKeepsHeld(s: State, cfg: Config, now: Time)
    requires HeldAreActive(s)
    ensures HeldAreActive(Release(s, cfg, now))
  {
    hide Unmuted;
  }

  lemma {:induction false} StepKeepsHeld(s: State, cfg: Config, step: Step)
    requires HeldAreActive(s)
    ensures HeldAreActive(Apply(s, cfg, step).0)
  {
    hide Register, Release;
    if step.section.Registering? {
      RegisterKeepsHeld(s, cfg, step.section.alert, step.now);
    } else if step.section.Releasing? {
      ReleaseKeepsHeld(s, cfg, step.now);
    } else {
      OtherSections(s, cfg, step);
      hide Apply;
    }
  }

  /** In every reachable state of every interleaving, each held alert is still active. */
  lemma {:induction false} RunKeepsHeld(cfg: Config, start: State, run: seq<Step>)
    requires Booted(start)
    ensures HeldAreActive(Exec(start, cfg, run).0)
  {
    if run != [] {
      RunKeepsHeld(cfg, start, run[..|run| - 1]);
      StepKeepsHeld(Exec(start, cfg, run[..|run| - 1]).0, cfg, run[|run| - 1]);
    }
  }
}
