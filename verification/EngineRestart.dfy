/** Restarting: the state file keeps the open alerts and forgets the last resolves. When can
    later decisions tell a restored engine from the one that kept running? */
module EngineRestart {
  import opened Alerts
  import opened Clocks
  import opened EngineState

  /** One later decision, and when it is taken. */
  datatype Call = Call(kind: string, alert: Alert, now: Time)

  /** The decisions an engine takes for a sequence of calls, which may be the interleaving of
      any number of dispatches. */
  function Answers(s: State, cfg: Config, calls: seq<Call>): seq<bool>
    decreases |calls|
  {
    if calls == [] then []
    else
      var (ok, t) := ShouldSend(s, cfg, calls[0].kind, calls[0].alert, calls[0].now);
      [ok] + Answers(t, cfg, calls[1..])
  }

  function After(s: State, cfg: Config, calls: seq<Call>): State
    decreases |calls|
  {
    if calls == [] then s
    else After(ShouldSend(s, cfg, calls[0].kind, calls[0].alert, calls[0].now).1, cfg, calls[1..])
  }

  predicate From(calls: seq<Call>, cut: Time) {
    forall i :: 0 <= i < |calls| ==> calls[i].now >= cut
  }

  /** No sequence of decisions from `cut` on, and no HasOpen after it, tells s from t. */
  ghost predicate Indistinguishable(s: State, t: State, cfg: Config, cut: Time) {
    forall calls :: From(calls, cut) ==>
      && Answers(s, cfg, calls) == Answers(t, cfg, calls)
      && forall key :: HasOpen(After(s, cfg, calls), key) <==> HasOpen(After(t, cfg, calls), key)
  }

  /** The engine a restart at `cut` builds. */
  function Restarted(s: State, maxAge: Duration, cut: Time): State {
    Restore(EMPTY, Snapshot(s), maxAge, cut)
  }

  /** What restoring a state file does: an entry last sent at most `maxAge` ago is open under
      its map key, as it was and was sent; every other one stays what it was. */
  lemma RestoreMeans(s: State, saved: Saved, maxAge: Duration, now: Time, kind: string, key: string)
    ensures var t := Restore(s, saved, maxAge, now);
            && t == s.(sent := t.sent)
            && if kind in saved && key in saved[kind] && now <= saved[kind][key].when + maxAge then
                 Open(t, kind, key) && t.sent[kind][key].when == saved[kind][key].when
                 && t.sent[kind][key].alert == saved[kind][key].alert.(key := key)
               else
                 (Open(t, kind, key) <==> Open(s, kind, key))
                 && (Open(s, kind, key) ==> t.sent[kind][key] == s.sent[kind][key])
  {}

  /** What a restart needs to go unnoticed: every open alert young enough to be restored,
      and no closed key resolved within the flap window before the cut. */
  ghost predicate RestartSafe(s: State, cfg: Config, maxAge: Duration, cut: Time) {
    && (forall kind, key :: Open(s, kind, key) ==> cut - Inner(s.sent, kind)[key].when <= maxAge)
    && (forall kind, key :: !Open(s, kind, key) && ResolvedAt(s, kind, key).Some?
          ==> cut - ResolvedAt(s, kind, key).value >= cfg.flap)
  }

  /** The engines agree on every key: open in both or in neither, and when closed, the flap
      window has passed in both or they remember the same resolve. */
  ghost predicate Alike(s: State, t: State, cfg: Config, cut: Time) {
    forall kind, key :: AlikeAt(DestOf(s, kind), DestOf(t, kind), key, cfg, cut)
  }

  predicate AlikeAt(d: Dest, e: Dest, key: string, cfg: Config, cut: Time) {
    && (key in d.sent <==> key in e.sent)
    && (key in d.sent || SameResolve(d, e, key) || (Cooled(d, key, cfg, cut) && Cooled(e, key, cfg, cut)))
  }

  predicate SameResolve(d: Dest, e: Dest, key: string) {
    key in d.flapped && key in e.flapped && d.flapped[key] == e.flapped[key]
  }

  predicate Cooled(d: Dest, key: string, cfg: Config, cut: Time) {
    key in d.flapped ==> cut - d.flapped[key] >= cfg.flap
  }

  lemma DecideAlike(d: Dest, e: Dest, cfg: Config, a: Alert, now: Time, cut: Time)
    requires now >= cut && forall key :: AlikeAt(d, e, key, cfg, cut)
    ensures Decide(d, cfg, a, now).0 == Decide(e, cfg, a, now).0
    ensures forall key :: AlikeAt(Decide(d, cfg, a, now).1, Decide(e, cfg, a, now).1, key, cfg, cut)
  {
    var f, g := Decide(d, cfg, a, now).1, Decide(e, cfg, a, now).1;
    assert AlikeAt(d, e, a.key, cfg, cut);
    forall key
      ensures AlikeAt(f, g, key, cfg, cut)
    {
      assert AlikeAt(d, e, key, cfg, cut);
    }
  }

  lemma StepAlike(s: State, t: State, cfg: Config, c: Call, cut: Time)
    requires c.now >= cut && Alike(s, t, cfg, cut)
    ensures ShouldSend(s, cfg, c.kind, c.alert, c.now).0 == ShouldSend(t, cfg, c.kind, c.alert, c.now).0
    ensures Alike(ShouldSend(s, cfg, c.kind, c.alert, c.now).1, ShouldSend(t, cfg, c.kind, c.alert, c.now).1, cfg, cut)
  {
    var (d, e) := (DestOf(s, c.kind), DestOf(t, c.kind));
    forall key
      ensures AlikeAt(d, e, key, cfg, cut)
    {
    }
    DecideAlike(d, e, cfg, c.alert, c.now, cut);
    var f, g := Decide(d, cfg, c.alert, c.now).1, Decide(e, cfg, c.alert, c.now).1;
    hide Decide, AlikeAt, WithDest, DestOf;
    forall kind, key
      ensures AlikeAt(DestOf(WithDest(s, c.kind, f), kind), DestOf(WithDest(t, c.kind, g), kind), key, cfg, cut)
    {
      DestUpdate(s, c.kind, f, kind);
      DestUpdate(t, c.kind, g, kind);
      assert AlikeAt(f, g, key, cfg, cut);
      assert AlikeAt(DestOf(s, kind), DestOf(t, kind), key, cfg, cut);
    }
  }

  lemma HasOpenAlike(s: State, t: State, cfg: Config, cut: Time)
    requires Alike(s, t, cfg, cut)
    ensures forall key :: HasOpen(s, key) <==> HasOpen(t, key)
  {
    forall key
      ensures HasOpen(s, key) <==> HasOpen(t, key)
    {
      forall kind
        ensures (kind in s.sent && key in s.sent[kind]) <==> (kind in t.sent && key in t.sent[kind])
      {
        assert AlikeAt(DestOf(s, kind), DestOf(t, kind), key, cfg, cut);
      }
    }
  }

  lemma {:induction false} RunAlike(s: State, t: State, cfg: Config, calls: seq<Call>, cut: Time)
    requires From(calls, cut) && Alike(s, t, cfg, cut)
    ensures Answers(s, cfg, calls) == Answers(t, cfg, calls)
    ensures Alike(After(s, cfg, calls), After(t, cfg, calls), cfg, cut)
    decreases |calls|
  {
    hide ShouldSend, Alike;
    if calls != [] {
      var c := calls[0];
      StepAlike(s, t, cfg, c, cut);
      RunAlike(ShouldSend(s, cfg, c.kind, c.alert, c.now).1, ShouldSend(t, cfg, c.kind, c.alert, c.now).1,
               cfg, calls[1..], cut);
    }
  }

  /** What a restart keeps of one destination. */
  lemma RestartedDest(s: State, maxAge: Duration, cut: Time, kind: string)
    ensures DestOf(Restarted(s, maxAge, cut), kind).flapped == map[]
    ensures forall key :: key in DestOf(Restarted(s, maxAge, cut), kind).sent <==>
              key in DestOf(s, kind).sent && cut - DestOf(s, kind).sent[key].when <= maxAge
  {
    assert Inner(EMPTY.sent, kind) == map[];
  }

  lemma SafeRestartAlike(s: State, cfg: Config, maxAge: Duration, cut: Time)
    requires RestartSafe(s, cfg, maxAge, cut)
    ensures Alike(s, Restarted(s, maxAge, cut), cfg, cut)
  {
    var t := Restarted(s, maxAge, cut);
    forall kind, key
      ensures AlikeAt(DestOf(s, kind), DestOf(t, kind), key, cfg, cut)
    {
      RestartedDest(s, maxAge, cut, kind);
      hide Restarted;
      assert Open(s, kind, key) <==> key in DestOf(s, kind).sent;
    }
  }

  /** An alert under a key, for telling two engines apart. */
  function Probe(key: string, resolved: bool): Alert {
    Alert("", "", key, "", "", resolved, "", "", 0, "", "", "", map[], false)
  }

  lemma OneAnswer(s: State, cfg: Config, c: Call)
    ensures Answers(s, cfg, [c]) == [ShouldSend(s, cfg, c.kind, c.alert, c.now).0]
  {
    assert [c][1..] == [];
  }

  /** An unsafe restart shows: a single decision at the cut tells the engines apart. */
  lemma UnsafeRestartShows(s: State, cfg: Config, maxAge: Duration, cut: Time)
    requires !RestartSafe(s, cfg, maxAge, cut)
    ensures !Indistinguishable(s, Restarted(s, maxAge, cut), cfg, cut)
  {
    var t := Restarted(s, maxAge, cut);
    if kind, key :| Open(s, kind, key) && cut - Inner(s.sent, kind)[key].when > maxAge {
      var c := Call(kind, Probe(key, true), cut);
      RestartedDest(s, maxAge, cut, kind);
      OneAnswer(s, cfg, c);
      OneAnswer(t, cfg, c);
      hide Restarted;
      assert From([c], cut) && Answers(s, cfg, [c]) != Answers(t, cfg, [c]);
    } else {
      var kind, key :| !Open(s, kind, key) && ResolvedAt(s, kind, key).Some?
                       && cut - ResolvedAt(s, kind, key).value < cfg.flap;
      var c := Call(kind, Probe(key, false), cut);
      RestartedDest(s, maxAge, cut, kind);
      OneAnswer(s, cfg, c);
      OneAnswer(t, cfg, c);
      hide Restarted;
      assert From([c], cut) && Answers(s, cfg, [c]) != Answers(t, cfg, [c]);
    }
  }

  /** Restart is invisible to every later decision exactly when it is safe. */
  lemma RestartInvisible(s: State, cfg: Config, maxAge: Duration, cut: Time)
    ensures Indistinguishable(s, Restarted(s, maxAge, cut), cfg, cut) <==> RestartSafe(s, cfg, maxAge, cut)
  {
    var t := Restarted(s, maxAge, cut);
    if RestartSafe(s, cfg, maxAge, cut) {
      SafeRestartAlike(s, cfg, maxAge, cut);
      forall calls | From(calls, cut)
        ensures Answers(s, cfg, calls) == Answers(t, cfg, calls)
        ensures forall key :: HasOpen(After(s, cfg, calls), key) <==> HasOpen(After(t, cfg, calls), key)
      {
        RunAlike(s, t, cfg, calls, cut);
        HasOpenAlike(After(s, cfg, calls), After(t, cfg, calls), cfg, cut);
      }
    } else {
      UnsafeRestartShows(s, cfg, maxAge, cut);
    }
  }

  /** Unsafe restarts exist: a raise and its resolve, and a cut within the flap window; or a
      raise left open beyond the maximum age. */
  lemma UnsafeHappens(cfg: Config, maxAge: Duration, kind: string, key: string, raised: Time, resolved: Time, cut: Time)
    ensures cut - resolved < cfg.flap ==>
              !RestartSafe(After(EMPTY, cfg,
                                 [Call(kind, Probe(key, false), raised), Call(kind, Probe(key, true), resolved)]),
                           cfg, maxAge, cut)
    ensures cut - raised > maxAge ==>
              !RestartSafe(After(EMPTY, cfg, [Call(kind, Probe(key, false), raised)]), cfg, maxAge, cut)
  {
    var raise, resolve := Call(kind, Probe(key, false), raised), Call(kind, Probe(key, true), resolved);
    var s := ShouldSend(EMPTY, cfg, kind, raise.alert, raised).1;
    var t := ShouldSend(s, cfg, kind, resolve.alert, resolved).1;
    assert [raise][1..] == [] && [raise, resolve][1..] == [resolve] && [resolve][1..] == [];
    assert After(s, cfg, []) == s && After(t, cfg, []) == t;
    assert After(EMPTY, cfg, [raise]) == s;
    assert After(s, cfg, [resolve]) == t;
    assert After(EMPTY, cfg, [raise, resolve]) == t;
    assert Open(s, kind, key) && Inner(s.sent, kind)[key].when == raised;
    assert !Open(t, kind, key) && ResolvedAt(t, kind, key).Some? && ResolvedAt(t, kind, key).value == resolved;
  }
}
