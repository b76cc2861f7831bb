/** The engine and the Telegram cards together: two separately kept records of what is open.
    Alerts let through to Telegram are delivered in order, each attempted until one attempt
    succeeds or the attempts run out. */
module EngineCards {
  import opened Alerts
  import opened Clocks
  import opened EngineRuns
  import opened EngineState
  import opened TelegramCards

  /** How the delivery of one alert goes: the configuration its destination is resolved to,
      which may differ from alert to alert, and the answers to its attempts. */
  datatype Delivery = Delivery(cfg: TgConfig, raw: string, clock: Time, attempts: seq<Api>)

  function Deliver(cards: Cards, c: TgConfig, a: Alert, raw: string, clock: Time, attempts: seq<Api>): Cards
    decreases |attempts|
  {
    if attempts == [] then cards
    else
      var (ok, t) := Send(cards, c, a, raw, clock, attempts[0]);
      if ok then t else Deliver(t, c, a, raw, clock, attempts[1..])
  }

  /** Some attempt could post a new message. */
  predicate AnyPost(attempts: seq<Api>) {
    exists i :: 0 <= i < |attempts| && attempts[i].post.Some?
  }

  /** The configuration names a bot and a channel; without them nothing is delivered. */
  predicate Configured(c: TgConfig) {
    c.apiKey != "" && c.channel != ""
  }

  /** Whether delivering a raise puts its key on a card: there is a configuration, and the
      card is there or can be posted. */
  predicate Reaches(cards: Cards, a: Alert, d: Delivery) {
    Configured(d.cfg) && (GroupKey(d.cfg.channel, a) in cards || AnyPost(d.attempts))
  }

  /** What the deliveries so far come to. shown[key]: the card the last raise of an open key
      was put on; missed: the open keys whose last raise reached no card; stale: the cards
      keys were left on by their resolves. */
  datatype Ledger = Ledger(shown: map<string, string>, missed: set<string>, stale: set<(string, string)>)

  /** Whether a resolve leaves its key on the card that shows it: it is delivered to another
      card, or to none. */
  predicate Lingers(l: Ledger, a: Alert, d: Delivery) {
    a.key in l.shown && !(Configured(d.cfg) && GroupKey(d.cfg.channel, a) == l.shown[a.key])
  }

  function Account(l: Ledger, cards: Cards, a: Alert, d: Delivery): Ledger {
    var own := (GroupKey(d.cfg.channel, a), a.key);
    if a.resolved then
      Ledger(l.shown - {a.key}, l.missed - {a.key},
             (if Configured(d.cfg) then l.stale - {own} else l.stale)
             + if Lingers(l, a, d) then {(l.shown[a.key], a.key)} else {})
    else if Reaches(cards, a, d) then Ledger(l.shown[a.key := own.0], l.missed - {a.key}, l.stale - {own})
    else l.(missed := l.missed + {a.key})
  }

  /** A section of the engine, and the delivery it causes if it lets an alert through. */
  datatype JointStep = JointStep(step: Step, delivery: Delivery)

  /** Reminders do not touch the cards. */
  datatype JointState = JointState(engine: State, cards: Cards, ledger: Ledger)

  const START := JointState(EMPTY, map[], Ledger(map[], {}, {}))

  predicate Decides(step: Step) {
    step.section.Deciding? && step.section.kind == "telegram"
  }

  function JointApply(s: JointState, cfg: Config, j: JointStep): JointState {
    var (t, log) := Apply(s.engine, cfg, j.step);
    if !Decides(j.step) || log == [] then s.(engine := t)
    else
      var a, d := j.step.section.alert, j.delivery;
      JointState(t, Deliver(s.cards, d.cfg, a, d.raw, d.clock, d.attempts), Account(s.ledger, s.cards, a, d))
  }

  function JointRun(start: JointState, cfg: Config, run: seq<JointStep>): JointState {
    if run == [] then start else JointApply(JointRun(start, cfg, run[..|run| - 1]), cfg, run[|run| - 1])
  }

  /** Dispatched alerts are no reminders, there is a time of day, and at least one delivery is
      attempted. Bot, channel, chain id and node may differ from alert to alert. */
  predicate Orderly(j: JointStep) {
    Decides(j.step) ==> !j.step.section.alert.reminder && j.delivery.clock != 0 && j.delivery.attempts != []
  }

  // ----- One delivery -----

  /** A raise leaves its card in place unless it was new and could not be posted; its
      delivery then succeeds exactly when the post does. */
  lemma RaiseLeavesCard(cards: Cards, c: TgConfig, a: Alert, raw: string, clock: Time, api: Api)
    requires Configured(c) && !a.resolved && !a.reminder
    ensures var (ok, t) := Send(cards, c, a, raw, clock, api);
            var own := GroupKey(c.channel, a);
            && (own in t <==> own in cards || api.post.Some?)
            && (own !in cards ==> (ok <==> api.post.Some?))
  {
    hide GroupKey, AlertNode, ChainOf, Add, Announced;
  }

  /** What delivering an alert does to what the cards show, for every sequence of answers. */
  lemma {:induction false} DeliverShows(cards: Cards, c: TgConfig, a: Alert, raw: string, clock: Time,
                                        attempts: seq<Api>, gk: string, key: string)
    requires WellFormed(cards) && clock != 0 && Configured(c) && !a.reminder && attempts != []
    ensures var after, own := Deliver(cards, c, a, raw, clock, attempts), GroupKey(c.channel, a);
            && WellFormed(after)
            && (OnCard(after, gk, key) <==>
                  if (gk, key) != (own, a.key) then OnCard(cards, gk, key)
                  else !a.resolved && (own in cards || AnyPost(attempts)))
    decreases |attempts|
  {
    hide Send, WellFormed, OnCard, GroupKey;
    var (ok, t) := Send(cards, c, a, raw, clock, attempts[0]);
    SendKeepsWellFormed(cards, c, a, raw, clock, attempts[0]);
    SendShows(cards, c, a, raw, clock, attempts[0], gk, key);
    if !a.resolved {
      RaiseLeavesCard(cards, c, a, raw, clock, attempts[0]);
    }
    FirstPost(attempts);
    if !ok && |attempts| > 1 {
      DeliverShows(t, c, a, raw, clock, attempts[1..], gk, key);
    }
  }

  /** Without a configuration nothing changes. */
  lemma {:induction false} DeliverNothing(cards: Cards, c: TgConfig, a: Alert, raw: string, clock: Time,
                                          attempts: seq<Api>)
    requires !Configured(c)
    ensures Deliver(cards, c, a, raw, clock, attempts) == cards
    decreases |attempts|
  {
    if attempts != [] {
      DeliverNothing(cards, c, a, raw, clock, attempts[1..]);
    }
  }

  lemma CardThere(cards: Cards, gk: string, key: string)
    ensures OnCard(cards, gk, key) ==> gk in cards
  {}

  /** What a delivery does to the keys on cards, whatever its configuration. */
  lemma DeliveryShows(cards: Cards, a: Alert, d: Delivery, gk: string, key: string)
    requires WellFormed(cards) && d.clock != 0 && !a.reminder && d.attempts != []
    ensures var after, own := Deliver(cards, d.cfg, a, d.raw, d.clock, d.attempts), GroupKey(d.cfg.channel, a);
            && WellFormed(after)
            && (OnCard(after, gk, key) <==>
                  if !Configured(d.cfg) || (gk, key) != (own, a.key) then OnCard(cards, gk, key)
                  else !a.resolved && Reaches(cards, a, d))
  {
    if Configured(d.cfg) {
      DeliverShows(cards, d.cfg, a, d.raw, d.clock, d.attempts, gk, key);
    } else {
      DeliverNothing(cards, d.cfg, a, d.raw, d.clock, d.attempts);
    }
    hide Deliver, OnCard, WellFormed, GroupKey, AnyPost;
  }

  lemma FirstPost(attempts: seq<Api>)
    requires attempts != []
    ensures AnyPost(attempts) <==> attempts[0].post.Some? || AnyPost(attempts[1..])
  {
    if i :| 0 < i < |attempts| && attempts[i].post.Some? {
      assert attempts[1..][i - 1] == attempts[i];
    }
  }

  // ----- Every run -----

  /** The cards show exactly the shown keys, each on its card, and the stale ones, each where
      it was left; the keys in sent["telegram"] are exactly the shown and the missed ones. */
  ghost predicate InStep(s: JointState) {
    && WellFormed(s.cards)
    && (forall gk, key :: OnCard(s.cards, gk, key) <==> Shown(s.ledger, gk, key) || (gk, key) in s.ledger.stale)
    && (forall gk, key :: !(Shown(s.ledger, gk, key) && (gk, key) in s.ledger.stale))
    && (forall key :: Open(s.engine, "telegram", key) <==> key in s.ledger.shown || key in s.ledger.missed)
    && (forall key :: !(key in s.ledger.shown && key in s.ledger.missed))
  }

  predicate Shown(l: Ledger, gk: string, key: string) {
    key in l.shown && l.shown[key] == gk
  }

  /** What a section that decides nothing for Telegram leaves alone. */
  lemma OthersKeepOpen(s: State, cfg: Config, step: Step, key: string)
    requires !Decides(step)
    ensures Open(Apply(s, cfg, step).0, "telegram", key) <==> Open(s, "telegram", key)
  {
    if step.section.Deciding? {
      DecidingKeepsOthers(s, cfg, step.section.kind, step.section.alert, step.now, "telegram", key);
      hide ShouldSend;
    } else if step.section.Reminding? {
      RemindingKeeps(s, cfg, step.now, "telegram", key);
      hide Remind, DueSet;
    } else {
      SilentSections(s, cfg, step);
      hide Apply;
    }
  }

  /** What a decision for Telegram does to the keys open there. */
  lemma DecisionMoves(s: State, cfg: Config, a: Alert, now: Time, key: string)
    ensures var (ok, t) := ShouldSend(s, cfg, "telegram", a, now);
            && (Open(t, "telegram", key) <==> if ok && key == a.key then !a.resolved else Open(s, "telegram", key))
            && (ok ==> (Open(s, "telegram", a.key) <==> a.resolved))
  {
    DecidingOwn(s, cfg, "telegram", a, now);
    if key != a.key {
      DecidingKeepsOthers(s, cfg, "telegram", a, now, "telegram", key);
    }
    var t := ShouldSend(s, cfg, "telegram", a, now).1;
    hide ShouldSend, WithDest, Inner;
    assert DestOf(t, "telegram").sent == Inner(t.sent, "telegram");
  }

  /** One step keeps the engine and the cards in step, whatever the Bot API answers. */
  lemma {:induction false} StepInStep(s: JointState, cfg: Config, j: JointStep)
    requires InStep(s) && Orderly(j)
    ensures InStep(JointApply(s, cfg, j))
  {
    hide Open, OnCard, WellFormed, Apply, ShouldSend, GroupKey, Deliver, Account, Reaches;
    var t := JointApply(s, cfg, j);
    if Decides(j.step) {
      var a, d := j.step.section.alert, j.delivery;
      var ok := ShouldSend(s.engine, cfg, "telegram", a, j.step.now).0;
      DecisionApplies(s.engine, cfg, j.step);
      DecisionMoves(s.engine, cfg, a, j.step.now, a.key);
      forall key
        ensures Open(t.engine, "telegram", key) <==>
                  if ok && key == a.key then !a.resolved else Open(s.engine, "telegram", key)
      {
        DecisionMoves(s.engine, cfg, a, j.step.now, key);
      }
      if ok {
        DeliveryShows(s.cards, a, d, GroupKey(d.cfg.channel, a), a.key);
        forall gk, key
          ensures OnCard(t.cards, gk, key) <==> Shown(t.ledger, gk, key) || (gk, key) in t.ledger.stale
          ensures !(Shown(t.ledger, gk, key) && (gk, key) in t.ledger.stale)
        {
          DeliveryShows(s.cards, a, d, gk, key);
          AccountShows(s.ledger, s.cards, a, d, gk, key);
        }
        AccountOpens(s.ledger, s.cards, a, d);
      }
    } else {
      forall key
        ensures Open(t.engine, "telegram", key) <==> Open(s.engine, "telegram", key)
      {
        OthersKeepOpen(s.engine, cfg, j.step, key);
      }
    }
  }

  /** The ledger follows the cards: a delivery moves the same key on the same card. */
  lemma AccountShows(l: Ledger, cards: Cards, a: Alert, d: Delivery, gk: string, key: string)
    requires !(a.key in l.shown && a.key in l.missed) && (a.key in l.shown || a.key in l.missed <==> a.resolved)
    requires OnCard(cards, gk, key) <==> Shown(l, gk, key) || (gk, key) in l.stale
    requires !(Shown(l, gk, key) && (gk, key) in l.stale)
    ensures var after, own := Account(l, cards, a, d), GroupKey(d.cfg.channel, a);
            && !(Shown(after, gk, key) && (gk, key) in after.stale)
            && (Shown(after, gk, key) || (gk, key) in after.stale <==>
                  if !Configured(d.cfg) || (gk, key) != (own, a.key) then OnCard(cards, gk, key)
                  else !a.resolved && Reaches(cards, a, d))
  {
    CardThere(cards, gk, key);
    hide GroupKey, OnCard, AnyPost;
  }

  lemma AccountOpens(l: Ledger, cards: Cards, a: Alert, d: Delivery)
    requires forall key :: !(key in l.shown && key in l.missed)
    requires a.key in l.shown || a.key in l.missed <==> a.resolved
    ensures var after := Account(l, cards, a, d);
            && (forall key :: !(key in after.shown && key in after.missed))
            && (forall key :: key in after.shown || key in after.missed <==>
                  if key == a.key then !a.resolved else key in l.shown || key in l.missed)
  {
    hide Reaches, GroupKey;
  }

  lemma DecisionApplies(s: State, cfg: Config, step: Step)
    requires Decides(step)
    ensures var (ok, t) := ShouldSend(s, cfg, "telegram", step.section.alert, step.now);
            Apply(s, cfg, step).0 == t && (Apply(s, cfg, step).1 != [] <==> ok)
  {
    hide ShouldSend;
  }

  /** In every run, whatever the Bot API answers and however bots, channels, chain ids and
      nodes change from alert to alert: no card has two open conditions with one key; a key
      in sent["telegram"] is on the card its last raise was put on, or its last raise was
      missed; and any other key on a card was left there by a resolve that was delivered to
      another card or to none. The run may start from any engine and cards in step. */
  lemma {:induction false} CardsFollowEngine(start: JointState, cfg: Config, run: seq<JointStep>)
    requires InStep(start) && forall i :: 0 <= i < |run| ==> Orderly(run[i])
    ensures InStep(JointRun(start, cfg, run))
  {
    hide Orderly, JointApply, InStep;
    if run != [] {
      CardsFollowEngine(start, cfg, run[..|run| - 1]);
      StepInStep(JointRun(start, cfg, run[..|run| - 1]), cfg, run[|run| - 1]);
    }
  }

  /** After a resolve is let through its key is left exactly where earlier resolves left it, save
      the card this one is delivered to, and on the card that showed it, if this one is
      delivered to another card or to none. */
  lemma {:induction false} ResolveLeaves(s: JointState, cfg: Config, a: Alert, now: Time, d: Delivery, gk: string)
    requires InStep(s) && a.resolved && Open(s.engine, "telegram", a.key)
    requires Orderly(JointStep(Step(Deciding("telegram", a), now), d))
    ensures var t := JointApply(s, cfg, JointStep(Step(Deciding("telegram", a), now), d));
            OnCard(t.cards, gk, a.key) <==>
              || ((gk, a.key) in s.ledger.stale && !(Configured(d.cfg) && gk == GroupKey(d.cfg.channel, a)))
              || (Shown(s.ledger, gk, a.key) && !(Configured(d.cfg) && gk == GroupKey(d.cfg.channel, a)))
  {
    var j := JointStep(Step(Deciding("telegram", a), now), d);
    LetThrough(s.engine, cfg, a, now);
    DecisionApplies(s.engine, cfg, j.step);
    StepInStep(s, cfg, j);
    hide Apply, Deliver, ShouldSend, GroupKey, WellFormed, Open, OnCard;
  }

  /** A new engine and an empty card map are in step. */
  lemma StartInStep(card: string -> string)
    ensures InStep(START) && Lively(START.cards) && AtHome(START.ledger, card)
    ensures START.ledger.missed == {} && START.ledger.stale == {}
  {}

  // ----- Channel, chain id and node as functions of the key -----

  /** The card of an alert that can be delivered is its key's. */
  ghost predicate Grouped(j: JointStep, card: string -> string) {
    Decides(j.step) && Configured(j.delivery.cfg) ==>
      GroupKey(j.delivery.cfg.channel, j.step.section.alert) == card(j.step.section.alert.key)
  }

  /** Every key is on its own card, if on any. */
  ghost predicate AtHome(l: Ledger, card: string -> string) {
    && (forall key :: key in l.shown ==> l.shown[key] == card(key))
    && (forall gk, key :: (gk, key) in l.stale ==> gk == card(key))
  }

  lemma AccountAtHome(l: Ledger, cards: Cards, a: Alert, d: Delivery, card: string -> string)
    requires AtHome(l, card) && (Configured(d.cfg) ==> GroupKey(d.cfg.channel, a) == card(a.key))
    ensures AtHome(Account(l, cards, a, d), card)
    ensures a.resolved && Configured(d.cfg) && l.stale == {} ==> Account(l, cards, a, d).stale == {}
  {
    hide GroupKey, AnyPost;
  }

  /** Then no key is ever open on two cards, whatever the Bot API answers, and a resolve leaves
      its key behind only when it has no configuration. */
  lemma {:induction false} CardsStayHome(start: JointState, cfg: Config, run: seq<JointStep>, card: string -> string)
    requires InStep(start) && AtHome(start.ledger, card)
    requires forall i :: 0 <= i < |run| ==> Orderly(run[i]) && Grouped(run[i], card)
    ensures var s := JointRun(start, cfg, run);
            && AtHome(s.ledger, card)
            && (forall gk, key :: OnCard(s.cards, gk, key) ==> gk == card(key))
            && forall a: Alert, d: Delivery :: (Configured(d.cfg) ==> GroupKey(d.cfg.channel, a) == card(a.key)) ==>
                 (Lingers(s.ledger, a, d) <==> a.key in s.ledger.shown && !Configured(d.cfg))
  {
    CardsFollowEngine(start, cfg, run);
    if run != [] {
      var before, j := JointRun(start, cfg, run[..|run| - 1]), run[|run| - 1];
      CardsStayHome(start, cfg, run[..|run| - 1], card);
      if Decides(j.step) {
        AccountAtHome(before.ledger, before.cards, j.step.section.alert, j.delivery, card);
      }
    }
    hide Apply, Account, Deliver, OnCard, GroupKey, WellFormed, Open;
  }

  /** There is a configuration and the first attempt gets through; an edit whose message is
      gone may post it anew. */
  predicate Works(d: Delivery) {
    Configured(d.cfg) && d.attempts != [] && d.attempts[0].post.Some? && EditWorks(d.attempts[0]) && d.attempts[0].reply
  }

  lemma WorkingSend(cards: Cards, a: Alert, d: Delivery)
    requires WellFormed(cards) && Lively(cards) && d.clock != 0 && Works(d)
    ensures Lively(Deliver(cards, d.cfg, a, d.raw, d.clock, d.attempts)) && Reaches(cards, a, d)
  {
    SendLively(cards, d.cfg, a, d.raw, d.clock, d.attempts[0]);
    assert Send(cards, d.cfg, a, d.raw, d.clock, d.attempts[0]).0 by {
      hide GroupKey, AlertNode, ChainOf, AllClear, OpenIndex, Clear, Add, Announced;
    }
    hide Send, WellFormed, Lively, GroupKey;
  }

  /** When moreover the Bot API works, the keys open on some card are exactly the keys in
      sent["telegram"], and every stored card has an open condition: from a new engine and
      an empty card map, as from any other start where this is so. */
  lemma {:induction false} CardsEqualEngine(start: JointState, cfg: Config, run: seq<JointStep>, card: string -> string)
    requires InStep(start) && AtHome(start.ledger, card) && Lively(start.cards)
    requires start.ledger.missed == {} && start.ledger.stale == {}
    requires forall i :: 0 <= i < |run| ==> Orderly(run[i]) && Grouped(run[i], card) && Works(run[i].delivery)
    ensures var s := JointRun(start, cfg, run);
            && Lively(s.cards) && s.ledger.missed == {} && s.ledger.stale == {}
            && forall key :: Open(s.engine, "telegram", key) <==> exists gk :: OnCard(s.cards, gk, key)
  {
    CardsFollowEngine(start, cfg, run);
    var s := JointRun(start, cfg, run);
    assert Lively(s.cards) && s.ledger.missed == {} && s.ledger.stale == {} by {
      hide Apply, Deliver, GroupKey, Reaches, WellFormed, Lively, Works, AtHome, OnCard, Open;
      if run != [] {
        var before, j := JointRun(start, cfg, run[..|run| - 1]), run[|run| - 1];
        CardsEqualEngine(start, cfg, run[..|run| - 1], card);
        CardsStayHome(start, cfg, run[..|run| - 1], card);
        CardsFollowEngine(start, cfg, run[..|run| - 1]);
        if Decides(j.step) {
          WorkingSend(before.cards, j.step.section.alert, j.delivery);
          assert Configured(j.delivery.cfg) by { WorksConfigured(j.delivery); }
          AccountAtHome(before.ledger, before.cards, j.step.section.alert, j.delivery, card);
        }
      }
    }
    forall key
      ensures Open(s.engine, "telegram", key) <==> exists gk :: OnCard(s.cards, gk, key)
    {
      if key in s.ledger.shown {
        assert Shown(s.ledger, s.ledger.shown[key], key);
      }
    }
  }

  lemma WorksConfigured(d: Delivery)
    ensures Works(d) ==> Configured(d.cfg)
  {}

  // ----- Misses and leftovers happen -----

  lemma FirstStep(cfg: Config, j: JointStep)
    ensures JointRun(START, cfg, [j]) == JointApply(START, cfg, j)
  {
    assert [j][..0] == [] && JointRun(START, cfg, []) == START;
  }

  /** The first raise of a run is let through. */
  lemma FirstRaise(cfg: Config, a: Alert, now: Time, d: Delivery)
    requires !a.resolved && Orderly(JointStep(Step(Deciding("telegram", a), now), d))
    ensures var s := JointRun(START, cfg, [JointStep(Step(Deciding("telegram", a), now), d)]);
            && InStep(s) && Open(s.engine, "telegram", a.key)
            && s.ledger == Account(START.ledger, START.cards, a, d)
  {
    var j := JointStep(Step(Deciding("telegram", a), now), d);
    FirstStep(cfg, j);
    StartInStep(key => key);
    StepInStep(START, cfg, j);
    assert ShouldSend(EMPTY, cfg, "telegram", a, now).0;
    DecisionApplies(EMPTY, cfg, j.step);
    DecisionMoves(EMPTY, cfg, a, now, a.key);
    hide Apply, Deliver, Account, ShouldSend, GroupKey, WellFormed, OnCard, Open;
  }

  /** Missed raises exist: any first raise none of whose attempts can post. */
  lemma MissHappens(cfg: Config, a: Alert, now: Time, d: Delivery)
    requires !a.resolved && !AnyPost(d.attempts) && Orderly(JointStep(Step(Deciding("telegram", a), now), d))
    ensures var s := JointRun(START, cfg, [JointStep(Step(Deciding("telegram", a), now), d)]);
            s.ledger.missed == {a.key} && Open(s.engine, "telegram", a.key) && forall gk :: !OnCard(s.cards, gk, a.key)
  {
    FirstRaise(cfg, a, now, d);
    hide OnCard, Open, WellFormed, GroupKey, JointRun;
  }

  /** Leftovers exist: any first raise that is posted, when its resolve has lost its bot or its
      channel, or is resolved to another channel, chain id or node. */
  lemma LingerHappens(cfg: Config, a: Alert, b: Alert, now: Time, later: Time, d: Delivery, e: Delivery)
    requires !a.resolved && Configured(d.cfg) && AnyPost(d.attempts) && b.resolved && b.key == a.key
    requires !Configured(e.cfg) || GroupKey(e.cfg.channel, b) != GroupKey(d.cfg.channel, a)
    requires Orderly(JointStep(Step(Deciding("telegram", a), now), d))
    requires Orderly(JointStep(Step(Deciding("telegram", b), later), e))
    ensures var raise := JointStep(Step(Deciding("telegram", a), now), d);
            var resolve := JointStep(Step(Deciding("telegram", b), later), e);
            var s := JointRun(START, cfg, [raise, resolve]);
            && s.ledger.stale == {(GroupKey(d.cfg.channel, a), a.key)}
            && !Open(s.engine, "telegram", a.key) && OnCard(s.cards, GroupKey(d.cfg.channel, a), a.key)
  {
    var raise := JointStep(Step(Deciding("telegram", a), now), d);
    var resolve := JointStep(Step(Deciding("telegram", b), later), e);
    assert [raise, resolve][..1] == [raise];
    FirstRaise(cfg, a, now, d);
    var s := JointRun(START, cfg, [raise]);
    StepInStep(s, cfg, resolve);
    DecisionApplies(s.engine, cfg, resolve.step);
    DecisionMoves(s.engine, cfg, b, later, a.key);
    LetThrough(s.engine, cfg, b, later);
    assert JointRun(START, cfg, [raise, resolve]) == JointApply(s, cfg, resolve);
    hide Apply, Deliver, ShouldSend, GroupKey, WellFormed, Open, OnCard, JointRun;
    assert s.ledger == Ledger(map[a.key := GroupKey(d.cfg.channel, a)], {}, {});
    assert Lingers(s.ledger, b, e);
  }

  lemma LetThrough(s: State, cfg: Config, a: Alert, now: Time)
    requires a.resolved && Open(s, "telegram", a.key)
    ensures ShouldSend(s, cfg, "telegram", a, now).0
  {}
}
