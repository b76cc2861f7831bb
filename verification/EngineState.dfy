/** The alert engine's state and what each section that runs under its lock does to it. */
module EngineState {
  import opened Alerts
  import opened Clocks
  import opened Options

  /** An alert as it was sent, and when it was last sent. */
  datatype Entry = Entry(alert: Alert, when: Time)

  datatype Config = Config(flap: Duration, remind: Duration, notifiers: set<string>, rx: Regexp)

  /** sent[kind][key]: open alerts by destination. flapped[kind][key]: last resolve.
      active[chain][key]: open conditions. held[key]: raises muted by a silence. */
  datatype State = State(
    sent: map<string, map<string, Entry>>,
    flapped: map<string, map<string, Time>>,
    active: map<string, map<string, Time>>,
    silences: map<string, Silence>,
    held: map<string, Alert>)

  const EMPTY := State(map[], map[], map[], map[], map[])

  /** Reading a missing inner map reads an empty one. */
  function Inner<V>(m: map<string, map<string, V>>, k: string): map<string, V> {
    if k in m then m[k] else map[]
  }

  predicate Open(s: State, kind: string, key: string) {
    key in Inner(s.sent, kind)
  }

  function ResolvedAt(s: State, kind: string, key: string): Option<Time> {
    var m := Inner(s.flapped, kind);
    if key in m then Some(m[key]) else None
  }

  predicate HasOpen(s: State, key: string) {
    exists kind :: kind in s.sent && key in s.sent[kind]
  }

  predicate Silenced(s: State, cfg: Config, a: Alert, now: Time) {
    exists id :: id in s.silences && s.silences[id].Mutes(cfg.rx, a.LabelSet(), now)
  }

  lemma SilencedBySilences(s: State, t: State, cfg: Config, a: Alert, now: Time)
    requires s.silences == t.silences
    ensures Silenced(s, cfg, a, now) == Silenced(t, cfg, a, now)
  {}

  // ----- Sections under the lock -----

  /** Dispatch's first section, for a prepared alert: whether it was muted, and the new state. */
  function Register(s: State, cfg: Config, a: Alert, now: Time): (bool, State) {
    var keys := Inner(s.active, a.chain);
    if a.resolved then
      (false, s.(active := s.active[a.chain := keys - {a.key}], held := s.held - {a.key}))
    else
      var t := s.(active := s.active[a.chain := keys[a.key := a.time]]);
      if Silenced(t, cfg, a, now) then (true, t.(held := t.held[a.key := a])) else (false, t)
  }

  /** The open alerts and last resolves of one destination. */
  datatype Dest = Dest(sent: map<string, Entry>, flapped: map<string, Time>)

  /** The dedup decision for one destination. */
  function Decide(d: Dest, cfg: Config, a: Alert, now: Time): (bool, Dest) {
    if a.resolved then
      if a.key !in d.sent then (false, d)
      else (true, Dest(d.sent - {a.key}, d.flapped[a.key := now]))
    else if a.key in d.sent then (false, d)
    else if a.key in d.flapped && now - d.flapped[a.key] < cfg.flap then (false, d)
    else (true, d.(sent := d.sent[a.key := Entry(a, now)]))
  }

  function DestOf(s: State, kind: string): Dest {
    Dest(Inner(s.sent, kind), Inner(s.flapped, kind))
  }

  function WithDest(s: State, kind: string, d: Dest): State {
    s.(sent := s.sent[kind := d.sent], flapped := s.flapped[kind := d.flapped])
  }

  /** shouldSend: whether the alert goes out to `kind`, and the new state. */
  function ShouldSend(s: State, cfg: Config, kind: string, a: Alert, now: Time): (bool, State) {
    var (ok, d) := Decide(DestOf(s, kind), cfg, a, now);
    (ok, WithDest(s, kind, d))
  }

  lemma DestUpdate(s: State, kind: string, d: Dest, k: string)
    ensures DestOf(WithDest(s, kind, d), k) == if k == kind then d else DestOf(s, k)
  {}

  /** Whether a reminder is due for an open alert. */
  predicate DueEntry(s: State, cfg: Config, e: Entry, now: Time) {
    e.alert.key != "" && now - e.when >= cfg.remind && !Silenced(s, cfg, e.alert, now)
  }

  predicate Due(s: State, cfg: Config, kind: string, key: string, now: Time) {
    kind in s.sent && key in s.sent[kind] && DueEntry(s, cfg, s.sent[kind][key], now)
  }

  /** One destination after a reminder tick: every due entry counts as sent now. */
  function RemindKind(s: State, cfg: Config, entries: map<string, Entry>, now: Time): map<string, Entry> {
    map key | key in entries ::
      if DueEntry(s, cfg, entries[key], now) then entries[key].(when := now) else entries[key]
  }

  function Remind(s: State, cfg: Config, now: Time): State {
    s.(sent := map kind | kind in s.sent :: RemindKind(s, cfg, s.sent[kind], now))
  }

  /** What a reminder sends for an open alert. */
  function ReminderOf(a: Alert): Alert {
    a.(message := "(reminder) " + a.message, reminder := true)
  }

  /** A reminder to send: the destination, the key it is open under, and the payload. */
  datatype ReminderItem = ReminderItem(kind: string, key: string, alert: Alert)

  /** Whether a tick sends an item: a due entry, whose destination is registered and still
      applies to it. */
  predicate IsReminder(s: State, cfg: Config, resolver: Alert -> seq<string>, item: ReminderItem, now: Time) {
    && Due(s, cfg, item.kind, item.key, now) && item.alert == ReminderOf(s.sent[item.kind][item.key].alert)
    && item.kind in cfg.notifiers && item.kind in resolver(item.alert)
  }

  /** How often a tick lists an item: as often as the resolver names its destination. */
  function Times(s: State, cfg: Config, resolver: Alert -> seq<string>, item: ReminderItem, now: Time): nat {
    if IsReminder(s, cfg, resolver, item, now) then multiset(resolver(item.alert))[item.kind] else 0
  }

  /** A list of the reminders of a tick, in an order in which a walk over `sent` may meet them. */
  ghost predicate IsReminderList(s: State, cfg: Config, resolver: Alert -> seq<string>, items: seq<ReminderItem>,
                                 now: Time)
  {
    forall item :: multiset(items)[item] == Times(s, cfg, resolver, item, now)
  }

  /** A reminder is the payload of an alert open at its destination, marked as a reminder and
      otherwise as it was sent; the alert was last sent at least `remind` ago, nothing mutes
      it, and the destination is registered and still applies. */
  lemma ReminderMeans(s: State, cfg: Config, resolver: Alert -> seq<string>, item: ReminderItem, now: Time)
    ensures IsReminder(s, cfg, resolver, item, now) <==>
              && Open(s, item.kind, item.key)
              && var e := s.sent[item.kind][item.key];
                 && e.alert.key != "" && e.when + cfg.remind <= now && !Silenced(s, cfg, e.alert, now)
                 && item.alert.reminder && item.alert.message == "(reminder) " + e.alert.message
                 && item.alert.(reminder := e.alert.reminder, message := e.alert.message) == e.alert
                 && item.kind in cfg.notifiers && item.kind in resolver(item.alert)
  {
    hide Silenced;
  }

  /** When the resolver names each destination once, every reminder is listed exactly once. */
  lemma RemindersListedOnce(s: State, cfg: Config, resolver: Alert -> seq<string>, items: seq<ReminderItem>, now: Time)
    requires IsReminderList(s, cfg, resolver, items, now)
    requires forall a, kind :: multiset(resolver(a))[kind] <= 1
    ensures forall item :: item in items <==> IsReminder(s, cfg, resolver, item, now)
    ensures forall i, j :: 0 <= i < j < |items| ==> items[i] != items[j]
  {
    hide Due, DueEntry;
    forall item
      ensures item in items <==> IsReminder(s, cfg, resolver, item, now)
    {
      assert item in items <==> multiset(items)[item] > 0;
      assert IsReminder(s, cfg, resolver, item, now) ==> item.kind in multiset(resolver(item.alert));
    }
    forall i, j | 0 <= i < j < |items|
      ensures items[i] != items[j]
    {
      assert items == items[..j] + [items[j]] + items[j + 1..];
      assert items[i] == items[..j][i];
      assert multiset(items) == multiset(items[..j]) + multiset{items[j]} + multiset(items[j + 1..]);
      assert multiset(items)[items[j]] <= 1;
    }
  }

  /** The held alerts nothing mutes any more. */
  function Unmuted(s: State, cfg: Config, now: Time): set<string> {
    set key | key in s.held && !Silenced(s, cfg, s.held[key], now)
  }

  /** releaseHeld's section. */
  function Release(s: State, cfg: Config, now: Time): State {
    s.(held := s.held - Unmuted(s, cfg, now))
  }

  /** The keys of the alerts releaseHeld then dispatches: those still open. */
  function DueKeys(s: State, cfg: Config, now: Time): set<string> {
    set key | key in Unmuted(s, cfg, now) && key in Inner(s.active, s.held[key].chain)
  }

  function Store(s: State, silence: Silence): State {
    s.(silences := s.silences[silence.id := silence])
  }

  function Expire(s: State, id: string, now: Time): State {
    if id in s.silences && s.silences[id].endsAt > now
    then s.(silences := s.silences[id := s.silences[id].(endsAt := now, updatedAt := now)])
    else s
  }

  /** RunSilences forgets silences a day after they ended. */
  function Prune(s: State, now: Time): State {
    s.(silences := map id | id in s.silences && now - s.silences[id].endsAt <= 24 * HOUR :: s.silences[id])
  }

  /** RestoreSilences' treatment of one persisted silence. */
  function RestoreSilence(s: State, rx: Regexp, silence: Silence, now: Time): State {
    var compiled := CompileAll(rx, silence.matchers);
    if now - silence.endsAt > 24 * HOUR || compiled.None? then s
    else Store(s, silence.(matchers := compiled.value))
  }

  /** RestoreSilences. */
  function RestoreEach(s: State, rx: Regexp, list: seq<Silence>, now: Time): State {
    if list == [] then s
    else RestoreSilence(RestoreEach(s, rx, list[..|list| - 1], now), rx, list[|list| - 1], now)
  }

  /** What the state file keeps of an engine: the open alerts. */
  type Saved = map<string, map<string, Entry>>

  function Snapshot(s: State): Saved { s.sent }

  predicate Fresh(saved: Saved, kind: string, key: string, maxAge: Duration, now: Time) {
    kind in saved && key in saved[kind] && now - saved[kind][key].when <= maxAge
  }

  /** The entries of one destination that are not too old, under their authoritative key. */
  function FreshEntries(saved: Saved, kind: string, maxAge: Duration, now: Time): map<string, Entry> {
    map key | key in Inner(saved, kind) && Fresh(saved, kind, key, maxAge, now) ::
      var e := saved[kind][key]; e.(alert := e.alert.(key := key))
  }

  function RestoredKind(entries: map<string, Entry>, saved: Saved, kind: string, maxAge: Duration, now: Time)
    : map<string, Entry>
  {
    entries + FreshEntries(saved, kind, maxAge, now)
  }

  function Restore(s: State, saved: Saved, maxAge: Duration, now: Time): State {
    s.(sent := map kind | kind in s.sent.Keys + saved.Keys ::
        RestoredKind(Inner(s.sent, kind), saved, kind, maxAge, now))
  }

  // ----- Whole calls, without another call in between -----

  datatype Edge = Raise | Resolve | Reminder

  /** An alert let through to a destination. */
  datatype Event = Event(kind: string, key: string, edge: Edge, at: Time)

  function EdgeOf(a: Alert): Edge { if a.resolved then Resolve else Raise }

  /** Dispatch's loop over the destinations; a kind without a notifier is skipped. */
  function SendAll(s: State, cfg: Config, kinds: seq<string>, a: Alert, now: Time): (State, seq<Event>)
    decreases |kinds|
  {
    if kinds == [] then (s, [])
    else if kinds[0] !in cfg.notifiers then SendAll(s, cfg, kinds[1..], a, now)
    else
      var (ok, t) := ShouldSend(s, cfg, kinds[0], a, now);
      var (u, events) := SendAll(t, cfg, kinds[1..], a, now);
      (u, (if ok then [Event(kinds[0], a.key, EdgeOf(a), now)] else []) + events)
  }

  function Dispatch(s: State, cfg: Config, a: Alert, resolver: Alert -> seq<string>, now: Time): (State, seq<Event>) {
    var p := Prepared(a, now);
    var (muted, t) := Register(s, cfg, p, now);
    if muted then (t, []) else SendAll(t, cfg, resolver(p), p, now)
  }

  function DispatchEach(s: State, cfg: Config, alerts: seq<Alert>, resolver: Alert -> seq<string>, now: Time)
    : (State, seq<Event>)
    decreases |alerts|
  {
    if alerts == [] then (s, [])
    else
      var (t, events) := Dispatch(s, cfg, alerts[0], resolver, now);
      var (u, more) := DispatchEach(t, cfg, alerts[1..], resolver, now);
      (u, events + more)
  }

  /** An order in which a walk over the map `held` may meet the due keys, each once. */
  predicate IsOrder(keys: set<string>, order: seq<string>) {
    && (forall i :: 0 <= i < |order| ==> order[i] in keys)
    && (forall key :: key in keys ==> key in order)
    && (forall i, j :: 0 <= i < j < |order| ==> order[i] != order[j])
  }

  function HeldAlerts(s: State, order: seq<string>): seq<Alert>
    requires forall i :: 0 <= i < |order| ==> order[i] in s.held
  {
    seq(|order|, i requires 0 <= i < |order| => s.held[order[i]])
  }

  /** releaseHeld as one call: the alerts taken out are dispatched in the given order. */
  function ReleaseAll(s: State, cfg: Config, order: seq<string>, resolver: Alert -> seq<string>, now: Time)
    : (State, seq<Event>)
    requires IsOrder(DueKeys(s, cfg, now), order)
  {
    DispatchEach(Release(s, cfg, now), cfg, HeldAlerts(s, order), resolver, now)
  }
}
