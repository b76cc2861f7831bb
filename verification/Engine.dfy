/** The alert engine. Each method is one call, or one section of a call under the lock;
    the clock, the resolver's answer and random identifiers are parameters. */
module AlertEngine {
  import opened Alerts
  import opened Clocks
  import opened EngineState
  import opened Options

  class Engine {
    const flapMinutes: Duration
    const remindMinutes: Duration
    const rx: Regexp
    var notifiers: set<string>
    var sent: map<string, map<string, Entry>>
    var flapped: map<string, map<string, Time>>
    var active: map<string, map<string, Time>>
    var silences: map<string, Silence>
    var held: map<string, Alert>

    function S(): State
      reads this
    {
      State(sent, flapped, active, silences, held)
    }

    function Cfg(): Config
      reads this
    {
      Config(flapMinutes, remindMinutes, notifiers, rx)
    }

    constructor (flapMinutes: Duration, remindMinutes: Duration, rx: Regexp)
      ensures S() == EMPTY && Cfg() == Config(flapMinutes, remindMinutes, {}, rx)
    {
      this.flapMinutes, this.remindMinutes, this.rx, notifiers := flapMinutes, remindMinutes, rx, {};
      sent, flapped, active, silences, held := map[], map[], map[], map[], map[];
    }

    method RegisterNotifier(kind: string)
      modifies this`notifiers
      ensures notifiers == old(notifiers) + {kind}
    {
      notifiers := notifiers + {kind};
    }

    method IsSilenced(a: Alert, now: Time) returns (muted: bool)
      ensures muted <==> Silenced(S(), Cfg(), a, now)
    {
      if silences == map[] {
        return false;
      }
      var labels := a.LabelSet();
      var ids := silences.Keys;
      while ids != {}
        invariant ids <= silences.Keys
        invariant forall id :: id in silences && id !in ids ==> !silences[id].Mutes(rx, labels, now)
      {
        var id :| id in ids;
        if silences[id].Mutes(rx, labels, now) {
          return true;
        }
        ids := ids - {id};
      }
      return false;
    }

    /** Dispatch up to its first unlock. */
    method RegisterAlert(a: Alert, now: Time) returns (muted: bool)
      modifies this`active, this`held
      ensures (muted, S()) == EngineState.Register(old(S()), Cfg(), a, now)
    {
      if a.chain !in active {
        active := active[a.chain := map[]];
      }
      assert active == old(active)[a.chain := Inner(old(active), a.chain)];
      if a.resolved {
        active := active[a.chain := active[a.chain] - {a.key}];
        held := held - {a.key};
        assert active == old(active)[a.chain := Inner(old(active), a.chain) - {a.key}];
        return false;
      }
      active := active[a.chain := active[a.chain][a.key := a.time]];
      assert active == old(active)[a.chain := Inner(old(active), a.chain)[a.key := a.time]];
      muted := IsSilenced(a, now);
      if muted {
        held := held[a.key := a];
      }
    }

    method DecideSend(kind: string, a: Alert, now: Time) returns (ok: bool)
      modifies this`sent, this`flapped
      ensures (ok, S()) == EngineState.ShouldSend(old(S()), Cfg(), kind, a, now)
    {
      EnsureKind(kind);
      hide Inner;
      var already := a.key in sent[kind];
      if a.resolved {
        if !already {
          return false;
        }
        sent := sent[kind := sent[kind] - {a.key}];
        flapped := flapped[kind := flapped[kind][a.key := now]];
        assert sent == old(sent)[kind := Inner(old(sent), kind) - {a.key}];
        assert flapped == old(flapped)[kind := Inner(old(flapped), kind)[a.key := now]];
        return true;
      }
      if already {
        return false;
      }
      if a.key in flapped[kind] && now - flapped[kind][a.key] < flapMinutes {
        return false;
      }
      sent := sent[kind := sent[kind][a.key := Entry(a, now)]];
      assert sent == old(sent)[kind := Inner(old(sent), kind)[a.key := Entry(a, now)]];
      return true;
    }

    /** Creates the destination's maps when they are missing. */
    method EnsureKind(kind: string)
      modifies this`sent, this`flapped
      ensures sent == old(sent)[kind := Inner(old(sent), kind)]
      ensures flapped == old(flapped)[kind := Inner(old(flapped), kind)]
    {
      if kind !in sent {
        sent := sent[kind := map[]];
      }
      if kind !in flapped {
        flapped := flapped[kind := map[]];
      }
    }

    method HasOpenAlert(key: string) returns (open: bool)
      ensures open <==> HasOpen(S(), key)
    {
      var kinds := sent.Keys;
      while kinds != {}
        invariant kinds <= sent.Keys
        invariant forall kind :: kind in sent && kind !in kinds ==> key !in sent[kind]
      {
        var kind :| kind in kinds;
        if key in sent[kind] {
          return true;
        }
        kinds := kinds - {kind};
      }
      return false;
    }

    /** One Dispatch with no other call in between. */
    method DispatchAlert(alert: Alert, resolver: Alert -> seq<string>, now: Time) returns (fired: seq<Event>)
      modifies this`sent, this`flapped, this`active, this`held
      ensures (S(), fired) == EngineState.Dispatch(old(S()), Cfg(), alert, resolver, now)
    {
      hide EngineState.Register, EngineState.ShouldSend, Prepared;
      var a := Prepared(alert, now);
      var dests := resolver(a);
      var muted := RegisterAlert(a, now);
      fired := [];
      if muted {
        return;
      }
      ghost var start := S();
      assert dests[0..] == dests;
      for i := 0 to |dests|
        invariant Cfg() == old(Cfg())
        invariant SendAll(start, Cfg(), dests, a, now).0 == SendAll(S(), Cfg(), dests[i..], a, now).0
        invariant SendAll(start, Cfg(), dests, a, now).1 == fired + SendAll(S(), Cfg(), dests[i..], a, now).1
      {
        assert dests[i..][1..] == dests[i + 1..] && dests[i..][0] == dests[i];
        ghost var more := SendAll(S(), Cfg(), dests[i..], a, now).1;
        if dests[i] in notifiers {
          var ok := DecideSend(dests[i], a, now);
          if ok {
            assert fired + more ==
                fired + [Event(dests[i], a.key, EdgeOf(a), now)] + SendAll(S(), Cfg(), dests[i + 1..], a, now).1;
            fired := fired + [Event(dests[i], a.key, EdgeOf(a), now)];
          }
        }
      }
      assert dests[|dests|..] == [];
      assert fired + [] == fired;
      assert (S(), fired) == SendAll(start, Cfg(), dests, a, now);
    }

    /** releaseHeld under the lock: takes the unmuted alerts out of `held`. The walk over the
        map picks any order. */
    method TakeUnmuted(now: Time) returns (due: seq<Alert>, ghost order: seq<string>)
      modifies this`held
      ensures S() == EngineState.Release(old(S()), Cfg(), now)
      ensures IsOrder(DueKeys(old(S()), Cfg(), now), order) && due == HeldAlerts(old(S()), order)
    {
      hide Silenced;
      due, order := [], [];
      var keys := held.Keys;
      ghost var unmuted, dueKeys := Unmuted(old(S()), Cfg(), now), DueKeys(old(S()), Cfg(), now);
      while keys != {}
        invariant keys <= old(held).Keys && held == old(held) - (unmuted - keys)
        invariant IsOrder(dueKeys - keys, order) && due == HeldAlerts(old(S()), order)
      {
        var key :| key in keys;
        var a := held[key];
        var muted := IsSilenced(a, now);
        SilencedBySilences(S(), old(S()), Cfg(), a, now);
        ghost var left := keys - {key};
        if !muted {
          held := held - {key};
          if a.chain in active && key in active[a.chain] {
            assert IsOrder(dueKeys - left, order + [key]);
            due, order := due + [a], order + [key];
          }
        }
        keys := keys - {key};
      }
    }

    /** One releaseHeld with no other call in between. */
    method ReleaseHeld(resolver: Alert -> seq<string>, now: Time) returns (fired: seq<Event>, ghost order: seq<string>)
      modifies this`sent, this`flapped, this`active, this`held
      ensures IsOrder(DueKeys(old(S()), Cfg(), now), order)
      ensures (S(), fired) == ReleaseAll(old(S()), Cfg(), order, resolver, now)
    {
      var list;
      list, order := TakeUnmuted(now);
      fired := DispatchList(list, resolver, now);
    }

    /** releaseHeld after its unlock. */
    method DispatchList(list: seq<Alert>, resolver: Alert -> seq<string>, now: Time) returns (fired: seq<Event>)
      modifies this`sent, this`flapped, this`active, this`held
      ensures (S(), fired) == DispatchEach(old(S()), Cfg(), list, resolver, now)
    {
      hide EngineState.Dispatch;
      fired := [];
      ghost var start := S();
      assert list[0..] == list;
      for i := 0 to |list|
        invariant Cfg() == old(Cfg())
        invariant DispatchEach(start, Cfg(), list, resolver, now).0 ==
                  DispatchEach(S(), Cfg(), list[i..], resolver, now).0
        invariant DispatchEach(start, Cfg(), list, resolver, now).1 ==
                  fired + DispatchEach(S(), Cfg(), list[i..], resolver, now).1
      {
        assert list[i..][1..] == list[i + 1..] && list[i..][0] == list[i];
        ghost var before := S();
        var events := DispatchAlert(list[i], resolver, now);
        ghost var more := DispatchEach(S(), Cfg(), list[i + 1..], resolver, now).1;
        assert DispatchEach(before, Cfg(), list[i..], resolver, now).1 == events + more;
        assert fired + (events + more) == (fired + events) + more;
        fired := fired + events;
      }
      assert list[|list|..] == [] && fired + [] == fired;
    }

    method AddSilence(s: Silence, id: string, now: Time) returns (r: AddResult)
      modifies this`silences
      ensures r == Alerts.AddSilence(s, rx, id, now)
      ensures S() == if r.Added? then Store(old(S()), r.silence) else old(S())
    {
      var start := if s.startsAt == 0 then now else s.startsAt;
      if s.endsAt <= start || s.endsAt <= now {
        return BadTimes;
      }
      if s.endsAt - start > MAX_SILENCE {
        return TooLong;
      }
      if |s.matchers| == 0 {
        return NoMatchers;
      }
      ghost var all := CompileAll(rx, s.matchers);
      var selective, compiled := false, [];
      for i := 0 to |s.matchers|
        invariant S() == old(S()) && |compiled| == i
        invariant forall k :: 0 <= k < i ==> s.matchers[k].Compile(rx) == Some(compiled[k])
        invariant selective <==> exists k :: 0 <= k < i && !compiled[k].Matches(rx, map[])
      {
        var m := s.matchers[i].Compile(rx);
        if m.None? {
          return BadMatcher;
        }
        ghost var before := compiled;
        compiled := compiled + [m.value];
        assert forall k :: 0 <= k < i ==> compiled[k] == before[k];
        if !m.value.Matches(rx, map[]) {
          assert !compiled[i].Matches(rx, map[]);
          selective := true;
        }
      }
      assert all.Some?;
      assert forall k :: 0 <= k < |compiled| ==> all.value[k] == compiled[k] by {
        assert forall k :: 0 <= k < |compiled| ==> s.matchers[k].Compile(rx) == Some(all.value[k]);
      }
      assert all.value == compiled;
      if !selective {
        return Unselective;
      }
      var t := s.(startsAt := start, matchers := compiled, id := if s.id == "" then id else s.id, updatedAt := now);
      assert t.Selective(rx);
      silences := silences[t.id := t];
      return Added(t);
    }

    method ExpireSilence(id: string, resolver: Alert -> seq<string>, now: Time)
      returns (found: bool, fired: seq<Event>, ghost order: seq<string>)
      modifies this`sent, this`flapped, this`active, this`held, this`silences
      ensures found <==> id in old(silences)
      ensures !found ==> S() == old(S()) && fired == []
      ensures found ==> var s := EngineState.Expire(old(S()), id, now);
                && IsOrder(DueKeys(s, Cfg(), now), order)
                && (S(), fired) == ReleaseAll(s, Cfg(), order, resolver, now)
    {
      found, fired, order := id in silences, [], [];
      if found {
        var s := silences[id];
        if s.endsAt > now {
          silences := silences[id := s.(endsAt := now, updatedAt := now)];
        }
        fired, order := ReleaseHeld(resolver, now);
      }
    }

    method PruneSilences(now: Time)
      modifies this`silences
      ensures S() == EngineState.Prune(old(S()), now)
    {
      var ids := silences.Keys;
      while ids != {}
        invariant ids <= old(silences).Keys && ids <= silences.Keys
        invariant silences ==
                  map id | id in old(silences) && (id in ids || now - old(silences)[id].endsAt <= 24 * HOUR) ::
                      old(silences)[id]
      {
        var id :| id in ids;
        if now - silences[id].endsAt > 24 * HOUR {
          silences := silences - {id};
        }
        ids := ids - {id};
      }
    }

    method RestoreSilences(list: seq<Silence>, now: Time)
      modifies this`silences
      ensures S() == RestoreEach(old(S()), rx, list, now)
    {
      ghost var start := S();
      for i := 0 to |list|
        invariant S() == RestoreEach(start, rx, list[..i], now)
      {
        assert list[..i + 1][..i] == list[..i];
        var compiled := CompileAll(rx, list[i].matchers);
        if now - list[i].endsAt <= 24 * HOUR && compiled.Some? {
          silences := silences[list[i].id := list[i].(matchers := compiled.value)];
        }
      }
      assert list[..|list|] == list;
    }

    /** One reminder tick under the lock: the reminders to send, in the order of the walk. */
    method RemindTick(resolver: Alert -> seq<string>, now: Time) returns (due: seq<ReminderItem>)
      modifies this`sent
      ensures S() == EngineState.Remind(old(S()), Cfg(), now)
      ensures IsReminderList(old(S()), Cfg(), resolver, due, now)
    {
      due := [];
      var kinds := sent.Keys;
      while kinds != {}
        invariant kinds <= old(sent).Keys == sent.Keys
        invariant forall kind :: kind in sent ==>
                    sent[kind] ==
                        if kind in kinds then old(sent)[kind]
                        else EngineState.RemindKind(old(S()), Cfg(), old(sent)[kind], now)
        invariant forall item: ReminderItem :: item.kind !in old(sent) ==>
                  Times(old(S()), Cfg(), resolver, item, now) == 0
        invariant forall item: ReminderItem :: multiset(due)[item] ==
                    if item.kind in kinds then 0 else Times(old(S()), Cfg(), resolver, item, now)
      {
        hide DueEntry, EngineState.RemindKind, Times;
        var kind :| kind in kinds;
        SameDestination(S(), old(S()), Cfg(), resolver, kind, now);
        var more := RemindDestination(kind, resolver, now);
        due := due + more;
        kinds := kinds - {kind};
      }
    }

    /** The same for one destination. */
    method RemindDestination(kind: string, resolver: Alert -> seq<string>, now: Time) returns (due: seq<ReminderItem>)
      requires kind in sent
      modifies this`sent
      ensures sent == old(sent)[kind := EngineState.RemindKind(old(S()), Cfg(), old(sent)[kind], now)]
      ensures forall item: ReminderItem :: multiset(due)[item] ==
                if item.kind == kind then Times(old(S()), Cfg(), resolver, item, now) else 0
    {
      hide DueEntry, Times;
      due := [];
      var entries := sent[kind];
      var keys := entries.Keys;
      NotOpenNotListed(S(), Cfg(), resolver, kind, now);
      while keys != {}
        invariant sent == old(sent) && keys <= sent[kind].Keys == entries.Keys
        invariant forall key :: key in entries ==>
                    entries[key] ==
                        if key in keys then sent[kind][key]
                        else EngineState.RemindKind(S(), Cfg(), sent[kind], now)[key]
        invariant forall item: ReminderItem :: multiset(due)[item] ==
                    if item.kind == kind && item.key !in keys then Times(S(), Cfg(), resolver, item, now) else 0
      {
        var key :| key in keys;
        var e, more := RemindEntry(kind, key, resolver, now);
        entries := entries[key := e];
        due := due + more;
        keys := keys - {key};
      }
      assert entries == EngineState.RemindKind(S(), Cfg(), sent[kind], now);
      sent := sent[kind := entries];
    }

    /** One entry after a tick, and its reminders. */
    method RemindEntry(kind: string, key: string, resolver: Alert -> seq<string>, now: Time)
      returns (e: Entry, due: seq<ReminderItem>)
      requires kind in sent && key in sent[kind]
      ensures e == if DueEntry(S(), Cfg(), sent[kind][key], now) then sent[kind][key].(when := now) else sent[kind][key]
      ensures forall item: ReminderItem :: multiset(due)[item] ==
                if item.kind == kind && item.key == key then Times(S(), Cfg(), resolver, item, now) else 0
    {
      hide Silenced, Times;
      e, due := sent[kind][key], [];
      EntryListed(S(), Cfg(), resolver, kind, key, now);
      if e.alert.key != "" && now - e.when >= remindMinutes {
        var muted := IsSilenced(e.alert, now);
        if !muted {
          e := e.(when := now);
          due := ListReminders(kind, key, ReminderOf(e.alert), resolver);
        }
      }
    }

    /** The reminder of one due entry, once for each time the resolver names its destination. */
    method ListReminders(kind: string, key: string, a: Alert, resolver: Alert -> seq<string>)
      returns (due: seq<ReminderItem>)
      ensures forall item :: multiset(due)[item] ==
                if item == ReminderItem(kind, key, a) && kind in notifiers then multiset(resolver(a))[kind] else 0
    {
      var dests := resolver(a);
      due := [];
      for i := 0 to |dests|
        invariant forall item :: multiset(due)[item] ==
                    if item == ReminderItem(kind, key, a) && kind in notifiers then multiset(dests[..i])[kind] else 0
      {
        assert dests[..i + 1] == dests[..i] + [dests[i]];
        if dests[i] == kind && kind in notifiers {
          due := due + [ReminderItem(kind, key, a)];
        }
      }
      assert dests[..|dests|] == dests;
    }

    method RestoreSaved(saved: Saved, maxAge: Duration, now: Time)
      modifies this`sent
      ensures S() == EngineState.Restore(old(S()), saved, maxAge, now)
    {
      hide RestoredKind, Inner;
      var kinds := saved.Keys;
      while kinds != {}
        invariant kinds <= saved.Keys && sent.Keys == old(sent).Keys + (saved.Keys - kinds)
        invariant forall kind :: kind in sent ==>
                    sent[kind] == if kind in kinds || kind !in saved then old(sent)[kind]
                                  else RestoredKind(Inner(old(sent), kind), saved, kind, maxAge, now)
      {
        hide EngineState.Restore;
        var kind :| kind in kinds;
        InnerIs(sent, kind);
        InnerIs(old(sent), kind);
        var entries := AddFresh(if kind in sent then sent[kind] else map[], saved, kind, maxAge, now);
        sent := sent[kind := entries];
        kinds := kinds - {kind};
      }
      RestoreIs(old(S()), sent, saved, maxAge, now);
      hide EngineState.Restore;
    }

    static method AddFresh(before: map<string, Entry>, saved: Saved, kind: string, maxAge: Duration, now: Time)
      returns (entries: map<string, Entry>)
      requires kind in saved
      ensures entries == RestoredKind(before, saved, kind, maxAge, now)
    {
      entries := before;
      var keys := saved[kind].Keys;
      while keys != {}
        invariant keys <= saved[kind].Keys
        invariant entries == before + (FreshEntries(saved, kind, maxAge, now) - keys)
      {
        var key :| key in keys;
        var e := saved[kind][key];
        if now - e.when <= maxAge {
          entries := entries[key := e.(alert := e.alert.(key := key))];
        }
        keys := keys - {key};
      }
    }
  }

  /** What a tick does to one destination does not depend on the others. */
  lemma SameDestination(s: State, t: State, cfg: Config, resolver: Alert -> seq<string>, kind: string, now: Time)
    requires s.silences == t.silences && kind in s.sent && kind in t.sent && s.sent[kind] == t.sent[kind]
    ensures RemindKind(s, cfg, s.sent[kind], now) == RemindKind(t, cfg, t.sent[kind], now)
    ensures forall item: ReminderItem :: item.kind == kind ==>
              Times(s, cfg, resolver, item, now) == Times(t, cfg, resolver, item, now)
  {
    hide Silenced;
    forall a
      ensures Silenced(s, cfg, a, now) == Silenced(t, cfg, a, now)
    {
      SilencedBySilences(s, t, cfg, a, now);
    }
  }

  /** How often the items of one entry are listed. */
  lemma EntryListed(s: State, cfg: Config, resolver: Alert -> seq<string>, kind: string, key: string, now: Time)
    requires kind in s.sent && key in s.sent[kind]
    ensures var e := s.sent[kind][key];
            forall item: ReminderItem :: item.kind == kind && item.key == key ==>
              Times(s, cfg, resolver, item, now) ==
                if DueEntry(s, cfg, e, now) && item.alert == ReminderOf(e.alert) && kind in cfg.notifiers
                then multiset(resolver(item.alert))[kind] else 0
  {
    hide DueEntry;
  }

  lemma NotOpenNotListed(s: State, cfg: Config, resolver: Alert -> seq<string>, kind: string, now: Time)
    requires kind in s.sent
    ensures forall item: ReminderItem :: item.kind == kind && item.key !in s.sent[kind] ==>
              Times(s, cfg, resolver, item, now) == 0
  {}

  lemma InnerIs<V>(m: map<string, map<string, V>>, k: string)
    ensures Inner(m, k) == if k in m then m[k] else map[]
  {}

  /** The restored map, destination by destination. */
  lemma RestoreIs(s: State, sent: map<string, map<string, Entry>>, saved: Saved, maxAge: Duration, now: Time)
    requires sent.Keys == s.sent.Keys + saved.Keys
    requires forall kind :: kind in sent ==>
               sent[kind] ==
                   if kind in saved then RestoredKind(Inner(s.sent, kind), saved, kind, maxAge, now) else s.sent[kind]
    ensures EngineState.Restore(s, saved, maxAge, now) == s.(sent := sent)
  {
    hide RestoredKind, Inner;
    forall kind | kind in sent
      ensures RestoredKind(Inner(s.sent, kind), saved, kind, maxAge, now) == sent[kind]
    {
      if kind !in saved {
        NothingRestored(s.sent[kind], saved, kind, maxAge, now);
        InnerIs(s.sent, kind);
      }
    }
  }

  lemma NothingRestored(entries: map<string, Entry>, saved: Saved, kind: string, maxAge: Duration, now: Time)
    requires kind !in saved
    ensures RestoredKind(entries, saved, kind, maxAge, now) == entries
  {
    assert FreshEntries(saved, kind, maxAge, now) == map[];
  }
}
