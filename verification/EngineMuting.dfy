/** What the engine's silences mute, and what becomes of that when one is stored, ended,
    forgotten, or restored by the next daemon. */
module EngineMuting {
  import opened Alerts
  import opened Clocks
  import opened EngineRuns
  import opened EngineState
  import opened Options

  /** Whether a silence that was stored compiled is in effect and selects an alert. */
  predicate Covers(silence: Silence, rx: Regexp, a: Alert, at: Time) {
    && silence.startsAt <= at < silence.endsAt
    && forall i :: 0 <= i < |silence.matchers| ==>
         Asks(silence.matchers[i], rx, LabelOf(a, silence.matchers[i].name))
  }

  /** Every matcher of every stored silence has been compiled, as AddSilence and
      RestoreSilences leave them. */
  ghost predicate AllCompiled(s: State, rx: Regexp) {
    forall id :: id in s.silences ==>
      s.silences[id].id == id && CompileAll(rx, s.silences[id].matchers) == Some(s.silences[id].matchers)
  }

  lemma {:induction false} CompiledMutes(silence: Silence, rx: Regexp, a: Alert, at: Time)
    requires CompileAll(rx, silence.matchers) == Some(silence.matchers)
    ensures silence.Mutes(rx, a.LabelSet(), at) <==> Covers(silence, rx, a, at)
  {
    CompiledAsk(silence.matchers, rx, a);
    hide Asks, LabelOf, Alert.LabelSet;
  }

  /** So they are in every reachable state, if a run stores compiled silences only. */
  lemma {:induction false} RunKeepsCompiled(cfg: Config, start: State, run: seq<Step>)
    requires AllCompiled(start, cfg.rx)
    requires forall i :: 0 <= i < |run| && run[i].section.Storing? ==>
               CompileAll(cfg.rx, run[i].section.silence.matchers) == Some(run[i].section.silence.matchers)
    ensures AllCompiled(Exec(start, cfg, run).0, cfg.rx)
  {
    if run != [] {
      var last := run[|run| - 1];
      RunKeepsCompiled(cfg, start, run[..|run| - 1]);
      var s := Exec(start, cfg, run[..|run| - 1]).0;
      if !last.section.Storing? && !last.section.Expiring? && !last.section.Pruning? {
        OtherSilences(s, cfg, last);
        hide Apply;
      }
      hide Exec, Remind, Register, ShouldSend, Release, CompileAll;
    }
  }

  lemma OtherSilences(s: State, cfg: Config, step: Step)
    requires !step.section.Storing? && !step.section.Expiring? && !step.section.Pruning?
    ensures Apply(s, cfg, step).0.silences == s.silences
  {
    hide Inner, Silenced, Unmuted, DueSet;
  }

  /** An alert is muted exactly while some silence in effect asks for the values it has. */
  lemma SilencedMeans(s: State, cfg: Config, a: Alert, now: Time)
    requires AllCompiled(s, cfg.rx)
    ensures Silenced(s, cfg, a, now) <==> exists id :: id in s.silences && Covers(s.silences[id], cfg.rx, a, now)
  {
    forall id | id in s.silences
      ensures s.silences[id].Mutes(cfg.rx, a.LabelSet(), now) <==> Covers(s.silences[id], cfg.rx, a, now)
    {
      CompiledMutes(s.silences[id], cfg.rx, a, now);
    }
    hide Covers, Silence.Mutes, AllCompiled;
  }

  /** What the silences but one mute. */
  function Without(s: State, id: string): State {
    s.(silences := s.silences - {id})
  }

  /** A silence put in the place of what its id named mutes beside the others. */
  lemma PutMutes(s: State, cfg: Config, id: string, silence: Silence, a: Alert, at: Time)
    ensures Silenced(s.(silences := s.silences[id := silence]), cfg, a, at) <==>
              Silenced(Without(s, id), cfg, a, at) || silence.Mutes(cfg.rx, a.LabelSet(), at)
  {
    hide Silence.Mutes, Alert.LabelSet;
    var t := s.(silences := s.silences[id := silence]);
    assert t.silences[id] == silence;
    assert forall other: string :: other in Without(s, id).silences ==>
        other in t.silences && t.silences[other] == Without(s, id).silences[other];
    assert forall other: string :: other in t.silences && other != id ==> other in Without(s, id).silences;
  }

  // ----- The sections -----

  /** Adding a silence replaces the one with its id; from then on the alerts are muted that the
      others mute, and those with the values the new one's matchers ask for, from its start
      up to its end. */
  lemma {:induction false} AddedSilenceMutes(s: State, cfg: Config, silence: Silence, id: string, now: Time, a: Alert,
                                             at: Time)
    requires AllCompiled(s, cfg.rx) && AddSilence(silence, cfg.rx, id, now).Added?
    ensures var t := AddSilence(silence, cfg.rx, id, now).silence;
            var u := Store(s, t);
            && AllCompiled(u, cfg.rx)
            && (Silenced(u, cfg, a, at) <==>
                Silenced(Without(s, t.id), cfg, a, at) || Covers(silence.(startsAt := t.startsAt), cfg.rx, a, at))
  {
    var t := AddSilence(silence, cfg.rx, id, now).silence;
    AcceptedSilenceMutes(silence, cfg.rx, id, now, a, at);
    CompiledTwice(cfg.rx, silence.matchers);
    hide AddSilence, CompileAll, Alert.LabelSet, Silence.Mutes, Asks, LabelOf;
    PutMutes(s, cfg, t.id, t, a, at);
    hide Silenced, Without;
  }

  lemma {:induction false} CompiledTwice(rx: Regexp, matchers: seq<Matcher>)
    requires CompileAll(rx, matchers).Some?
    ensures var compiled := CompileAll(rx, matchers).value; CompileAll(rx, compiled) == Some(compiled)
  {
    if matchers != [] {
      CompiledTwice(rx, matchers[1..]);
      var compiled := CompileAll(rx, matchers).value;
      assert compiled[1..] == CompileAll(rx, matchers[1..]).value;
    }
  }

  /** Ending a silence takes it out of effect from now on, pending or active, and changes
      nothing about the past nor about the other silences. */
  lemma {:induction false} ExpiredSilenceEnds(s: State, cfg: Config, id: string, now: Time, a: Alert, at: Time)
    requires id in s.silences
    ensures var t := Expire(s, id, now);
            && t == s.(silences := t.silences)
            && (AllCompiled(s, cfg.rx) ==> AllCompiled(t, cfg.rx))
            && (Silenced(t, cfg, a, at) <==> Silenced(if at < now then s else Without(s, id), cfg, a, at))
  {
    var t := Expire(s, id, now);
    ExpireKeepsCompiled(s, cfg.rx, id, now);
    EndedMutes(s.silences[id], cfg.rx, a.LabelSet(), now, at);
    PutMutes(s, cfg, id, s.silences[id], a, at);
    PutMutes(s, cfg, id, t.silences[id], a, at);
    assert s.silences[id := s.silences[id]] == s.silences;
    hide AllCompiled, Silenced, Without, Silence.Mutes, Alert.LabelSet;
  }

  lemma EndedMutes(silence: Silence, rx: Regexp, labels: Labels, now: Time, at: Time)
    ensures silence.endsAt > now ==>
              (silence.(endsAt := now).Mutes(rx, labels, at) <==> at < now && silence.Mutes(rx, labels, at))
    ensures silence.endsAt <= now <= at ==> !silence.Mutes(rx, labels, at)
  {}

  lemma ExpireKeepsCompiled(s: State, rx: Regexp, id: string, now: Time)
    requires id in s.silences
    ensures var t := Expire(s, id, now);
            t == s.(silences := t.silences) && id in t.silences && (AllCompiled(s, rx) ==> AllCompiled(t, rx))
  {
    hide CompileAll;
  }

  /** Silences are forgotten a day after their end, and forgetting them unmutes nothing. */
  lemma PruningUnmutesNothing(s: State, cfg: Config, now: Time, a: Alert, at: Time)
    requires now <= at
    ensures var t := Prune(s, now);
            && t == s.(silences := t.silences)
            && (AllCompiled(s, cfg.rx) ==> AllCompiled(t, cfg.rx))
            && (forall id :: id in t.silences <==>
                  id in s.silences && now <= s.silences[id].endsAt + 86_400_000_000_000)
            && (forall id :: id in t.silences ==> t.silences[id] == s.silences[id])
            && (Silenced(t, cfg, a, at) <==> Silenced(s, cfg, a, at))
  {
    hide CompileAll, Silence.Selects, Alert.LabelSet;
  }

  /** A silence as the state file keeps it: compiled expressions are not part of it. */
  function Written(silence: Silence): Silence {
    silence.(matchers :=
      seq(|silence.matchers|, i requires 0 <= i < |silence.matchers| => silence.matchers[i].(re := None)))
  }

  /** A silence read back compiles again, to the same but for the compiled expressions. */
  lemma WrittenCompiles(rx: Regexp, silence: Silence)
    requires CompileAll(rx, silence.matchers) == Some(silence.matchers)
    ensures var compiled := CompileAll(rx, Written(silence).matchers);
            && compiled.Some? && CompileAll(rx, compiled.value) == compiled
            && |compiled.value| == |silence.matchers|
            && forall i :: 0 <= i < |silence.matchers| ==>
                 compiled.value[i].(re := silence.matchers[i].re) == silence.matchers[i]
  {
    var before, after := silence.matchers, Written(silence).matchers;
    forall i | 0 <= i < |before|
      ensures after[i].Compile(rx).Some? && after[i].Compile(rx).value.(re := before[i].re) == before[i]
    {
      assert before[i].Compile(rx) == Some(before[i]);
    }
    CompiledTwice(rx, after);
  }

  /** It asks for what it asked for before. */
  lemma WrittenCovers(rx: Regexp, silence: Silence, a: Alert, at: Time)
    requires CompileAll(rx, silence.matchers) == Some(silence.matchers)
    ensures var compiled := CompileAll(rx, Written(silence).matchers);
            compiled.Some? && (Covers(silence.(matchers := compiled.value), rx, a, at) <==> Covers(silence, rx, a, at))
  {
    WrittenCompiles(rx, silence);
    var before, compiled := silence.matchers, CompileAll(rx, Written(silence).matchers).value;
    forall i | 0 <= i < |before|
      ensures Asks(before[i], rx, LabelOf(a, before[i].name)) <==> Asks(compiled[i], rx, LabelOf(a, compiled[i].name))
    {
      hide LabelOf, CompileAll, Written;
      assert compiled[i].(re := before[i].re) == before[i];
    }
    hide Asks, LabelOf, CompileAll;
  }

  predicate Names(list: seq<Silence>, id: string) {
    exists i :: 0 <= i < |list| && list[i].id == id
  }

  /** The silences a list holds, as the state file keeps those of an engine. */
  ghost predicate Lists(list: seq<Silence>, s: State) {
    && (forall i :: 0 <= i < |list| ==> list[i].id in s.silences && list[i] == Written(s.silences[list[i].id]))
    && forall id :: id in s.silences ==> Names(list, id)
  }

  /** A silence read back and compiled. */
  function Restored(rx: Regexp, silence: Silence): Silence
    requires CompileAll(rx, Written(silence).matchers).Some?
  {
    silence.(matchers := CompileAll(rx, Written(silence).matchers).value)
  }

  lemma {:induction false} RestoredSilences(s: State, rx: Regexp, list: seq<Silence>, now: Time)
    requires AllCompiled(s, rx)
    requires forall i :: 0 <= i < |list| ==> list[i].id in s.silences && list[i] == Written(s.silences[list[i].id])
    ensures var t := RestoreEach(EMPTY, rx, list, now);
            && t == EMPTY.(silences := t.silences)
            && (forall id :: id in t.silences <==>
                  Names(list, id) && id in s.silences && now <= s.silences[id].endsAt + 86_400_000_000_000)
            && (forall id :: id in t.silences ==>
                  CompileAll(rx, Written(s.silences[id]).matchers).Some?
                  && t.silences[id] == Restored(rx, s.silences[id]))
  {
    hide AllCompiled, Written, Restored, CompileAll;
    if list != [] {
      var before, last := list[..|list| - 1], list[|list| - 1];
      RestoredSilences(s, rx, before, now);
      RestoredSilence(s, rx, RestoreEach(EMPTY, rx, before, now), last.id, now);
      hide RestoreSilence;
      NamesLast(list);
      hide Names;
    }
  }

  lemma NamesLast(list: seq<Silence>)
    requires list != []
    ensures forall id :: Names(list, id) <==> Names(list[..|list| - 1], id) || id == list[|list| - 1].id
  {
    var before, last := list[..|list| - 1], list[|list| - 1];
    assert forall i :: 0 <= i < |before| ==> list[i] == before[i];
    forall id: string
      ensures Names(list, id) <==> Names(before, id) || id == last.id
    {
      assert list[|before|] == last;
    }
  }

  lemma RestoredSilence(s: State, rx: Regexp, t: State, id: string, now: Time)
    requires AllCompiled(s, rx) && id in s.silences
    ensures var silence := s.silences[id];
            && CompileAll(rx, Written(silence).matchers).Some?
            && RestoreSilence(t, rx, Written(silence), now) ==
                if now <= silence.endsAt + 86_400_000_000_000
                then t.(silences := t.silences[id := Restored(rx, silence)]) else t
  {
    WrittenCompiles(rx, s.silences[id]);
    hide CompileAll, Written;
  }

  /** The next daemon mutes what this one muted: with the silences of the state file restored,
      in whatever order they are listed, the same alerts are muted at every later time. */
  lemma {:induction false} RestartKeepsMuting(s: State, cfg: Config, list: seq<Silence>, now: Time, a: Alert, at: Time)
    requires AllCompiled(s, cfg.rx) && Lists(list, s) && now <= at
    ensures var t := RestoreEach(EMPTY, cfg.rx, list, now);
            AllCompiled(t, cfg.rx) && (Silenced(t, cfg, a, at) <==> Silenced(s, cfg, a, at))
  {
    var t := RestoreEach(EMPTY, cfg.rx, list, now);
    RestoredSilences(s, cfg.rx, list, now);
    forall id | id in s.silences
      ensures id in t.silences ==>
                CompileAll(cfg.rx, t.silences[id].matchers) == Some(t.silences[id].matchers) && t.silences[id].id == id
      ensures id in t.silences && Covers(t.silences[id], cfg.rx, a, at) <==> Covers(s.silences[id], cfg.rx, a, at)
    {
      WrittenCompiles(cfg.rx, s.silences[id]);
      WrittenCovers(cfg.rx, s.silences[id], a, at);
      hide CompileAll, Written, Asks, LabelOf, RestoreEach;
    }
    hide Covers, Restored, RestoreEach, CompileAll, Silenced;
    SilencedMeans(s, cfg, a, at);
    SilencedMeans(t, cfg, a, at);
  }
}
