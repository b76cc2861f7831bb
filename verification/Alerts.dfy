/** Alerts, label matchers and silences: what an alert is, and when a silence mutes it. */
module Alerts {
  import opened Clocks
  import opened Options
  import opened Texts

  /** How long one silence may last. */
  const MAX_SILENCE: Duration := 7 * 24 * HOUR

  type Labels = map<string, string>

  datatype Alert = Alert(
    chain: string, chainID: string, key: string, message: string, severity: string, resolved: bool,
    moniker: string, valcons: string, time: Time, kind: string, target: string, node: string,
    labels: Labels, reminder: bool)
  {
    function Fields(): Labels {
      map["alertname" := kind, "kind" := kind, "target" := target, "node" := node, "chain" := chain,
          "chain_id" := chainID, "moniker" := moniker, "valcons" := valcons, "severity" := severity]
    }

    /** The names a matcher can use: the operator's labels, overridden by the fields that are set. */
    function LabelSet(): Labels {
      labels + map name | name in Fields() && Fields()[name] != "" :: Fields()[name]
    }
  }

  /** Splits "node-down:<url>" at the first colon. */
  function SplitKey(key: string): (r: (string, string))
    ensures if ':' in key then key == r.0 + ":" + r.1 && ':' !in r.0 else r == (key, "")
  {
    var i := IndexOf(key, ':');
    if i == |key| then (key, "") else (key[..i], key[i + 1..])
  }

  /** The alert as Dispatch routes it, with what the caller left empty filled in. */
  function Prepared(a: Alert, now: Time): (p: Alert)
    ensures p.resolved == a.resolved && p.chain == a.chain
    ensures a.key != "" ==> p.key == a.key
    ensures now != 0 ==> p.time != 0
  {
    var a1 := if a.key == "" then a.(key := a.message) else a;
    var a2 := if a1.time == 0 then a1.(time := now) else a1;
    if a2.kind == "" then a2.(kind := SplitKey(a2.key).0, target := SplitKey(a2.key).1) else a2
  }

  /** What Dispatch fills in: an empty key by the message, a missing time by the clock's, and
      an empty kind, with the target, by the two parts of the key. Nothing else changes. */
  lemma PreparedMeans(a: Alert, now: Time)
    ensures var p := Prepared(a, now);
            && a == p.(key := a.key, time := a.time, kind := a.kind, target := a.target)
            && p.key == (if a.key == "" then a.message else a.key)
            && p.time == (if a.time == 0 then now else a.time)
            && (a.kind != "" ==> p.kind == a.kind && p.target == a.target)
            && (a.kind == "" ==>
                  if ':' in p.key then p.key == p.kind + ":" + p.target && ':' !in p.kind
                  else p.kind == p.key && p.target == "")
  {}

  // ----- Matchers -----

  /** A regular expression engine: which patterns compile, and what a pattern matches in full. */
  datatype Regexp = Regexp(compiles: string -> bool, matches: (string, string) -> bool)

  /** `re` is the compiled pattern; a matcher not yet compiled has none. */
  datatype Matcher = Matcher(name: string, value: string, isRegex: bool, isEqual: Option<bool>, re: Option<string>) {
    predicate Equal() {
      isEqual.None? || isEqual.value
    }

    function Compile(rx: Regexp): Option<Matcher> {
      if name == "" then None
      else if !isRegex then Some(this)
      else if rx.compiles(value) then Some(this.(re := Some(value)))
      else None
    }

    predicate MatchesValue(rx: Regexp, v: string) {
      (if isRegex then re.Some? && rx.matches(re.value, v) else v == value) == Equal()
    }

    predicate Matches(rx: Regexp, labels: Labels) {
      MatchesValue(rx, if name in labels then labels[name] else "")
    }
  }

  /** A field of an alert under the name matchers know it by. */
  function FieldOf(a: Alert, name: string): string {
    if name == "alertname" || name == "kind" then a.kind
    else if name == "target" then a.target
    else if name == "node" then a.node
    else if name == "chain" then a.chain
    else if name == "chain_id" then a.chainID
    else if name == "moniker" then a.moniker
    else if name == "valcons" then a.valcons
    else if name == "severity" then a.severity
    else ""
  }

  /** The value a matcher sees: the field if it is set, else the operator's label, else "". */
  function LabelOf(a: Alert, name: string): string {
    if FieldOf(a, name) != "" then FieldOf(a, name)
    else if name in a.labels then a.labels[name]
    else ""
  }

  lemma {:induction false} LabelSetIsLabelOf(a: Alert, name: string)
    ensures (if name in a.LabelSet() then a.LabelSet()[name] else "") == LabelOf(a, name)
  {
    assert name in a.Fields() ==> a.Fields()[name] == FieldOf(a, name);
    assert name !in a.Fields() ==> FieldOf(a, name) == "";
  }

  /** Whether a value is what a matcher, as it was written, asks for. */
  predicate Asks(m: Matcher, rx: Regexp, v: string) {
    var hit := if m.isRegex then rx.matches(m.value, v) else v == m.value;
    if m.isEqual == Some(false) then !hit else hit
  }

  predicate Compiles(m: Matcher, rx: Regexp) {
    m.name != "" && (m.isRegex ==> rx.compiles(m.value))
  }

  /** A matcher as it was written compiles exactly if it has a name and its expression, if it
      is one, compiles. It then matches the alerts whose value is the given one, or matches
      the expression, and with `isEqual` false exactly the others. */
  lemma MatcherMeans(m: Matcher, rx: Regexp, a: Alert)
    ensures m.Compile(rx).Some? <==> Compiles(m, rx)
    ensures m.Compile(rx).Some? ==>
              var c, v := m.Compile(rx).value, LabelOf(a, m.name);
              && c.(re := m.re) == m && (c.Matches(rx, a.LabelSet()) <==> Asks(m, rx, v))
              && (!m.isRegex && m.isEqual != Some(false) ==> (c.Matches(rx, a.LabelSet()) <==> v == m.value))
              && (!m.isRegex && m.isEqual == Some(false) ==> (c.Matches(rx, a.LabelSet()) <==> v != m.value))
              && (m.isRegex && m.isEqual != Some(false) ==>
                    (c.Matches(rx, a.LabelSet()) <==> rx.matches(m.value, v)))
              && (m.isRegex && m.isEqual == Some(false) ==>
                    (c.Matches(rx, a.LabelSet()) <==> !rx.matches(m.value, v)))
    ensures m.isRegex && m.re == None ==> (m.Matches(rx, a.LabelSet()) <==> m.isEqual == Some(false))
  {
    LabelSetIsLabelOf(a, m.name);
    hide LabelOf;
  }

  // ----- Silences -----

  datatype Phase = Pending | Active | Expired

  datatype Silence = Silence(
    id: string, matchers: seq<Matcher>, startsAt: Time, endsAt: Time, createdBy: string, comment: string,
    updatedAt: Time)
  {
    function State(now: Time): Phase {
      if now < startsAt then Pending else if now < endsAt then Active else Expired
    }

    predicate Selects(rx: Regexp, labels: Labels) {
      forall i :: 0 <= i < |matchers| ==> matchers[i].Matches(rx, labels)
    }

    predicate Mutes(rx: Regexp, labels: Labels, now: Time) {
      State(now) == Active && Selects(rx, labels)
    }

    /** Some matcher does not match an alert without labels. */
    predicate Selective(rx: Regexp) {
      exists i :: 0 <= i < |matchers| && !matchers[i].Matches(rx, map[])
    }
  }

  datatype AddResult = Added(silence: Silence) | BadTimes | TooLong | NoMatchers | BadMatcher | Unselective

  /** All the matchers compiled, or None when one does not compile. */
  function CompileAll(rx: Regexp, matchers: seq<Matcher>): (r: Option<seq<Matcher>>)
    ensures r.Some? ==> |r.value| == |matchers|
    ensures r.Some? ==> forall i :: 0 <= i < |matchers| ==> matchers[i].Compile(rx) == Some(r.value[i])
    ensures r.None? ==> exists i :: 0 <= i < |matchers| && matchers[i].Compile(rx).None?
  {
    if matchers == [] then Some([])
    else
      var first := matchers[0].Compile(rx);
      var rest := CompileAll(rx, matchers[1..]);
      if first.None? || rest.None? then None else Some([first.value] + rest.value)
  }

  /** What AddSilence stores; `id` is the random identifier it draws when it was given none. */
  function AddSilence(s: Silence, rx: Regexp, id: string, now: Time): AddResult {
    var start := if s.startsAt == 0 then now else s.startsAt;
    var compiled := CompileAll(rx, s.matchers);
    if s.endsAt <= start || s.endsAt <= now then BadTimes
    else if s.endsAt - start > MAX_SILENCE then TooLong
    else if s.matchers == [] then NoMatchers
    else if compiled.None? then BadMatcher
    else
      var t := s.(startsAt := start, matchers := compiled.value,
                  id := if s.id == "" then id else s.id, updatedAt := now);
      if !t.Selective(rx) then Unselective else Added(t)
  }

  /** What AddSilence asks of a silence: an end in the future and after its start, at most a
      week, matchers that compile, and one of them that does not ask for the empty value. */
  lemma {:induction false} SilenceAcceptedIff(s: Silence, rx: Regexp, id: string, now: Time)
    ensures var start := if s.startsAt == 0 then now else s.startsAt;
            AddSilence(s, rx, id, now).Added? <==>
              && start < s.endsAt && now < s.endsAt && s.endsAt <= start + 604_800_000_000_000
              && (forall i :: 0 <= i < |s.matchers| ==> Compiles(s.matchers[i], rx))
              && exists i :: 0 <= i < |s.matchers| && !Asks(s.matchers[i], rx, "")
  {
    CompiledSelective(s, rx);
    hide Compiles, Asks, CompileAll, Silence.Selective;
  }

  lemma CompiledSelective(s: Silence, rx: Regexp)
    ensures var compiled := CompileAll(rx, s.matchers);
            && (compiled.Some? <==> forall i :: 0 <= i < |s.matchers| ==> Compiles(s.matchers[i], rx))
            && (compiled.Some? ==> forall t: Silence :: t.matchers == compiled.value ==>
                  (t.Selective(rx) <==> exists i :: 0 <= i < |s.matchers| && !Asks(s.matchers[i], rx, "")))
  {
    var compiled := CompileAll(rx, s.matchers);
    forall i | 0 <= i < |s.matchers|
      ensures s.matchers[i].Compile(rx).Some? <==> Compiles(s.matchers[i], rx)
      ensures compiled.Some? ==> (compiled.value[i].Matches(rx, map[]) <==> Asks(s.matchers[i], rx, ""))
    {
    }
    hide Compiles, Asks, CompileAll, Matcher.Matches, Matcher.Compile;
  }

  /** The reason a silence is refused for: the first of them that applies. */
  lemma SilenceRefusedFor(s: Silence, rx: Regexp, id: string, now: Time)
    ensures var start := if s.startsAt == 0 then now else s.startsAt;
            var r := AddSilence(s, rx, id, now);
            && (r == BadTimes <==> s.endsAt <= start || s.endsAt <= now)
            && (r == TooLong <==> start + 604_800_000_000_000 < s.endsAt && now < s.endsAt)
            && (r == NoMatchers ==> s.matchers == [])
            && (r == BadMatcher ==> exists i :: 0 <= i < |s.matchers| && !Compiles(s.matchers[i], rx))
            && (r == Unselective ==>
                  s.matchers != [] && forall i :: 0 <= i < |s.matchers| ==> Compiles(s.matchers[i], rx))
  {
    SilenceAcceptedIff(s, rx, id, now);
    if AddSilence(s, rx, id, now) == BadMatcher {
      var i :| 0 <= i < |s.matchers| && s.matchers[i].Compile(rx).None?;
      assert !Compiles(s.matchers[i], rx);
    }
  }

  /** What it stores, and what that mutes: from its start up to its end the alerts that have
      every value its matchers, as they were written, ask for. */
  lemma {:induction false} AcceptedSilenceMutes(s: Silence, rx: Regexp, id: string, now: Time, a: Alert, at: Time)
    requires AddSilence(s, rx, id, now).Added?
    ensures var t := AddSilence(s, rx, id, now).silence;
            && t == s.(startsAt := t.startsAt, matchers := t.matchers, id := t.id, updatedAt := now)
            && t.startsAt == (if s.startsAt == 0 then now else s.startsAt)
            && t.id == (if s.id == "" then id else s.id)
            && CompileAll(rx, s.matchers) == Some(t.matchers)
            && (t.Mutes(rx, a.LabelSet(), at) <==>
                t.startsAt <= at < s.endsAt
                && forall i :: 0 <= i < |s.matchers| ==> Asks(s.matchers[i], rx, LabelOf(a, s.matchers[i].name)))
  {
    var t := AddSilence(s, rx, id, now).silence;
    CompiledAsk(s.matchers, rx, a);
    hide Asks, LabelOf;
  }

  lemma CompiledAsk(matchers: seq<Matcher>, rx: Regexp, a: Alert)
    requires CompileAll(rx, matchers).Some?
    ensures var compiled := CompileAll(rx, matchers).value;
            forall i :: 0 <= i < |matchers| ==>
              (compiled[i].Matches(rx, a.LabelSet()) <==> Asks(matchers[i], rx, LabelOf(a, matchers[i].name)))
  {
    var compiled := CompileAll(rx, matchers).value;
    forall i | 0 <= i < |matchers|
      ensures compiled[i].Matches(rx, a.LabelSet()) <==> Asks(matchers[i], rx, LabelOf(a, matchers[i].name))
    {
      MatcherMeans(matchers[i], rx, a);
      hide Asks, LabelOf;
    }
  }

  /** An accepted silence names a label it selects by, and never mutes an alert without
      that label: it cannot silence everything. */
  lemma {:induction false} AcceptedSilenceSelects(s: Silence, rx: Regexp, id: string, now: Time)
    requires AddSilence(s, rx, id, now).Added?
    ensures var t := AddSilence(s, rx, id, now).silence;
            && 0 < t.endsAt - t.startsAt <= MAX_SILENCE && t.State(t.endsAt) == Expired
            && exists i :: 0 <= i < |t.matchers| &&
                 forall a: Alert, at :: t.matchers[i].name !in a.LabelSet() ==> !t.Mutes(rx, a.LabelSet(), at)
  {
    var t := AddSilence(s, rx, id, now).silence;
    var i :| 0 <= i < |t.matchers| && !t.matchers[i].Matches(rx, map[]);
    forall a: Alert, at | t.matchers[i].name !in a.LabelSet()
      ensures !t.Mutes(rx, a.LabelSet(), at)
    {
      assert !t.matchers[i].Matches(rx, a.LabelSet());
    }
  }

  /** A silence whose matchers all ask for the empty value is refused. */
  lemma {:induction false} UnselectiveSilenceRefused(s: Silence, rx: Regexp, id: string, now: Time)
    requires forall i :: 0 <= i < |s.matchers| ==> Asks(s.matchers[i], rx, "")
    ensures !AddSilence(s, rx, id, now).Added?
  {
    SilenceAcceptedIff(s, rx, id, now);
    hide AddSilence;
  }
}
