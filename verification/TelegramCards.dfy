/** Telegram incident cards as values: what one Send does to the card map, for every answer
    the Bot API may give. */
module TelegramCards {
  import opened Alerts
  import opened Clocks
  import opened Options
  import opened Texts

  /** One condition on a card; it is open until `cleared` is set. */
  datatype Cond = Cond(key: string, kind: string, severity: string, raw: string, since: Time, cleared: Time) {
    predicate Open() { cleared == 0 }
  }

  datatype Card = Card(msgID: int, channel: string, node: string, chainID: string, openedAt: Time, conds: seq<Cond>)

  type Cards = map<string, Card>

  datatype TgConfig = TgConfig(apiKey: string, channel: string)

  datatype EditAnswer = Edited | Gone | Refused

  /** What the Bot API answers during one Send: the id of a new message, the fate of an edit
      (which posts anew when the message is gone), and whether a reply gets through. */
  datatype Api = Api(post: Option<int>, edit: EditAnswer, reply: bool)

  const BURST: Duration := 120_000_000_000

  function Rank(severity: string): (r: nat)
    ensures r <= 3
  {
    if severity == "critical" then 3 else if severity == "warning" then 2 else if severity == "info" then 1 else 0
  }

  /** Critical is worse than warning, warning than info, and info than anything else. */
  lemma RankOrder(severity: string)
    ensures Rank("critical") > Rank("warning") > Rank("info") > 0
    ensures severity != "critical" && severity != "warning" && severity != "info" ==> Rank(severity) == 0
  {}

  // ----- Reading a card -----

  /** Position of the first open condition under `key`, or -1. */
  function OpenIndex(conds: seq<Cond>, key: string): (i: int)
    ensures -1 <= i < |conds|
    ensures i >= 0 ==> conds[i].key == key && conds[i].Open()
    ensures forall j :: 0 <= j < (if i < 0 then |conds| else i) ==> !(conds[j].key == key && conds[j].Open())
  {
    if conds == [] then -1
    else if conds[0].key == key && conds[0].Open() then 0
    else
      var i := OpenIndex(conds[1..], key);
      if i < 0 then -1 else i + 1
  }

  predicate AllClear(conds: seq<Cond>) {
    forall i :: 0 <= i < |conds| ==> !conds[i].Open()
  }

  /** The highest rank among the open conditions, 0 when there is none. */
  function Worst(conds: seq<Cond>): (w: nat)
    ensures forall i :: 0 <= i < |conds| && conds[i].Open() ==> Rank(conds[i].severity) <= w
    ensures w != 0 ==> exists i :: 0 <= i < |conds| && conds[i].Open() && Rank(conds[i].severity) == w
  {
    if conds == [] then 0
    else
      var w, last := Worst(conds[..|conds| - 1]), conds[|conds| - 1];
      if last.Open() && Rank(last.severity) > w then Rank(last.severity) else w
  }

  /** The condition a card is about: the earliest of the worst open ones, or the first when
      everything has cleared. */
  predicate IsLead(conds: seq<Cond>, lead: nat) {
    && lead < |conds|
    && (AllClear(conds) ==> lead == 0)
    && (!AllClear(conds) ==>
          && conds[lead].Open()
          && (forall i :: 0 <= i < |conds| && conds[i].Open() ==> Rank(conds[i].severity) <= Rank(conds[lead].severity))
          && (forall i :: 0 <= i < lead && conds[i].Open() ==> Rank(conds[i].severity) < Rank(conds[lead].severity)))
  }

  /** On a card with something open the lead is the first open condition of the highest open
      rank; on any other it is the first condition. So there is one lead at most. */
  lemma {:induction false} LeadIs(conds: seq<Cond>, lead: nat, other: nat)
    ensures IsLead(conds, lead) <==>
              && lead < |conds|
              && if forall i :: 0 <= i < |conds| ==> conds[i].cleared != 0 then lead == 0
                 else
                   && conds[lead].cleared == 0 && Rank(conds[lead].severity) == Worst(conds)
                   && forall i :: 0 <= i < lead ==> conds[i].cleared != 0 || Rank(conds[i].severity) != Worst(conds)
    ensures IsLead(conds, lead) && IsLead(conds, other) ==> lead == other
  {
    hide Rank;
  }

  // ----- One Send -----

  function AlertNode(a: Alert): string {
    if a.node != "" then a.node else if "profile" in a.labels then a.labels["profile"] else ""
  }

  function ChainOf(a: Alert): string {
    if a.chainID != "" then a.chainID else a.chain
  }

  /** Alerts about one node share a card; an alert about no node gets one of its own. */
  function GroupKey(channel: string, a: Alert): string {
    if AlertNode(a) == "" then channel + "|" + a.key else channel + "|" + a.chainID + "|" + AlertNode(a)
  }

  /** Which alerts share a card, for every chain id, node and key. Two alerts about nodes do
      when chain id and node, with a bar between, read the same: for chain ids without a bar,
      exactly when they are about one node of one chain. Two alerts about no node do when
      they have one key. An alert about no node shares the card of a node exactly when its
      key is spelled like that node's chain id and name. */
  lemma SharedCards(channel: string, a: Alert, b: Alert)
    ensures GroupKey(channel, a) == GroupKey(channel, b) <==>
              if AlertNode(a) == "" && AlertNode(b) == "" then a.key == b.key
              else if AlertNode(a) == "" then a.key == NodeText(b)
              else if AlertNode(b) == "" then NodeText(a) == b.key
              else NodeText(a) == NodeText(b)
    ensures '|' !in a.chainID && '|' !in b.chainID ==>
              (NodeText(a) == NodeText(b) <==> a.chainID == b.chainID && AlertNode(a) == AlertNode(b))
  {
    var x := if AlertNode(a) == "" then a.key else NodeText(a);
    var y := if AlertNode(b) == "" then b.key else NodeText(b);
    assert GroupKey(channel, a) == (channel + "|") + x && GroupKey(channel, b) == (channel + "|") + y;
    SamePrefix(channel + "|", x, y);
    hide GroupKey;
    if NodeText(a) == NodeText(b) && '|' !in a.chainID && '|' !in b.chainID {
      CutUnique('|', a.chainID, AlertNode(a), b.chainID, AlertNode(b));
    }
  }

  /** An alert about no node can share the card of any node: one whose key is spelled like it. */
  lemma {:induction false} SharedByName(channel: string, a: Alert, b: Alert)
    requires AlertNode(a) == "" && AlertNode(b) != "" && a.key == NodeText(b)
    ensures GroupKey(channel, a) == GroupKey(channel, b)
  {
    SharedCards(channel, a, b);
  }

  function NodeText(a: Alert): string {
    a.chainID + "|" + AlertNode(a)
  }

  lemma SamePrefix(p: string, x: string, y: string)
    ensures p + x == p + y <==> x == y
  {
    assert (p + x)[|p|..] == x && (p + y)[|p|..] == y;
  }

  /** Editing a card's message; a vanished message is posted anew. */
  function EditCard(card: Card, api: Api): (bool, Card) {
    match api.edit
    case Edited => (true, card)
    case Refused => (false, card)
    case Gone => (api.post.Some?, card.(msgID := if api.post.Some? then api.post.value else 0))
  }

  /** The first open condition under `key` cleared, if there is one. */
  function Clear(conds: seq<Cond>, key: string, now: Time): seq<Cond> {
    var i := OpenIndex(conds, key);
    if i < 0 then conds else conds[i := conds[i].(cleared := now)]
  }

  function SendResolve(cards: Cards, gk: string, key: string, now: Time, api: Api): (bool, Cards) {
    if gk !in cards || OpenIndex(cards[gk].conds, key) < 0 then (true, cards)
    else
      var (ok, card) := EditCard(cards[gk].(conds := Clear(cards[gk].conds, key, now)), api);
      if ok && AllClear(card.conds) then (api.reply, cards - {gk}) else (ok, cards[gk := card])
  }

  /** A condition in the place of the open one under its key, or at the end. */
  function Add(conds: seq<Cond>, cond: Cond): seq<Cond> {
    var i := OpenIndex(conds, cond.key);
    if i >= 0 then conds[i := cond] else conds + [cond]
  }

  /** Whether a new condition is said out loud: worse than all open ones, after the burst. */
  predicate Announced(card: Card, cond: Cond, now: Time) {
    OpenIndex(card.conds, cond.key) < 0 && Rank(cond.severity) > Worst(card.conds) && now - card.openedAt > BURST
  }

  function SendRaise(cards: Cards, gk: string, start: Card, cond: Cond, now: Time, api: Api): (bool, Cards) {
    if gk !in cards then
      if api.post.None? then (false, cards) else (true, cards[gk := start.(msgID := api.post.value)])
    else
      var card := cards[gk].(conds := Add(cards[gk].conds, cond));
      if Announced(cards[gk], cond, now) && !api.reply then (false, cards[gk := card])
      else
        var (ok, edited) := EditCard(card, api);
        (ok, cards[gk := edited])
  }

  /** The whole Send: whether it reports success, and the cards it leaves. `raw` is the
      humanized message, `clock` the time of day. */
  function Send(cards: Cards, c: TgConfig, a: Alert, raw: string, clock: Time, api: Api): (bool, Cards) {
    var gk := GroupKey(c.channel, a);
    var now := if a.time == 0 then clock else a.time;
    var cond := Cond(a.key, a.kind, a.severity, raw, now, 0);
    if c.apiKey == "" || c.channel == "" then (false, cards)
    else if a.reminder then (gk in cards ==> api.reply, cards)
    else if a.resolved then SendResolve(cards, gk, a.key, now, api)
    else SendRaise(cards, gk, Card(0, c.channel, AlertNode(a), ChainOf(a), now, [cond]), cond, now, api)
  }

  // ----- What a Send stores -----

  /** A message that is gone is posted anew, and has no id while that fails; any other keeps
      its id. */
  predicate Reposted(before: Card, after: Card, api: Api) {
    && after.channel == before.channel && after.node == before.node && after.chainID == before.chainID
    && after.openedAt == before.openedAt
    && (api.edit != Gone ==> after.msgID == before.msgID)
    && (api.edit == Gone ==> if api.post == None then after.msgID == 0 else api.post == Some(after.msgID))
  }

  predicate EditWorks(api: Api) {
    api.edit == Edited || (api.edit == Gone && api.post.Some?)
  }

  /** The open condition under `key` is replaced, all others stay. */
  predicate Replaced(before: seq<Cond>, after: seq<Cond>, key: string, cond: Cond) {
    exists i :: 0 <= i < |before| && before[i].key == key && before[i].cleared == 0
                && after == before[..i] + [cond] + before[i + 1..]
  }

  predicate Shows(conds: seq<Cond>, key: string) {
    exists i :: 0 <= i < |conds| && conds[i].Open() && conds[i].key == key
  }

  lemma ShowsIsOpenIndex(conds: seq<Cond>, key: string)
    ensures Shows(conds, key) <==> OpenIndex(conds, key) >= 0
  {}

  /** Worse than every open condition, and more than two minutes after the card opened. */
  predicate SaidAloud(card: Card, severity: string, now: Time) {
    && now > card.openedAt + 120_000_000_000 && Rank(severity) > 0
    && forall i :: 0 <= i < |card.conds| && card.conds[i].cleared == 0 ==> Rank(severity) > Rank(card.conds[i].severity)
  }

  /** A raise without a card posts one with its condition, or changes nothing. On a card it
      replaces the open condition under its key, or joins the others; only a joining one is
      said aloud, before the edit, and when that fails the message is left as it was. */
  lemma {:induction false} RaiseStores(cards: Cards, c: TgConfig, a: Alert, raw: string, clock: Time, api: Api)
    requires c.apiKey != "" && c.channel != "" && !a.reminder && !a.resolved
    ensures var (ok, t) := Send(cards, c, a, raw, clock, api);
            var gk, now := GroupKey(c.channel, a), if a.time == 0 then clock else a.time;
            var cond := Cond(a.key, a.kind, a.severity, raw, now, 0);
            if gk !in cards then
              && ok == api.post.Some?
              && (!ok ==> t == cards)
              && (ok ==> gk in t && t == cards[gk := t[gk]] && api.post == Some(t[gk].msgID)
                         && t[gk].conds == [cond] && t[gk].openedAt == now && t[gk].channel == c.channel)
              && (ok ==> t[gk].chainID == (if a.chainID == "" then a.chain else a.chainID))
              && (ok && a.node != "" ==> t[gk].node == a.node)
              && (ok && a.node == "" && "profile" in a.labels ==> t[gk].node == a.labels["profile"])
              && (ok && a.node == "" && "profile" !in a.labels ==> t[gk].node == "")
            else
              var aloud := !Shows(cards[gk].conds, a.key) && SaidAloud(cards[gk], a.severity, now);
              && gk in t && t == cards[gk := t[gk]]
              && (if Shows(cards[gk].conds, a.key) then Replaced(cards[gk].conds, t[gk].conds, a.key, cond)
                  else t[gk].conds == cards[gk].conds + [cond])
              && (if aloud && !api.reply then !ok && t[gk] == cards[gk].(conds := t[gk].conds)
                  else ok == EditWorks(api) && Reposted(cards[gk], t[gk], api))
  {
    var gk, now := GroupKey(c.channel, a), if a.time == 0 then clock else a.time;
    hide GroupKey;
    if gk in cards {
      var conds := cards[gk].conds;
      var cond := Cond(a.key, a.kind, a.severity, raw, now, 0);
      ShowsIsOpenIndex(conds, a.key);
      AnnouncedAloud(cards[gk], cond, now);
      ReplacedAt(conds, a.key, cond);
      hide OpenIndex, Shows, Replaced, Announced, SaidAloud, AlertNode, ChainOf;
    }
  }

  lemma AnnouncedAloud(card: Card, cond: Cond, now: Time)
    ensures Announced(card, cond, now) <==> !Shows(card.conds, cond.key) && SaidAloud(card, cond.severity, now)
  {
    ShowsIsOpenIndex(card.conds, cond.key);
    hide OpenIndex, Shows, Rank;
    assert Worst(card.conds) == 0 || exists i :: 0 <= i < |card.conds| && card.conds[i].Open()
                                                 && Rank(card.conds[i].severity) == Worst(card.conds);
    hide Worst;
  }

  lemma ReplacedAt(conds: seq<Cond>, key: string, cond: Cond)
    ensures Shows(conds, key) ==>
              var i := OpenIndex(conds, key); i >= 0 && Replaced(conds, conds[i := cond], key, cond)
  {
    if Shows(conds, key) {
      ShowsIsOpenIndex(conds, key);
      var i := OpenIndex(conds, key);
      hide OpenIndex;
      assert conds[i := cond] == conds[..i] + [cond] + conds[i + 1..];
    }
  }

  /** A resolve of a key its card shows clears that condition at the alert's time and edits
      the card, or drops it when nothing on it is open and the edit works; the last word is
      then a reply. Any other resolve, reminders, and Sends without a token or channel change
      nothing. */
  lemma {:induction false} ResolveStores(cards: Cards, c: TgConfig, a: Alert, raw: string, clock: Time, api: Api)
    requires c.apiKey == "" || c.channel == "" || a.reminder || a.resolved
    ensures var (ok, t) := Send(cards, c, a, raw, clock, api);
            var gk, now := GroupKey(c.channel, a), if a.time == 0 then clock else a.time;
            if c.apiKey == "" || c.channel == "" then !ok && t == cards
            else if a.reminder then t == cards && (ok <==> gk !in cards || api.reply)
            else if gk !in cards || !Shows(cards[gk].conds, a.key) then ok && t == cards
            else exists cond: Cond, conds: seq<Cond> ::
              && cond == Cond(a.key, cond.kind, cond.severity, cond.raw, cond.since, now)
              && Cond(a.key, cond.kind, cond.severity, cond.raw, cond.since, 0) in cards[gk].conds
              && Replaced(cards[gk].conds, conds, a.key, cond)
              && if EditWorks(api) && AllClear(conds) then t == cards - {gk} && ok == api.reply
                 else gk in t && t == cards[gk := t[gk]] && t[gk].conds == conds && Reposted(cards[gk], t[gk], api)
                      && ok == EditWorks(api)
  {
    var gk, now := GroupKey(c.channel, a), if a.time == 0 then clock else a.time;
    hide GroupKey;
    if gk in cards && Shows(cards[gk].conds, a.key) && a.resolved && !a.reminder {
      var conds := cards[gk].conds;
      ShowsIsOpenIndex(conds, a.key);
      var i := OpenIndex(conds, a.key);
      var cond := conds[i].(cleared := now);
      ReplacedAt(conds, a.key, cond);
      assert conds[i] == Cond(a.key, cond.kind, cond.severity, cond.raw, cond.since, 0);
      assert Clear(conds, a.key, now) == conds[i := cond];
      hide OpenIndex, Shows, Replaced, AllClear, Clear;
    } else if gk in cards {
      ShowsIsOpenIndex(cards[gk].conds, a.key);
      hide OpenIndex, Shows, Replaced, AllClear, Clear;
    }
  }

  // ----- What every Send keeps -----

  /** No two open conditions with one key. */
  predicate DistinctOpen(conds: seq<Cond>) {
    forall i, j :: 0 <= i < j < |conds| && conds[i].Open() && conds[j].Open() ==> conds[i].key != conds[j].key
  }

  lemma AllClearShowsNothing(conds: seq<Cond>)
    ensures AllClear(conds) <==> forall key :: !Shows(conds, key)
  {
    if i :| 0 <= i < |conds| && conds[i].Open() {
      assert Shows(conds, conds[i].key);
    }
  }

  /** Every stored card has conditions, and no two of its open ones share a key. */
  predicate WellFormed(cards: Cards) {
    forall gk :: gk in cards ==> cards[gk].conds != [] && DistinctOpen(cards[gk].conds)
  }

  /** Every stored card has at least one open condition. */
  predicate Lively(cards: Cards) {
    forall gk :: gk in cards ==> !AllClear(cards[gk].conds)
  }

  lemma ClearConds(conds: seq<Cond>, key: string, now: Time)
    requires DistinctOpen(conds) && now != 0
    ensures var after := Clear(conds, key, now);
            && |after| == |conds| && DistinctOpen(after)
            && forall k :: Shows(after, k) <==> Shows(conds, k) && k != key
  {
    var i, after := OpenIndex(conds, key), Clear(conds, key, now);
    forall k
      ensures Shows(after, k) <==> Shows(conds, k) && k != key
    {
      if j :| 0 <= j < |conds| && conds[j].Open() && conds[j].key == k {
        assert j != i ==> after[j] == conds[j];
      }
    }
  }

  lemma AddConds(conds: seq<Cond>, cond: Cond)
    requires DistinctOpen(conds) && cond.Open()
    ensures var after := Add(conds, cond);
            && after != [] && DistinctOpen(after)
            && forall k :: Shows(after, k) <==> Shows(conds, k) || k == cond.key
  {
    var i, after := OpenIndex(conds, cond.key), Add(conds, cond);
    assert after[if i >= 0 then i else |conds|] == cond;
    forall k
      ensures Shows(after, k) <==> Shows(conds, k) || k == cond.key
    {
      if j :| 0 <= j < |conds| && conds[j].Open() && conds[j].key == k {
        assert j != i ==> after[j] == conds[j];
      }
    }
  }

  /** The three ways a resolve can end. */
  lemma {:induction false} ResolveOutcome(cards: Cards, gk: string, key: string, now: Time, api: Api)
    requires WellFormed(cards) && now != 0
    ensures var t := SendResolve(cards, gk, key, now, api).1;
            if !OnCard(cards, gk, key) then t == cards
            else
              var after := Clear(cards[gk].conds, key, now);
              if EditWorks(api) && AllClear(after) then t == cards - {gk}
              else gk in t && t == cards[gk := t[gk]] && t[gk].conds == after
  {
    if gk in cards {
      ShowsIsOpenIndex(cards[gk].conds, key);
      hide OpenIndex, Clear, AllClear, Shows;
    }
  }

  /** The three ways a raise can end. */
  lemma {:induction false} RaiseOutcome(cards: Cards, gk: string, start: Card, cond: Cond, now: Time, api: Api)
    ensures var t := SendRaise(cards, gk, start, cond, now, api).1;
            if gk !in cards && api.post.None? then t == cards
            else gk in t && t == cards[gk := t[gk]]
                 && t[gk].conds == if gk in cards then Add(cards[gk].conds, cond) else start.conds
  {
    hide Add, Announced;
  }

  lemma OneCond(cond: Cond)
    requires cond.Open()
    ensures DistinctOpen([cond]) && forall k :: Shows([cond], k) <==> k == cond.key
  {
    assert [cond][0] == cond;
  }

  /** What a resolve does: no card gains a duplicate, and exactly `key` leaves its card. */
  lemma ResolveShows(cards: Cards, gk: string, key: string, now: Time, api: Api)
    requires WellFormed(cards) && now != 0
    ensures var t := SendResolve(cards, gk, key, now, api).1;
            && WellFormed(t)
            && forall g, k :: OnCard(t, g, k) <==> OnCard(cards, g, k) && (g, k) != (gk, key)
  {
    ResolveOutcome(cards, gk, key, now, api);
    if gk in cards {
      ClearConds(cards[gk].conds, key, now);
      AllClearShowsNothing(Clear(cards[gk].conds, key, now));
    }
    hide SendResolve, Clear, AllClear, Shows, DistinctOpen;
  }

  /** What a raise does: no card gains a duplicate, and exactly its key joins its card,
      unless a new card was needed and its post failed. */
  lemma RaiseShows(cards: Cards, gk: string, start: Card, cond: Cond, now: Time, api: Api)
    requires WellFormed(cards) && cond.Open() && start.conds == [cond]
    ensures var t := SendRaise(cards, gk, start, cond, now, api).1;
            && WellFormed(t)
            && forall g, k :: OnCard(t, g, k) <==>
                 OnCard(cards, g, k) || ((g, k) == (gk, cond.key) && (gk in cards || api.post.Some?))
  {
    RaiseOutcome(cards, gk, start, cond, now, api);
    OneCond(cond);
    if gk in cards {
      AddConds(cards[gk].conds, cond);
    }
    hide SendRaise, Add, Shows, DistinctOpen;
  }

  /** Some card has `key` open; the card is the one the key belongs to. */
  predicate OnCard(cards: Cards, gk: string, key: string) {
    gk in cards && Shows(cards[gk].conds, key)
  }

  /** Whatever the Bot API answers, no card ever has two open conditions with one key. */
  lemma {:induction false} SendKeepsWellFormed(cards: Cards, c: TgConfig, a: Alert, raw: string, clock: Time, api: Api)
    requires WellFormed(cards) && clock != 0
    ensures WellFormed(Send(cards, c, a, raw, clock, api).1)
  {
    var gk := GroupKey(c.channel, a);
    var now := if a.time == 0 then clock else a.time;
    var cond := Cond(a.key, a.kind, a.severity, raw, now, 0);
    ResolveShows(cards, gk, a.key, now, api);
    RaiseShows(cards, gk, Card(0, c.channel, AlertNode(a), ChainOf(a), now, [cond]), cond, now, api);
    hide GroupKey, AlertNode, ChainOf, SendResolve, SendRaise, WellFormed;
  }

  /** What a Send does to what the cards show: a resolve takes exactly its key off its card,
      a raise puts exactly its key on it, unless it needed a new card and the post failed,
      and a reminder changes nothing. */
  lemma SendShows(cards: Cards, c: TgConfig, a: Alert, raw: string, clock: Time, api: Api, gk: string, key: string)
    requires WellFormed(cards) && clock != 0 && c.apiKey != "" && c.channel != ""
    ensures var after, own := Send(cards, c, a, raw, clock, api).1, GroupKey(c.channel, a);
            OnCard(after, gk, key) <==>
              if a.reminder || (gk, key) != (own, a.key) then OnCard(cards, gk, key)
              else !a.resolved && (gk in cards || api.post.Some?)
  {
    var own := GroupKey(c.channel, a);
    var now := if a.time == 0 then clock else a.time;
    var cond := Cond(a.key, a.kind, a.severity, raw, now, 0);
    ResolveShows(cards, own, a.key, now, api);
    RaiseShows(cards, own, Card(0, c.channel, AlertNode(a), ChainOf(a), now, [cond]), cond, now, api);
    assert OnCard(cards, own, a.key) ==> own in cards;
    hide GroupKey, AlertNode, ChainOf, SendResolve, SendRaise, WellFormed, OnCard;
  }

  /** The alert resolves the only key open on its card, and the edit fails. */
  predicate StrandsCard(cards: Cards, c: TgConfig, a: Alert, api: Api) {
    var gk := GroupKey(c.channel, a);
    && a.resolved && !a.reminder && !EditWorks(api)
    && OnCard(cards, gk, a.key)
    && (forall i :: 0 <= i < |cards[gk].conds| && cards[gk].conds[i].Open() ==> cards[gk].conds[i].key == a.key)
  }

  lemma ClearLast(conds: seq<Cond>, key: string, now: Time)
    requires DistinctOpen(conds) && now != 0 && Shows(conds, key)
    ensures AllClear(Clear(conds, key, now)) <==>
              forall i :: 0 <= i < |conds| && conds[i].Open() ==> conds[i].key == key
  {
    ClearConds(conds, key, now);
    AllClearShowsNothing(Clear(conds, key, now));
    if i :| 0 <= i < |conds| && conds[i].Open() && conds[i].key != key {
      assert Shows(conds, conds[i].key);
    } else {
      assert forall k :: Shows(conds, k) ==> k == key;
    }
  }

  lemma ResolveLively(cards: Cards, gk: string, key: string, now: Time, api: Api)
    requires WellFormed(cards) && Lively(cards) && now != 0
    ensures Lively(SendResolve(cards, gk, key, now, api).1) <==>
              EditWorks(api) || !OnCard(cards, gk, key) || !AllClear(Clear(cards[gk].conds, key, now))
  {
    var t := SendResolve(cards, gk, key, now, api).1;
    ResolveOutcome(cards, gk, key, now, api);
    hide SendResolve, Clear, AllClear, Shows, DistinctOpen;
    if gk in t && AllClear(t[gk].conds) {
      assert !Lively(t);
    }
  }

  lemma RaiseLively(cards: Cards, gk: string, start: Card, cond: Cond, now: Time, api: Api)
    requires WellFormed(cards) && Lively(cards) && cond.Open() && start.conds == [cond]
    ensures Lively(SendRaise(cards, gk, start, cond, now, api).1)
  {
    RaiseOutcome(cards, gk, start, cond, now, api);
    assert [cond][0].Open();
    if gk in cards {
      AddConds(cards[gk].conds, cond);
      assert Shows(Add(cards[gk].conds, cond), cond.key);
    }
    hide SendRaise, Add, DistinctOpen;
  }

  /** Sends leave an all-clear card behind in one case only: a resolve clears the last open
      condition and the edit that says so fails. */
  lemma SendLively(cards: Cards, c: TgConfig, a: Alert, raw: string, clock: Time, api: Api)
    requires WellFormed(cards) && Lively(cards) && clock != 0 && c.apiKey != "" && c.channel != ""
    ensures Lively(Send(cards, c, a, raw, clock, api).1) <==> !StrandsCard(cards, c, a, api)
  {
    var gk := GroupKey(c.channel, a);
    var now := if a.time == 0 then clock else a.time;
    var cond := Cond(a.key, a.kind, a.severity, raw, now, 0);
    ResolveLively(cards, gk, a.key, now, api);
    RaiseLively(cards, gk, Card(0, c.channel, AlertNode(a), ChainOf(a), now, [cond]), cond, now, api);
    if OnCard(cards, gk, a.key) {
      ClearLast(cards[gk].conds, a.key, now);
    }
    hide GroupKey, AlertNode, ChainOf, SendResolve, SendRaise, Clear, AllClear, Shows, DistinctOpen;
  }

  /** Such resolves exist: any open condition alone on its card, when the edit is refused. */
  lemma StrandedHappens(c: TgConfig, a: Alert, raw: string, clock: Time, post: Option<int>, reply: bool)
    requires a.resolved && !a.reminder && clock != 0 && c.apiKey != "" && c.channel != ""
    ensures var gk := GroupKey(c.channel, a);
            var cards := map[gk := Card(1, c.channel, AlertNode(a), ChainOf(a), clock,
                                        [Cond(a.key, a.kind, a.severity, raw, clock, 0)])];
            && WellFormed(cards) && Lively(cards)
            && !Lively(Send(cards, c, a, raw, clock, Api(post, Refused, reply)).1)
  {
    var gk, cond := GroupKey(c.channel, a), Cond(a.key, a.kind, a.severity, raw, clock, 0);
    var cards := map[gk := Card(1, c.channel, AlertNode(a), ChainOf(a), clock, [cond])];
    hide GroupKey, AlertNode, ChainOf;
    assert cards[gk].conds[0] == cond && Shows(cards[gk].conds, a.key);
    SendLively(cards, c, a, raw, clock, Api(post, Refused, reply));
  }
}
