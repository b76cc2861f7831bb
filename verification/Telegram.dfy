/** The Telegram notifier: cards are objects that one Send updates in place. */
module Telegram {
  import opened Alerts
  import opened Clocks
  import opened TelegramCards

  class TgCard {
    var msgID: int
    const channel: string
    const node: string
    const chainID: string
    const openedAt: Time
    var conds: seq<Cond>

    constructor (channel: string, node: string, chainID: string, openedAt: Time, conds: seq<Cond>)
      ensures Value() == Card(0, channel, node, chainID, openedAt, conds)
    {
      msgID := 0;
      this.channel, this.node, this.chainID, this.openedAt, this.conds := channel, node, chainID, openedAt, conds;
    }

    function Value(): Card
      reads this
    {
      Card(msgID, channel, node, chainID, openedAt, conds)
    }

    method Open(key: string) returns (i: int)
      ensures i == OpenIndex(conds, key)
    {
      for j := 0 to |conds|
        invariant forall k :: 0 <= k < j ==> !(conds[k].key == key && conds[k].Open())
      {
        if conds[j].key == key && conds[j].Open() {
          return j;
        }
      }
      return -1;
    }

    method AllClear() returns (clear: bool)
      ensures clear <==> TelegramCards.AllClear(conds)
    {
      for i := 0 to |conds|
        invariant forall k :: 0 <= k < i ==> !conds[k].Open()
      {
        if conds[i].Open() {
          return false;
        }
      }
      return true;
    }

    method Worst() returns (w: nat)
      ensures w == TelegramCards.Worst(conds)
    {
      w := 0;
      for i := 0 to |conds|
        invariant w == TelegramCards.Worst(conds[..i])
      {
        assert conds[..i + 1][..i] == conds[..i];
        if conds[i].Open() && Rank(conds[i].severity) > w {
          w := Rank(conds[i].severity);
        }
      }
      assert conds[..|conds|] == conds;
    }

    method Lead() returns (lead: Cond)
      requires conds != []
      ensures exists i: nat :: IsLead(conds, i) && lead == conds[i]
    {
      var best := -1;
      for i := 0 to |conds|
        invariant -1 <= best < i
        invariant best < 0 ==> forall k :: 0 <= k < i ==> !conds[k].Open()
        invariant best >= 0 ==> conds[best].Open()
        invariant best >= 0 ==> forall k :: 0 <= k < i && conds[k].Open() ==>
                    if k < best then Rank(conds[k].severity) < Rank(conds[best].severity)
                    else Rank(conds[k].severity) <= Rank(conds[best].severity)
      {
        if conds[i].Open() && (best < 0 || Rank(conds[i].severity) > Rank(conds[best].severity)) {
          best := i;
        }
      }
      var first := if best < 0 then 0 else best;
      assert IsLead(conds, first);
      return conds[first];
    }
  }

  class Telegram {
    var cards: map<string, TgCard>

    constructor ()
      ensures Valid() && Contents() == map[]
    {
      cards := map[];
    }

    /** No card object is stored under two keys. */
    ghost predicate Valid()
      reads this
    {
      forall g, h :: g in cards && h in cards && cards[g] == cards[h] ==> g == h
    }

    ghost function Contents(): Cards
      reads this, cards.Values
    {
      map gk | gk in cards :: cards[gk].Value()
    }

    lemma ContentsAt(gk: string)
      ensures gk in Contents() <==> gk in cards
      ensures gk in cards ==> Contents()[gk] == cards[gk].Value()
    {}

    /** Only the card under gk has changed. */
    twostate lemma OneCardChanged(gk: string)
      requires old(Valid()) && cards == old(cards) && gk in cards
      requires forall card :: card in cards.Values && card != cards[gk] ==> unchanged(card)
      ensures Contents() == old(Contents())[gk := cards[gk].Value()]
    {
      forall g | g in cards && g != gk
        ensures unchanged(cards[g])
      {
        assert cards[g] in cards.Values;
      }
    }

    method Edit(card: TgCard, api: Api) returns (ok: bool)
      modifies card`msgID
      ensures (ok, card.Value()) == EditCard(old(card.Value()), api)
    {
      match api.edit {
        case Edited => return true;
        case Refused => return false;
        case Gone =>
          card.msgID := if api.post.Some? then api.post.value else 0;
          return api.post.Some?;
      }
    }

    method TakeOut(gk: string)
      requires Valid()
      modifies this
      ensures Valid() && cards == old(cards) - {gk} && Contents() == old(Contents()) - {gk}
    {
      cards := cards - {gk};
    }

    method PutIn(gk: string, card: TgCard)
      requires Valid() && card !in cards.Values
      modifies this
      ensures Valid() && cards == old(cards)[gk := card] && Contents() == old(Contents())[gk := card.Value()]
    {
      assert forall g :: g in cards ==> cards[g] in cards.Values;
      cards := cards[gk := card];
    }

    method Resolve(gk: string, key: string, now: Time, api: Api) returns (ok: bool)
      requires Valid()
      modifies this, cards.Values
      ensures Valid() && cards.Values <= old(cards).Values
      ensures (ok, Contents()) == SendResolve(old(Contents()), gk, key, now, api)
    {
      hide OpenIndex, TelegramCards.AllClear, EditCard, Contents, Valid;
      ContentsAt(gk);
      if gk !in cards {
        return true;
      }
      var card := cards[gk];
      var i := card.Open(key);
      if i < 0 {
        return true;
      }
      card.conds := card.conds[i := card.conds[i].(cleared := now)];
      ok := Edit(card, api);
      OneCardChanged(gk);
      if !ok {
        return;
      }
      var clear := card.AllClear();
      if clear {
        TakeOut(gk);
        assert old(Contents())[gk := card.Value()] - {gk} == old(Contents()) - {gk};
        ok := api.reply;
      }
    }

    method Raise(c: TgConfig, gk: string, a: Alert, cond: Cond, now: Time, api: Api) returns (ok: bool)
      requires Valid() && cond.key == a.key
      modifies this, cards.Values
      ensures Valid() && fresh(cards.Values - old(cards).Values)
      ensures (ok, Contents()) ==
                SendRaise(old(Contents()), gk, Card(0, c.channel, AlertNode(a), ChainOf(a), now, [cond]),
                          cond, now, api)
    {
      hide OpenIndex, TelegramCards.Worst, EditCard, Contents, AlertNode, ChainOf, Rank, Valid;
      ContentsAt(gk);
      if gk !in cards {
        var card := new TgCard(c.channel, AlertNode(a), ChainOf(a), now, [cond]);
        if api.post.None? {
          return false;
        }
        card.msgID := api.post.value;
        PutIn(gk, card);
        return true;
      }
      var card := cards[gk];
      var i := card.Open(cond.key);
      if i >= 0 {
        card.conds := card.conds[i := cond];
      } else {
        var worst := card.Worst();
        var worse := Rank(cond.severity) > worst && now - card.openedAt > BURST;
        card.conds := card.conds + [cond];
        if worse && !api.reply {
          OneCardChanged(gk);
          return false;
        }
      }
      ok := Edit(card, api);
      OneCardChanged(gk);
    }

    /** One delivery attempt. */
    method Send(c: TgConfig, a: Alert, raw: string, clock: Time, api: Api) returns (ok: bool)
      requires Valid()
      modifies this, cards.Values
      ensures Valid() && fresh(cards.Values - old(cards).Values)
      ensures (ok, Contents()) == TelegramCards.Send(old(Contents()), c, a, raw, clock, api)
    {
      if c.apiKey == "" || c.channel == "" {
        return false;
      }
      var gk := GroupKey(c.channel, a);
      var now := if a.time == 0 then clock else a.time;
      hide SendResolve, SendRaise, GroupKey;
      if a.reminder {
        return gk in cards ==> api.reply;
      }
      if a.resolved {
        ok := Resolve(gk, a.key, now, api);
      } else {
        ok := Raise(c, gk, a, Cond(a.key, a.kind, a.severity, raw, now, 0), now, api);
      }
    }
  }
}
