/** The two list panels of the admin page (highlight cards and events) and
    the delete flow of their list items. Each panel keeps its own copy of the
    list; a delete that the store confirms removes the item from that copy
    without reloading it. */
module AdminPanels {
  import opened Outcomes
  import opened Records
  import Seqs

  function KeepCard(id: string): HighlightCard -> bool {
    (c: HighlightCard) => c.id != id
  }

  function KeepEvent(id: string): Event -> bool {
    (e: Event) => e.id != id
  }

  /** `prev.filter((c) => c.id !== id)` on the card list: no card with that id
      is left, every other card is kept as often as it occurred. */
  function WithoutCard(cards: seq<HighlightCard>, id: string): (r: seq<HighlightCard>)
    ensures forall k :: 0 <= k < |r| ==> r[k].id != id && r[k] in cards
    ensures forall c :: multiset(r)[c] == if c.id == id then 0 else multiset(cards)[c]
  {
    Seqs.FilterCounts(cards, KeepCard(id));
    Seqs.Filter(cards, KeepCard(id))
  }

  /** `prev.filter((e) => e.id !== id)` on the event list. */
  function WithoutEvent(events: seq<Event>, id: string): (r: seq<Event>)
    ensures forall k :: 0 <= k < |r| ==> r[k].id != id && r[k] in events
    ensures forall e :: multiset(r)[e] == if e.id == id then 0 else multiset(events)[e]
  {
    Seqs.FilterCounts(events, KeepEvent(id));
    Seqs.Filter(events, KeepEvent(id))
  }

  /** The cards that are left keep their order, deleting twice is deleting
      once, and deleting an id no card has changes nothing. */
  lemma WithoutCardFacts(cards: seq<HighlightCard>, id: string)
    ensures Seqs.IsSubsequence(WithoutCard(cards, id), cards)
    ensures WithoutCard(WithoutCard(cards, id), id) == WithoutCard(cards, id)
    ensures (forall k :: 0 <= k < |cards| ==> cards[k].id != id) ==> WithoutCard(cards, id) == cards
  {
    Seqs.FilterIsSubsequence(cards, KeepCard(id));
    Seqs.FilterIdempotent(cards, KeepCard(id));
    if forall k :: 0 <= k < |cards| ==> cards[k].id != id {
      Seqs.FilterAllPass(cards, KeepCard(id));
    }
  }

  /** The same three facts for the event list. */
  lemma WithoutEventFacts(events: seq<Event>, id: string)
    ensures Seqs.IsSubsequence(WithoutEvent(events, id), events)
    ensures WithoutEvent(WithoutEvent(events, id), id) == WithoutEvent(events, id)
    ensures (forall k :: 0 <= k < |events| ==> events[k].id != id) ==> WithoutEvent(events, id) == events
  {
    Seqs.FilterIsSubsequence(events, KeepEvent(id));
    Seqs.FilterIdempotent(events, KeepEvent(id));
    if forall k :: 0 <= k < |events| ==> events[k].id != id {
      Seqs.FilterAllPass(events, KeepEvent(id));
    }
  }

  /** `HighlightCardsPanel`: the section tab, the card list and its loading
      flag. */
  class CardsPanel {
    var activeSection: Section
    var cards: seq<HighlightCard>
    var loading: bool

    constructor ()
      ensures activeSection == Raices && cards == [] && loading
    {
      activeSection := Raices;
      cards := [];
      loading := true;
    }

    /** A click on a section tab. `fetchCards` depends on the section, so the
        effect fetches again exactly when the section changed; `outcome` is
        what that fetch gives, and `queried` the section it asked for (`None`
        when the click changed nothing and no fetch ran). */
    method SelectSection(section: Section, outcome: Call<seq<HighlightCard>>) returns (queried: Option<Section>)
      modifies this`activeSection, this`cards, this`loading
      ensures activeSection == section
      ensures old(activeSection) == section ==>
                queried == None && cards == old(cards) && loading == old(loading)
      ensures old(activeSection) != section ==> queried == Some(section)
      ensures old(activeSection) != section && outcome.Returned? ==> cards == outcome.value && !loading
      ensures old(activeSection) != section && outcome.Threw? ==> cards == old(cards) && loading
    {
      if activeSection == section {
        return None;
      }
      activeSection := section;
      var asked := FetchCards(outcome);
      queried := Some(asked);
    }

    /** `fetchCards`: asks the store for the cards of the active section and
        replaces the list wholesale with them. There is no catch: when the
        call throws, the old list stays and the panel keeps showing its
        loading placeholders. */
    method FetchCards(outcome: Call<seq<HighlightCard>>) returns (queried: Section)
      modifies this`cards, this`loading
      ensures queried == activeSection
      ensures outcome.Returned? ==> cards == outcome.value && !loading
      ensures outcome.Threw? ==> cards == old(cards) && loading
    {
      queried := activeSection;
      loading := true;
      if outcome.Threw? {
        return;
      }
      cards := outcome.value;
      loading := false;
    }

    /** `handleDelete`: drops the cards with that id from the local list. */
    method HandleDelete(id: string)
      modifies this`cards
      ensures cards == WithoutCard(old(cards), id)
    {
      cards := WithoutCard(cards, id);
    }
  }

  /** `CardListItem`: one card of the list with its own "deleting" flag. */
  class CardListItem {
    const card: HighlightCard
    var deleting: bool

    constructor (card: HighlightCard)
      ensures this.card == card && !deleting
    {
      this.card := card;
      deleting := false;
    }

    /** `handleDelete`: asks for confirmation, calls the store, and on success
        tells the panel to drop the card. `confirmed` is the answer to the
        confirmation dialog, `outcome` the store's answer; the result says
        whether the store was called. There is no catch: a throwing store
        call leaves the flag set and the list as it was. */
    method HandleDelete(confirmed: bool, outcome: Call<bool>, panel: CardsPanel) returns (storeCalled: bool)
      modifies this`deleting, panel`cards
      ensures storeCalled == confirmed
      ensures panel.cards == if confirmed && outcome == Returned(true)
                             then WithoutCard(old(panel.cards), card.id)
                             else old(panel.cards)
      ensures deleting == if !confirmed then old(deleting) else outcome.Threw?
    {
      if !confirmed {
        return false;
      }
      deleting := true;
      storeCalled := true;
      if outcome.Threw? {
        return;
      }
      if outcome.value {
        panel.HandleDelete(card.id);
      }
      deleting := false;
    }
  }

  /** `EventsPanel`: the event list and its loading flag. */
  class EventsPanel {
    var events: seq<Event>
    var loading: bool

    constructor ()
      ensures events == [] && loading
    {
      events := [];
      loading := true;
    }

    /** `fetchEvents`: the list is replaced wholesale; no catch, as for cards. */
    method FetchEvents(outcome: Call<seq<Event>>)
      modifies this`events, this`loading
      ensures outcome.Returned? ==> events == outcome.value && !loading
      ensures outcome.Threw? ==> events == old(events) && loading
    {
      loading := true;
      if outcome.Threw? {
        return;
      }
      events := outcome.value;
      loading := false;
    }

    /** `handleDelete`: drops the events with that id from the local list. */
    method HandleDelete(id: string)
      modifies this`events
      ensures events == WithoutEvent(old(events), id)
    {
      events := WithoutEvent(events, id);
    }
  }

  /** `EventListItem`: one event of the list with its own "deleting" flag. */
  class EventListItem {
    const event: Event
    var deleting: bool

    constructor (event: Event)
      ensures this.event == event && !deleting
    {
      this.event := event;
      deleting := false;
    }

    /** `handleDelete`: the same confirm, call, then drop sequence as for a
        card. */
    method HandleDelete(confirmed: bool, outcome: Call<bool>, panel: EventsPanel) returns (storeCalled: bool)
      modifies this`deleting, panel`events
      ensures storeCalled == confirmed
      ensures panel.events == if confirmed && outcome == Returned(true)
                              then WithoutEvent(old(panel.events), event.id)
                              else old(panel.events)
      ensures deleting == if !confirmed then old(deleting) else outcome.Threw?
    {
      if !confirmed {
        return false;
      }
      deleting := true;
      storeCalled := true;
      if outcome.Threw? {
        return;
      }
      if outcome.value {
        panel.HandleDelete(event.id);
      }
      deleting := false;
    }
  }
}
