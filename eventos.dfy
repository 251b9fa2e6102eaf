/** The public events section: the list loads once, falls back to a fixed
    set of four events when the store has none or cannot be reached, and can
    be narrowed to one category with the filter buttons. */
module Eventos {
  import opened Outcomes
  import opened Records
  import Categories
  import Seqs

  /** `fallbackEvents`: one event per category, no image, no creation time. */
  const FallbackEvents: seq<Event> := [
    Event("1", "Senderismo en la Reserva",
          "Recorrido guiado por los senderos de la reserva natural, con avistamiento de aves y flora endémica.",
          "2026-03-15T09:00:00-06:00", "ecoturismo", None, ["senderismo", "avistamientos"], ""),
    Event("2", "Taller de Lengua Otomí",
          "Sesión introductoria a la lengua Hñähñu con hablantes nativos de la comunidad.",
          "2026-03-22T10:00:00-06:00", "cultura", None, ["lengua", "comunidad"], ""),
    Event("3", "Jornada de Reforestación",
          "Actividad comunitaria de plantación de árboles nativos en la zona de amortiguamiento.",
          "2026-04-05T08:00:00-06:00", "activismo", None, ["reforestación", "voluntariado"], ""),
    Event("4", "Taller de Medicina Tradicional",
          "Conoce las plantas medicinales de la región y sus usos ancestrales.",
          "2026-04-12T11:00:00-06:00", "talleres", None, ["medicina", "herbolaria"], "")
  ]

  /** The list shown once loading is over: the fetched events when there are
      any, the fallback set when there are none or `getEvents` threw. The
      section never shows an empty list. */
  function ShownEvents(fetched: Call<seq<Event>>): (r: seq<Event>)
    ensures r != []
    ensures fetched.Returned? && fetched.value != [] ==> r == fetched.value
    ensures fetched.Threw? || fetched.value == [] ==> r == FallbackEvents
  {
    match fetched
    case Returned(data) => if |data| > 0 then data else FallbackEvents
    case Threw => FallbackEvents
  }

  function InCategory(category: string): Event -> bool {
    (e: Event) => e.category == category
  }

  /** `activeFilter ? events.filter((e) => e.category === activeFilter) : events`.
      A null or empty filter is falsy and shows everything. */
  function FilterEvents(events: seq<Event>, filter: Option<string>): (r: seq<Event>)
    ensures filter.None? || filter.value == "" ==> r == events
    ensures filter.Some? && filter.value != "" ==>
              forall k :: 0 <= k < |r| ==> r[k] in events && r[k].category == filter.value
  {
    if filter.Some? && filter.value != "" then Seqs.Filter(events, InCategory(filter.value)) else events
  }

  /** With a filter set, the shown events are the events of that category in
      list order, each as often as it occurs in the list; filtering again by
      the same category changes nothing. */
  lemma FilterEventsFacts(events: seq<Event>, category: string)
    requires category != ""
    ensures Seqs.IsSubsequence(FilterEvents(events, Some(category)), events)
    ensures forall e :: multiset(FilterEvents(events, Some(category)))[e] ==
                        if e.category == category then multiset(events)[e] else 0
    ensures FilterEvents(FilterEvents(events, Some(category)), Some(category)) == FilterEvents(events, Some(category))
  {
    Seqs.FilterIsSubsequence(events, InCategory(category));
    Seqs.FilterCounts(events, InCategory(category));
    Seqs.FilterIdempotent(events, InCategory(category));
  }

  /** The category buttons' click handler:
      `activeFilter === c ? null : c`. */
  function Toggle(active: Option<string>, category: string): (r: Option<string>)
    ensures r == None <==> active == Some(category)
    ensures r != None ==> r == Some(category)
  {
    if active == Some(category) then None else Some(category)
  }

  /** Clicking a category twice from "Todos" comes back to "Todos"; clicking
      another category moves the filter there directly. */
  lemma ToggleFacts(category: string, other: string)
    requires other != category
    ensures Toggle(Toggle(None, category), category) == None
    ensures Toggle(Some(other), category) == Some(category)
  {
  }

  /** The fallback set: four events with distinct ids, each of a known
      category. */
  lemma FallbackEventsShape()
    ensures |FallbackEvents| == 4
    ensures forall i, j :: 0 <= i < j < |FallbackEvents| ==> FallbackEvents[i].id != FallbackEvents[j].id
    ensures forall k :: 0 <= k < |FallbackEvents| ==> Categories.IsCategory(FallbackEvents[k].category)
  {
    Categories.EntriesDistinct();
    assert Categories.IsCategory(Categories.Entries[0].value);
    assert Categories.IsCategory(Categories.Entries[1].value);
    assert Categories.IsCategory(Categories.Entries[2].value);
    assert Categories.IsCategory(Categories.Entries[3].value);
  }

  /** Each category is used by exactly one fallback event, so every filter
      button shows exactly one of them. */
  lemma FallbackOnePerCategory(k: nat)
    requires k < |Categories.Entries|
    ensures |FilterEvents(FallbackEvents, Some(Categories.Entries[k].value))| == 1
  {
    var c := Categories.Entries[k].value;
    assert c in ["ecoturismo", "cultura", "talleres", "activismo"];
    var e := FallbackEvents;
    assert e == [e[0], e[1], e[2], e[3]];
    FilterFour(e[0], e[1], e[2], e[3], InCategory(c));
  }

  /** How many of four elements a filter keeps. */
  lemma FilterFour<T(!new)>(a: T, b: T, c: T, d: T, p: T -> bool)
    ensures |Seqs.Filter([a, b, c, d], p)| == (if p(a) then 1 else 0) + (if p(b) then 1 else 0)
                                             + (if p(c) then 1 else 0) + (if p(d) then 1 else 0)
  {
    assert [a, b, c, d] == [a] + ([b] + ([c] + [d]));
    Seqs.FilterAppend([a], [b] + ([c] + [d]), p);
    Seqs.FilterAppend([b], [c] + [d], p);
    Seqs.FilterAppend([c], [d], p);
  }

  /** The `Eventos` component's state. */
  class EventosView {
    var events: seq<Event>
    var loading: bool
    var activeFilter: Option<string>

    /** `useState([])`, `useState(true)`, `useState(null)`. */
    constructor ()
      ensures events == [] && loading && activeFilter == None
    {
      events := [];
      loading := true;
      activeFilter := None;
    }

    /** `fetchEvents`, with the outcome of `getEvents()` as a parameter: the
        list is set in the `try` or the `catch`, and `finally` ends loading. */
    method FetchEvents(fetched: Call<seq<Event>>)
      modifies this`events, this`loading
      ensures events == ShownEvents(fetched) && !loading
    {
      match fetched {
        case Returned(data) =>
          events := if |data| > 0 then data else FallbackEvents;
        case Threw =>
          events := FallbackEvents;
      }
      loading := false;
    }

    /** `filteredEvents`, recomputed on every render. */
    function FilteredEvents(): (r: seq<Event>)
      reads this
      ensures activeFilter.None? ==> r == events
      ensures activeFilter.Some? && activeFilter.value != "" ==>
                forall k :: 0 <= k < |r| ==> r[k] in events && r[k].category == activeFilter.value
    {
      FilterEvents(events, activeFilter)
    }

    /** The "Todos" button. */
    method ClickAll()
      modifies this`activeFilter
      ensures activeFilter == None && FilteredEvents() == events
    {
      activeFilter := None;
    }

    /** A category button; the buttons are made from the category list. */
    method ClickCategory(category: string)
      requires Categories.IsCategory(category)
      modifies this`activeFilter
      ensures activeFilter == Toggle(old(activeFilter), category)
      ensures activeFilter == None ==> FilteredEvents() == events
      ensures activeFilter != None ==> FilteredEvents() == Seqs.Filter(events, InCategory(category))
    {
      activeFilter := if activeFilter == Some(category) then None else Some(category);
      if activeFilter != None {
        CategoryNotEmpty(category);
      }
    }
  }

  lemma CategoryNotEmpty(category: string)
    requires Categories.IsCategory(category)
    ensures category != ""
  {
    var k :| 0 <= k < |Categories.Entries| && Categories.Entries[k].value == category;
  }
}
