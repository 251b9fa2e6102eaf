/** The public highlight sections, "raices" and "preservacion". Both lists
    are fetched together; a section with no cards in the store shows its own
    fallback cards, and when either fetch fails both sections fall back. */
module Highlights {
  import opened Outcomes
  import opened Records

  /** `fallbackRaices`. */
  const FallbackRaices: seq<HighlightCard> := [
    HighlightCard("f-1", Raices, "/images/lengua.png", "Lengua Hñähñu",
      "Preservamos la lengua Otomí a través de talleres, materiales educativos y programas intergeneracionales.", 1, ""),
    HighlightCard("f-2", Raices, "/images/gastronomia.png", "Gastronomía Ancestral",
      "La cocina Otomí refleja siglos de sabiduría: ingredientes locales, técnicas prehispánicas y sabores únicos.", 2, ""),
    HighlightCard("f-3", Raices, "/images/medicina.png", "Medicina Tradicional",
      "Herbolaria y conocimientos medicinales transmitidos de generación en generación para el bienestar comunitario.", 3, "")
  ]

  /** `fallbackPreservacion`. */
  const FallbackPreservacion: seq<HighlightCard> := [
    HighlightCard("f-4", Preservacion, "/images/hongos.png", "Biodiversidad: Hongos",
      "Documentamos y protegemos la extraordinaria diversidad de hongos del bosque de niebla.", 1, ""),
    HighlightCard("f-5", Preservacion, "/images/reforestacion.png", "Reforestación",
      "Programas activos de reforestación con árboles nativos para restaurar los ecosistemas.", 2, ""),
    HighlightCard("f-6", Preservacion, "/images/agua.png", "Conservación del Agua",
      "Protegemos los manantiales, ríos y el embalse natural que abastecen a toda la región.", 3, "")
  ]

  /** The fallback cards of a section. */
  function Fallback(section: Section): seq<HighlightCard> {
    match section
    case Raices => FallbackRaices
    case Preservacion => FallbackPreservacion
  }

  /** `cards.length > 0 ? cards : fallback`: the cards a section shows once
      its fetch returned. */
  function Pick(fetched: seq<HighlightCard>, section: Section): (r: seq<HighlightCard>)
    ensures r != []
    ensures fetched != [] ==> r == fetched
    ensures fetched == [] ==> r == Fallback(section)
  {
    if |fetched| > 0 then fetched else Fallback(section)
  }

  /** What the two sections show once loading is over. */
  datatype Shown = Shown(raices: seq<HighlightCard>, preservacion: seq<HighlightCard>)

  /** `fetchCards`: `Promise.all` of the two fetches. When both return, each
      section picks on its own; when either throws, the `catch` gives both
      sections their fallback cards. */
  function ShownSections(r: Call<seq<HighlightCard>>, p: Call<seq<HighlightCard>>): (s: Shown)
    ensures s.raices != [] && s.preservacion != []
    ensures r.Threw? || p.Threw? ==> s == Shown(FallbackRaices, FallbackPreservacion)
    ensures r.Returned? && p.Returned? ==>
              s.raices == Pick(r.value, Raices) && s.preservacion == Pick(p.value, Preservacion)
  {
    if r.Returned? && p.Returned? then Shown(Pick(r.value, Raices), Pick(p.value, Preservacion))
    else Shown(FallbackRaices, FallbackPreservacion)
  }

  /** The two sections choose independently: what one fetch returned does not
      affect what the other section shows, as long as neither fetch threw. */
  lemma SectionsIndependent(r: seq<HighlightCard>, p: seq<HighlightCard>, r': seq<HighlightCard>, p': seq<HighlightCard>)
    ensures ShownSections(Returned(r), Returned(p)).raices == ShownSections(Returned(r), Returned(p')).raices
    ensures ShownSections(Returned(r), Returned(p)).preservacion == ShownSections(Returned(r'), Returned(p)).preservacion
  {
  }

  /** Whatever the fetches do, every card a section shows was either fetched
      for it or is one of its own fallback cards. */
  lemma ShownCardsOrigin(r: Call<seq<HighlightCard>>, p: Call<seq<HighlightCard>>)
    ensures var s := ShownSections(r, p);
            (s.raices == FallbackRaices || (r.Returned? && s.raices == r.value))
            && (s.preservacion == FallbackPreservacion || (p.Returned? && s.preservacion == p.value))
  {
  }

  /** A fallback set: three cards of the given section with display orders
      1, 2, 3 in that order. */
  predicate WellFormedFallback(cards: seq<HighlightCard>, section: Section) {
    |cards| == 3
    && (forall k :: 0 <= k < |cards| ==> cards[k].section == section && cards[k].displayOrder == k + 1)
  }

  /** Each fallback set belongs to its own section and is in ascending display
      order, and the six ids are distinct. */
  lemma FallbackShape()
    ensures WellFormedFallback(FallbackRaices, Raices)
    ensures WellFormedFallback(FallbackPreservacion, Preservacion)
    ensures forall i, j :: 0 <= i < j < |FallbackRaices + FallbackPreservacion| ==>
              (FallbackRaices + FallbackPreservacion)[i].id != (FallbackRaices + FallbackPreservacion)[j].id
  {
    var all := FallbackRaices + FallbackPreservacion;
    assert [all[0].id, all[1].id, all[2].id, all[3].id, all[4].id, all[5].id]
        == ["f-1", "f-2", "f-3", "f-4", "f-5", "f-6"];
  }

  /** A well-formed set is sorted by display order. */
  lemma WellFormedSorted(cards: seq<HighlightCard>, section: Section)
    requires WellFormedFallback(cards, section)
    ensures forall i, j :: 0 <= i < j < |cards| ==> cards[i].displayOrder < cards[j].displayOrder
  {
  }

  /** The `Highlights` component's state. */
  class HighlightsView {
    var raices: seq<HighlightCard>
    var preservacion: seq<HighlightCard>
    var loading: bool

    /** `useState([])`, `useState([])`, `useState(true)`. */
    constructor ()
      ensures raices == [] && preservacion == [] && loading
    {
      raices := [];
      preservacion := [];
      loading := true;
    }

    /** `fetchCards`, with the outcomes of the two `getHighlightCards` calls as
        parameters: the `try` or the `catch` sets both lists, `finally` ends
        loading. */
    method FetchCards(r: Call<seq<HighlightCard>>, p: Call<seq<HighlightCard>>)
      modifies this
      ensures Shown(raices, preservacion) == ShownSections(r, p) && !loading
    {
      if r.Returned? && p.Returned? {
        raices := if |r.value| > 0 then r.value else FallbackRaices;
        preservacion := if |p.value| > 0 then p.value else FallbackPreservacion;
      } else {
        raices := FallbackRaices;
        preservacion := FallbackPreservacion;
      }
      loading := false;
    }
  }
}
