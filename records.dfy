/** The two kinds of record the site shows and the admin panel edits. */
module Records {
  import opened Outcomes

  /** The two site sections a highlight card belongs to. */
  datatype Section = Raices | Preservacion

  /** A highlight card row. */
  datatype HighlightCard = HighlightCard(
    id: string,
    section: Section,
    imageUrl: string,
    title: string,
    description: string,
    displayOrder: int,
    createdAt: string)

  /** An event row. The date is kept as the text the store holds. */
  datatype Event = Event(
    id: string,
    title: string,
    description: string,
    date: string,
    category: string,
    imageUrl: Option<string>,
    tags: seq<string>,
    createdAt: string)

  /** A file the admin picked in the browser. Only its identity matters here. */
  datatype File = File(name: string)
}
