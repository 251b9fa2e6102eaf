# Reserva Otomí: admin panel, events and highlights

A Dafny model of the client-side logic of the Reserva Otomí web site. It covers three parts.

**The admin page** (`src/app/admin/page.tsx`):
- a password gate kept in the tab's session storage;
- two list panels, for highlight cards and for events, with per-item delete;
- two creation forms whose submit handlers upload an image, insert a row and reset themselves;
- the free-text tag field of the event form, split on commas, trimmed and filtered, with a live preview.

**The public events section** (`src/components/Eventos.tsx`):
- it loads the events once;
- it falls back to four built-in events when the store has none or throws;
- a row of toggle buttons filters the list by category.

**The public highlights section** (`src/components/Highlights.tsx`):
- it fetches the "raices" and "preservacion" cards together;
- each section falls back to its own three built-in cards.

## How the model is built

Each source component is modelled in one of two ways:
- React components whose state is updated by handlers become classes. Their fields are the component's `useState` variables, and their methods are the handlers.
- Pure computations become functions and lemmas. These cover the tag pipeline, the category lookup, filtering and the fallback choice.

A handler with a multi-step flow is specified twice: by a pure function (`SubmitCard`, `SubmitEvent`, `Step`) and by a method. The method's `ensures` ties the new state and the calls it made to that function.

Some things are parameters rather than computations:
- Every store call, and the events and cards fetches, are parameters of type `Call<T>`: `Returned(value)` or `Threw`.
- The password request (`fetch` to `/api/admin/auth` and `res.json()`) is a parameter of type `AdminGate.Reply`. It is accepted, refused with an optional message, refused with an unreadable body, or unreachable.
- The answer of `confirm(...)` is a `bool` parameter.
- The ISO conversion of the date field is an `Option<string>` parameter; `None` means `toISOString` threw.
- The object URL made for a chosen file is a `string` parameter.

A submission returns the calls it made, in order, as a list of `Effect`s.

Files:
- `outcomes.dfy`: `Option` and `Call`.
- `seqs.dfy`: `Array.prototype.filter` and subsequences.
- `text.dfy`: `trim`, `split` and `join`.
- `tags.dfy`: the tag field.
- `categories.dfy`: the category list and `getCategoryStyle`.
- `records.dfy`: the `Event` and `HighlightCard` rows.
- `admin_panels.dfy`, `admin_forms.dfy` and `admin_gate.dfy`: the admin page.
- `eventos.dfy` and `highlights.dfy`: the public sections.

## Model

| member | source | states |
|---|---|---|
| Text.Trim | src/app/admin/page.tsx:721 | `t.trim()` gives a string no longer than its input, with no whitespace at either end |
| Text.LeadingSpaceFacts | src/app/admin/page.tsx:721 | the characters `trim` removes at the front are whitespace, and the next character is not |
| Text.TrailingSpaceFacts | src/app/admin/page.tsx:721 | the characters `trim` removes at the back are whitespace, and the one before them is not |
| Text.LeadingSpaceAt | src/app/admin/page.tsx:721 | any whitespace prefix followed by a non-whitespace character is exactly the run `trim` removes at the front |
| Text.TrailingSpaceAt | src/app/admin/page.tsx:721 | any whitespace suffix preceded by a non-whitespace character is exactly the run `trim` removes at the back |
| Text.TrimIsInfix | src/app/admin/page.tsx:721 | the trimmed text is a contiguous part of the input, and everything cut from either side is whitespace |
| Text.TrimSubset | src/app/admin/page.tsx:721 | trimming adds no character: a comma absent from a piece is absent from the trimmed piece |
| Text.TrimBlank | src/app/admin/page.tsx:721 | an all-whitespace string trims to the empty string |
| Text.TrimUnique | src/app/admin/page.tsx:721 | any cut of a string into a whitespace prefix, a trimmed middle and a whitespace suffix has that middle equal to `trim` |
| Text.TrimCut | src/app/admin/page.tsx:721 | a whitespace prefix and suffix around a trimmed middle give the trim's leading and trailing runs |
| Text.TrimIdempotent | src/app/admin/page.tsx:721 | trimming twice is trimming once |
| Text.TrimEmptyIff | src/app/admin/page.tsx:831 | `trim` gives the empty string exactly when the input is all whitespace (this is what the preview's `tagsInput.trim()` test decides) |
| Text.TrimPadded | src/app/admin/page.tsx:721 | whitespace put in front of a trimmed string is removed again by `trim` |
| Text.Split | src/app/admin/page.tsx:720 | `split(",")` gives at least one piece, and no piece contains the separator |
| Text.SplitLength | src/app/admin/page.tsx:720 | `split` gives one piece more than the input has separators |
| Text.SplitNone | src/app/admin/page.tsx:720 | a string without the separator splits into itself alone |
| Text.SplitAtSeparator | src/app/admin/page.tsx:720 | text up to the first separator is the first piece, and the rest splits on its own |
| Text.JoinSplit | src/app/admin/page.tsx:720 | joining the pieces of `split` with the separator gives back the input |
| Text.JoinSplitAtSeparator | src/app/admin/page.tsx:720 | the step of `JoinSplit` when the input starts with the separator |
| Text.JoinSplitAtOther | src/app/admin/page.tsx:720 | the step of `JoinSplit` when the input starts with another character |
| Text.Join | src/app/admin/page.tsx:676 | `tags.join(", ")` starts with the first tag; `JoinSplit` and `SplitJoin` tie it to `split` |
| Text.SplitJoin | src/app/admin/page.tsx:720 | splitting the join of separator-free pieces gives back the pieces |
| Seqs.Filter | src/app/admin/page.tsx:722 | `filter` keeps only elements that pass the test, taken from the input, never more of them |
| Seqs.FilterCounts | src/app/admin/page.tsx:722 | `filter` keeps every passing element exactly as often as it occurs, and drops every other one |
| Seqs.FilterIsSubsequence | src/app/admin/page.tsx:722 | `filter` keeps the input's order |
| Seqs.SubsequenceSkip | src/app/admin/page.tsx:722 | a subsequence stays one when an element is put in front of the larger sequence |
| Seqs.SubsequenceTail | src/app/admin/page.tsx:722 | a subsequence that starts with the larger sequence's head keeps its tail a subsequence of that tail |
| Seqs.FilterAllPass | src/app/admin/page.tsx:722 | when every element passes, `filter` returns the input |
| Seqs.FilterNonePass | src/app/admin/page.tsx:722 | when no element passes, `filter` returns the empty list |
| Seqs.FilterIdempotent | src/components/Eventos.tsx:106 | filtering twice with the same test is filtering once |
| Seqs.FilterCongruent | src/app/admin/page.tsx:836 | two tests that agree on every element filter alike |
| Seqs.FilterAppend | src/components/Eventos.tsx:106 | filtering a concatenation filters each part |
| Tags.TrimEach | src/app/admin/page.tsx:721 | `.map((t) => t.trim())` gives exactly one piece per piece; `TrimmedPiecesHaveNoComma` states that each is trimmed and comma-free |
| Tags.ParseTags | src/app/admin/page.tsx:719-722 | the submitted tags are all non-empty, and there are no more of them than comma-separated pieces |
| Tags.PreviewTags | src/app/admin/page.tsx:831-836 | the preview chips are all non-empty, and there are none when the trimmed field is empty |
| Tags.ParsedTagsAreTags | src/app/admin/page.tsx:719-722 | every submitted tag is non-empty, comma-free and trimmed, and there are at most commas-plus-one tags |
| Tags.TrimmedPiecesHaveNoComma | src/app/admin/page.tsx:719-721 | the trimmed pieces of a split carry no comma and no surrounding whitespace |
| Tags.PreviewMatchesSubmitted | src/app/admin/page.tsx:831-836 | the chips shown under the field (shown only when the trimmed input is non-empty, truthy pieces kept) are exactly the tags that a submit sends |
| Tags.ParseTagsOrder | src/app/admin/page.tsx:719-722 | the submitted tags are the non-blank trimmed pieces in input order, each as often as it occurs |
| Tags.BlankInputNoTags | src/app/admin/page.tsx:719-722 | a blank tag field submits no tags |
| Tags.Padded | src/app/admin/page.tsx:676 | the tags after the first appear behind one space once `", "` is split on its comma |
| Tags.SplitPadded | src/app/admin/page.tsx:676 | a space followed by tags joined with `", "` splits into each tag behind its space |
| Tags.JoinCons | src/app/admin/page.tsx:676 | tags joined with `", "` are the first tag, a comma, a space, then the rest joined the same way |
| Tags.SplitAfterComma | src/app/admin/page.tsx:720 | text before the first comma is the first piece |
| Tags.PaddedAt | src/app/admin/page.tsx:676 | the k-th padded tag is the k-th tag behind a space |
| Tags.TrimPaddedTag | src/app/admin/page.tsx:721 | a tag behind a space trims back to the tag |
| Tags.SplitDisplayed | src/app/admin/page.tsx:676 | the displayed `tags.join(", ")` splits on the comma into the first tag and the others each behind a space |
| Tags.JoinHead | src/app/admin/page.tsx:676 | the displayed text is the first tag, a comma, then a space and the rest |
| Tags.TrimDisplayedPiece | src/app/admin/page.tsx:676 | each piece of the displayed text trims back to its tag |
| Tags.TrimmedPiecesOfDisplayed | src/app/admin/page.tsx:676 | the trimmed pieces of the displayed text are the tags |
| Tags.ParseDisplayedNoTags | src/app/admin/page.tsx:676 | no tags display as the empty string, which parses to no tags |
| Tags.ParseDisplayedTags | src/app/admin/page.tsx:676 | typing back the tags as the event list displays them (`tags.join(", ")`) gives the same tags |
| Tags.ParseExample | src/app/admin/page.tsx:719-722 | `"senderismo, naturaleza"` gives the tags `senderismo` and `naturaleza` |
| Categories.FindIndex | src/app/admin/page.tsx:28 | `find` returns the first entry with the value, and nothing only when no entry has it |
| Categories.GetCategoryStyle | src/app/admin/page.tsx:27-29 | the style of a known category is its own entry, and any other string gets the first entry; every string gets an entry of the list |
| Categories.EntriesDistinct | src/components/Eventos.tsx:7-12 | the four category values are distinct, and the fallback entry is "ecoturismo", the form's default |
| Categories.UnknownCategoryFallsBack | src/components/Eventos.tsx:14-16 | an unknown or empty category is shown as "Ecoturismo" |
| AdminPanels.WithoutCard | src/app/admin/page.tsx:380 | removing a card by id leaves no card with that id and keeps every other card as often as it occurred |
| AdminPanels.WithoutEvent | src/app/admin/page.tsx:895 | removing an event by id leaves no event with that id and keeps every other event as often as it occurred |
| AdminPanels.WithoutCardFacts | src/app/admin/page.tsx:380 | the cards that remain keep their order; deleting twice is deleting once; deleting an absent id changes nothing |
| AdminPanels.WithoutEventFacts | src/app/admin/page.tsx:895 | the same three facts for the event list |
| AdminPanels.CardsPanel.constructor | src/app/admin/page.tsx:364-366 | the panel starts on "raices", with an empty list, loading |
| AdminPanels.CardsPanel.SelectSection | src/app/admin/page.tsx:368-377 | a tab click selects that section; the list is fetched again, for that section, exactly when the section changed |
| AdminPanels.CardsPanel.FetchCards | src/app/admin/page.tsx:368-373 | the store is asked for the active section; the list becomes what it returned and loading ends; a throwing call leaves the old list and loading on |
| AdminPanels.CardsPanel.HandleDelete | src/app/admin/page.tsx:379-381 | the panel's list loses the cards with that id |
| AdminPanels.CardListItem.constructor | src/app/admin/page.tsx:323 | an item starts not deleting |
| AdminPanels.CardListItem.HandleDelete | src/app/admin/page.tsx:325-337 | the store is called only after confirmation; the card leaves the panel's list only when the store reports success; the flag is reset unless the call threw |
| AdminPanels.EventsPanel.constructor | src/app/admin/page.tsx:880-881 | the panel starts with an empty list, loading |
| AdminPanels.EventsPanel.FetchEvents | src/app/admin/page.tsx:883-888 | the list becomes what the store returned and loading ends; a throwing call leaves the old list and loading on |
| AdminPanels.EventsPanel.HandleDelete | src/app/admin/page.tsx:894-896 | the panel's list loses the events with that id |
| AdminPanels.EventListItem.constructor | src/app/admin/page.tsx:626 | an item starts not deleting |
| AdminPanels.EventListItem.HandleDelete | src/app/admin/page.tsx:635-646 | the store is called only after confirmation; the event leaves the panel's list only when the store reports success; the flag is reset unless the call threw |
| AdminForms.Uploaded | src/app/admin/page.tsx:227 | `!imageUrl`: an upload counts as done only when it returned a non-null, non-empty URL (also line 712) |
| AdminForms.SubmitCard | src/app/admin/page.tsx:215-258 | without an image nothing is sent and an error is shown; the upload comes first and is the only upload; the insert only follows a non-empty URL and carries it; the reload is the third and last call; the form is cleared and the list reloaded exactly when the insert returns a row; any failure keeps the typed fields and shows an error; the form is never left saving |
| AdminForms.AddCardForm.constructor | src/app/admin/page.tsx:203-208 | the form starts empty, not saving, without error |
| AdminForms.AddCardForm.SelectFile | src/app/admin/page.tsx:210-213 | choosing a file stores it and its preview URL |
| AdminForms.AddCardForm.HandleSubmit | src/app/admin/page.tsx:215-258 | the handler's new state and calls are those of `SubmitCard` |
| AdminForms.AddCardForm.Fail | src/app/admin/page.tsx:253-256 | a failure sets the error and ends saving, leaving the typed fields |
| AdminForms.EventDraftFor | src/app/admin/page.tsx:719-731 | the inserted event carries the typed title, description and category, the converted date, the parsed tags, and the uploaded URL exactly when a file was chosen |
| AdminForms.SubmitEvent | src/app/admin/page.tsx:702-753 | nothing is uploaded without a file; with one the upload comes first and is the only upload; the call list is the upload, the insert and the reload, each present exactly when its step is reached; the insert happens exactly when the image step passed and the date converted, and carries `EventDraftFor`; every field resets, category to "ecoturismo", and the list reloads exactly when the insert returns a row; any failure keeps the typed fields and shows an error; never left saving |
| AdminForms.AddEventForm.constructor | src/app/admin/page.tsx:687-695 | the form starts empty with category "ecoturismo" |
| AdminForms.AddEventForm.SelectFile | src/app/admin/page.tsx:697-700 | choosing a file stores it and its preview URL |
| AdminForms.AddEventForm.HandleSubmit | src/app/admin/page.tsx:702-753 | the handler's new state and calls are those of `SubmitEvent` |
| AdminForms.AddEventForm.Fail | src/app/admin/page.tsx:748-751 | a failure sets the error and ends saving, leaving the typed fields |
| AdminForms.AddEventForm.Reset | src/app/admin/page.tsx:739-746 | a successful submission puts every field back to its initial value |
| AdminGate.RefusalMessage | src/app/admin/page.tsx:54 | a refusal always shows a message: the server's when non-empty, otherwise "Error de autenticación." |
| AdminGate.Step | src/app/admin/page.tsx:37-61 | the flag goes up exactly on an accepted password or on a mount that finds the stored entry, and never goes down; only an accepted password writes the entry; after a submission loading is off and the error is empty exactly when accepted; the flag is never up without the entry |
| AdminGate.RunNeverLogsOut | src/app/admin/page.tsx:1033-1047 | no sequence of mounts and submissions lowers the flag |
| AdminGate.RunConsistent | src/app/admin/page.tsx:1036-1040 | the flag is never up without the stored entry, whatever happens |
| AdminGate.OnlyAcceptedOpens | src/app/admin/page.tsx:37-61 | without the stored entry, the page opens only if some password was accepted |
| AdminGate.ReloadKeepsSession | src/app/admin/page.tsx:1036-1040 | after a login, reloading the tab and mounting opens the page again |
| AdminGate.AdminPage.constructor | src/app/admin/page.tsx:1034 | the page opens with the flag down and the tab's stored entry |
| AdminGate.AdminPage.Mount | src/app/admin/page.tsx:1036-1040 | the mount effect is a `Mount` step |
| AdminGate.AdminPage.SubmitPassword | src/app/admin/page.tsx:37-61 | the login handler is a `Submit` step |
| AdminGate.AdminPage.Render | src/app/admin/page.tsx:1042-1046 | the dashboard is shown exactly when the flag is up |
| Eventos.ShownEvents | src/components/Eventos.tsx:91-103 | the section never shows an empty list: the fetched events when there are any, the fallback set when there are none or the call threw |
| Eventos.FilterEvents | src/components/Eventos.tsx:105-107 | no filter (or an empty one) shows every event; a filter shows only events of that category taken from the list |
| Eventos.FilterEventsFacts | src/components/Eventos.tsx:105-107 | the filtered events keep list order, each event of the category appears as often as in the list and no other appears, and filtering again changes nothing |
| Eventos.EventosView.FilteredEvents | src/components/Eventos.tsx:105-107 | with no filter every event is shown; with a filter only events of that category from the list |
| Eventos.Toggle | src/components/Eventos.tsx:149-152 | clicking the active category clears the filter; any other click selects that category |
| Eventos.ToggleFacts | src/components/Eventos.tsx:149-152 | two clicks on a category from "Todos" come back to "Todos"; a click on another category moves there directly |
| Eventos.FallbackEventsShape | src/components/Eventos.tsx:19-60 | the fallback set has four events with distinct ids, each of a known category |
| Eventos.FallbackOnePerCategory | src/components/Eventos.tsx:7-60 | every category button shows exactly one fallback event |
| Eventos.FilterFour | src/components/Eventos.tsx:106 | how many of four events a filter keeps |
| Eventos.CategoryNotEmpty | src/components/Eventos.tsx:7-12 | every category value is non-empty, so a category filter is truthy |
| Eventos.EventosView.constructor | src/components/Eventos.tsx:87-89 | the section starts with no events, loading, no filter |
| Eventos.EventosView.FetchEvents | src/components/Eventos.tsx:91-103 | after the fetch the list is `ShownEvents` of its outcome and loading is over |
| Eventos.EventosView.ClickAll | src/components/Eventos.tsx:138 | "Todos" clears the filter and every event is shown |
| Eventos.EventosView.ClickCategory | src/components/Eventos.tsx:146-152 | a category click toggles the filter, and the shown events are all, or those of that category |
| Highlights.Pick | src/components/Highlights.tsx:176-177 | a section shows its fetched cards when there are any, otherwise its own fallback cards; never nothing |
| Highlights.ShownSections | src/components/Highlights.tsx:169-185 | when both fetches return each section picks on its own; when either throws both sections show their fallbacks; neither is ever empty |
| Highlights.SectionsIndependent | src/components/Highlights.tsx:176-177 | what one section fetched does not affect the other, when neither call threw |
| Highlights.ShownCardsOrigin | src/components/Highlights.tsx:169-185 | every shown list is either what was fetched for that section or its own fallback |
| Highlights.FallbackShape | src/components/Highlights.tsx:8-72 | each fallback set has three cards of its own section in display order 1, 2, 3, and the six ids are distinct |
| Highlights.WellFormedSorted | src/components/Highlights.tsx:8-72 | a fallback set is sorted by display order |
| Highlights.HighlightsView.constructor | src/components/Highlights.tsx:164-166 | the section starts with empty lists, loading |
| Highlights.HighlightsView.FetchCards | src/components/Highlights.tsx:168-188 | after the fetch the two lists are `ShownSections` of the outcomes and loading is over |

## Left out

- Rendering, styling and the colour classes of the categories: the model keeps only what is shown (lists, labels, flags, messages).
- The data layer in `src/lib/supabase.ts`: only its row types are modelled. Every store call is a parameter, which also covers a call that throws.
- The password check itself: it runs on the server behind `/api/admin/auth`. Its reply is a parameter (`AdminGate.Reply`). The password text is not modelled.
- `sessionStorage` is modelled as one field holding the "admin_auth" entry of the tab.
- `new Date(date).toISOString()`, `URL.createObjectURL` and `confirm` are parameters.
- Date display (`toLocaleDateString`, `formatDate`) and the calendar widget of the public section are not modelled.
- Input setters that only copy a typed value into state are not modelled. The browser's `required` validation on the form fields is not modelled either: a submission is taken with whatever the fields hold.
- Asynchrony: each handler runs to completion as one step. Interleavings of two handlers, unmounted components and React's batching of state updates are not modelled.
- The admin dashboard's tab switch is not modelled. It mounts one panel or the other; each panel is modelled on its own.
- Text.Trim: strings are sequences of `char`, while JavaScript strings are UTF-16 code units. The whitespace set is the ECMAScript one, but a character outside the Basic Multilingual Plane is one `char` here and two code units there. This never changes what `trim` or `split(",")` return.
- AdminPanels.CardListItem.HandleDelete: a rejected store call leaves `deleting` set and the list unchanged, as the handler has no `catch`. The unhandled rejection itself is not modelled. The same holds for AdminPanels.EventListItem.HandleDelete.
- AdminPanels.CardsPanel.FetchCards: a rejected store call leaves the old list and `loading` on, as the callback has no `catch`. The same holds for AdminPanels.EventsPanel.FetchEvents.
