# Booking counter: the reconciliation pass of the content script

The browser extension's content script receives the gym's schedule payload (a list of workout
records, each with an id, a booking count `numBooked`, start and end timestamps
`"YYYY-MM-DD HH:MM:SS"` and a workout-type name). It writes each class's booking count into the
page it runs on, in one pass (`findAndUpdateWorkouts`) that tries three things in turn:

- **Strategy A.** It resolves a workout id for every candidate element. The id comes from a
  `data-workout-id` or `data-id` attribute, or else from the first `workout/<digits>` in the
  element's workout links. Every element whose id the record index knows gets its booking
  display, `Booked: <numBooked>`. This is a create-or-update: the element's first
  `.booking-count` descendant gets the caption as its text, or else a new `.booking-count` element
  is appended as its last child. `foundMatches` counts these elements.
- **Strategy B.** It runs only when Strategy A matched nothing. Inside every calendar container
  that holds a date element and at least one time element, each name element next to a time
  element is annotated with the count of the first record whose workout-type name occurs in the
  element's text. A time element without a parent aborts the pass.
- **The floating panel.** It is requested when Strategy A matched nothing and the pass did not
  abort. It is built once from the records: sorted by start time, grouped into one section per
  date, one coloured row per record. After that it is only shown again. Its close button hides it.

The model represents the page as a table of element nodes (`Dom`):
- A node's children have larger indices than the node itself.
- Document order is preorder.
- `textContent` is the concatenation of the texts in that order.

Each step of the source appears twice:
- as a function on the table (`Matching`, `BookingPanel`);
- as the loop the script runs, in the classes `Page` and `Script` (`ContentScript`), proved equal
  to that function.

`Rerun` proves what re-running the pass gives, on a page whose `.booking-count` elements are all
annotations as the script creates them:
- the pass never aborts;
- `foundMatches` counts the known candidates;
- a second pass adds no element.

An element is *settled* when a pass has nothing left to add for it. A candidate is settled when
its id is unknown to the index or it already has a `.booking-count` descendant. A name element is
settled when no record's name occurs in its text or it already has a `.booking-count` descendant.

`Growth` states how a pass may change the page.

## Model

| member | source | states |
|---|---|---|
| Dom.QueryAll | content.js:63 | `element.querySelectorAll`: the element's descendants that match the selector, in document order |
| Dom.DocumentQueryAll | content.js:47-49 | `document.querySelectorAll`: every matching element of the page, in document order |
| Dom.TextContent | content.js:122 | `textContent`: the texts of the element and its descendants, in document order |
| Dom.SetText | content.js:90 | setting `textContent`: the node's text becomes the caption and its children are detached; the table keeps its size |
| Dom.AppendChild | content.js:86 | `appendChild` of a new childless element: it becomes the parent's last child, at the end of the table |
| Dom.Annotate | content.js:79-90 | the create-or-update: the first `.booking-count` descendant is rewritten, or else a new annotation is appended |
| Matching.AttributeId | content.js:55-58 | the id from the three attribute alternatives, the empty string standing for every falsy outcome |
| Matching.LinkId | content.js:63-71 | the id in the first link, in document order, whose href yields one |
| Matching.ResolveId | content.js:55-72 | the element's workout id: its attribute id, else the id from its workout links |
| Matching.MatchedA | content.js:75 | the element's id resolves and the index has an entry for it |
| Matching.StepA | content.js:75-93 | one candidate: a known one gets the `Booked:` create-or-update with its record's count, an unknown one leaves the page as it is |
| Matching.RunA | content.js:51-94 | Strategy A over the candidates in document order: the page afterwards and `foundMatches` |
| Matching.Candidates | content.js:47-49 | the candidate elements `.workout-item, .class-item, [data-workout-id]` in document order |
| Matching.BookedCaption | content.js:90 | Strategy A's caption: the badge, ` Booked: ` and the count in decimal |
| Matching.CountCaption | content.js:135 | Strategy B's caption: the badge, a space and the count in decimal |
| Matching.FirstNameMatch | content.js:120-137 | the first record, in collection order, whose workout-type name occurs in the text |
| Matching.StepB | content.js:118-138 | one name element: with a matching record, the `span` create-or-update with that record's count; otherwise no change |
| Matching.NamesB | content.js:118-139 | the name elements next to one time element, in order |
| Matching.TimesB | content.js:112-140 | a container's time elements in order; a time element without a parent aborts |
| Matching.ContainerB | content.js:106-141 | one container, visited only when it holds a date element and at least one time element |
| Matching.RunB | content.js:104-142 | Strategy B over the containers in order, stopping at the first abort |
| Matching.Containers | content.js:100-102 | the containers `.calendar-item, .schedule-item, .day-item` in document order |
| Workouts.DateKey | content.js:202 | a record's date key: the start time up to its first space |
| Workouts.IndexById | content.js:37-40 | the index as the loop builds it, record by record, a later record replacing an earlier one with the same id |
| Workouts.LevelOf | content.js:241-247 | the booking level: full from 10, moderate from 5, open below |
| Workouts.Colour | content.js:242-246 | the colour of each level: red, orange, green |
| BookingPanel.RowOf | content.js:222-247 | one row: the record's name, its start and end through `formatTime`, its count caption and its level's colour |
| BookingPanel.Rows | content.js:222-250 | one row per record, in order |
| BookingPanel.Sections | content.js:210-251 | one section per date key, in key order, each holding the rows of that date's records |
| BookingPanel.PanelContent | content.js:194-251 | the panel's content: the sections of the grouped, sorted copy of the records |
| ContentScript.Script.constructor | content.js:4 | the script starts with no payload |
| ContentScript.Script.ReceiveData | content.js:18-20 | the new payload replaces the previous one wholesale; the delayed pass is scheduled exactly when the payload has a `workouts` field |
| ContentScript.Script.DisplayBookingNumbers | content.js:26-32 | the guard: the pass is scheduled if and only if there is a payload and it carries `workouts` |
| ContentScript.Script.OnTimer | content.js:35-149 | without records the pass throws before changing anything, and the panel keeps its visibility; with records the page afterwards is the one the pass specification gives, and the panel is created or shown again exactly when Strategy A matched nothing and the pass did not abort, and otherwise left alone |
| Workouts.BuildIndex | content.js:37-40 | the loop builds exactly the index of the records, and an id has an entry if and only if some record carries it |
| Workouts.IndexIsLastWins | content.js:37-40 | an id is in the index if and only if a record carries it, and its entry is the last record carrying it |
| Matching.CaptionsCarryCount | content.js:89-90 | the booking count can be read back from the digits after the prefix of the `Booked:` caption and of Strategy B's caption (line 135) |
| Text.ParseNatToString | content.js:90 | the decimal rendering of a count reads back as that count |
| Matching.ExtractWorkoutId | content.js:66-67 | an id taken from a link is a non-empty run of digits |
| Matching.ScanFromSpec | content.js:66 | scanning from a position finds the leftmost `workout/` followed by a digit at or after it, and nothing when there is none |
| Matching.ExtractWorkoutIdSpec | content.js:66-68 | a link yields an id if and only if some `workout/` in it is followed by a digit; the id is the whole digit run after the leftmost such `workout/` |
| Matching.AttributeIdPriority | content.js:55-58 | a non-empty `data-workout-id` wins, otherwise `data-id` is used; the third alternative never adds anything |
| Matching.LinkIdSpec | content.js:63-71 | the links give no id if and only if no link's href yields one; otherwise the id is that of the first link that yields one |
| Matching.ResolveIdSpec | content.js:55-72 | an attribute id always wins; an element has no id if and only if it has no attribute id and none of its workout links yields one; an id is never empty |
| ContentScript.Page.ResolveWorkoutId | content.js:55-72 | the loop over the links returns the id the resolution specification gives |
| Dom.QueryFirst | content.js:79 | `querySelector` finds nothing if and only if `querySelectorAll` finds nothing; otherwise it returns the first matching descendant in document order: it is listed by `querySelectorAll` and no descendant before it matches |
| Dom.AnnotateCreatesOrUpdates | content.js:79-87 | the whole new table: with a `.booking-count` descendant, the first one gets the caption as its text and its children are detached, while its tag, classes and attributes and every other node stay as they were; without one, a new annotation is appended as the element's last child and nothing else changes |
| Dom.AnnotateIdempotent | content.js:79-87 | after a create-or-update the element has an annotation, so a second create-or-update adds no node |
| Dom.AnnotateShowsLabel | content.js:79-90 | on any page, after a create-or-update the element's first `.booking-count` descendant shows the caption |
| ContentScript.CreateThenWrite | content.js:80-90 | creating an empty annotation and then setting its text gives the annotation created with that text |
| ContentScript.Page.AnnotateElement | content.js:79-90 | the method performs exactly the create-or-update on the page |
| ContentScript.Page.HandleCandidate | content.js:55-93 | one candidate: a hit exactly when its id is in the index, and the page changes as one Strategy A step |
| ContentScript.Page.RunStrategyA | content.js:51-94 | the loop leaves the page and `foundMatches` as Strategy A's specification gives them |
| Rerun.StepAShowsCount | content.js:75-92 | a candidate whose id the index knows ends its step with an annotation showing that record's `Booked:` count |
| Rerun.StepAKeepsOther | content.js:75-90 | a candidate step changes no element other than the matched candidate and the `.booking-count` element it rewrites; other annotations, including other candidates' ones, stay as they were |
| Rerun.RunAKeepsUnmatched | content.js:53-94 | on a page whose `.booking-count` elements are plain annotations, an element that is not a `.booking-count` element and whose id the index does not know comes out of Strategy A unchanged |
| Rerun.RunAFacts | content.js:51-94 | `foundMatches` is the number of candidates whose id the index knows; every candidate is settled afterwards; no element is added when all were settled already |
| Rerun.ResolveStable | content.js:55-72 | growing the page the way a pass does never changes the id an existing element resolves to |
| Matching.FirstNameMatchSpec | content.js:120-137 | no record matches if and only if no workout-type name occurs in the text; otherwise the match is the first record in collection order whose name occurs |
| ContentScript.FirstMatchingWorkout | content.js:120-138 | the `for … of` loop with `break` returns the first matching record |
| ContentScript.Page.HandleName | content.js:118-138 | one name element changes the page as one Strategy B step |
| ContentScript.Page.AnnotateNames | content.js:118-139 | the loop over the name elements next to one time element is the specification's step sequence |
| ContentScript.Page.VisitTimes | content.js:112-140 | the loop over a container's time elements gives the specification's page and abort flag |
| ContentScript.Page.RunStrategyB | content.js:100-142 | the loop over the containers gives the specification's page and abort flag |
| Rerun.StepBShowsFirstMatch | content.js:120-136 | a name element whose text holds some record's name ends with an annotation showing the count of the first such record |
| Dom.ParentOf | content.js:114 | `parentElement` is the element whose children list holds the node; there is none exactly when no element holds it |
| Rerun.TimesHaveParents | content.js:107-114 | time elements are found below their container, so each one has a parent |
| Rerun.ContainerBFacts | content.js:106-141 | one container never aborts, grows the page and leaves every name element it visits settled |
| Rerun.RunBFacts | content.js:97-143 | Strategy B never aborts on such a page; every visited name element is settled afterwards; no element is added when all were settled already |
| Matching.Pass | content.js:35-149 | a pass that aborts has counted no match |
| ContentScript.Page.FindAndUpdateWorkouts | content.js:35-149 | the pass leaves the page, `foundMatches` and the abort flag as specified; the panel is created once and afterwards only shown again, exactly when Strategy A matched nothing and the pass did not abort; otherwise the panel is left alone |
| Rerun.PassFacts | content.js:35-149 | on a page whose `.booking-count` elements are plain annotations, the pass never aborts, counts the known candidates, and leaves such a page |
| Rerun.PanelExactlyWhenNoMatch | content.js:145-148 | the panel is requested if and only if no candidate resolves to a known id |
| Rerun.ViewStable | content.js:47-116 | on a grown page the pass sees the same candidates, containers, name elements and matches |
| Rerun.PassSettles | content.js:35-149 | after a pass every candidate is settled, and so is every name element Strategy B visited |
| Rerun.PassOnSettledPage | content.js:35-149 | a pass over a page where everything it would touch is settled adds no element |
| Rerun.PassTwiceAddsNothing | content.js:35-149 | running the pass twice with the same records: neither run aborts, the second adds no element and counts the same `foundMatches` |
| Growth.AnnotateGrows | content.js:79-90 | on an element that is not itself an annotation, a create-or-update keeps every node's tag, classes and attributes, rewrites only annotation texts, only appends children, and keeps every annotation plain |
| ContentScript.Page.CreateFloatingBookingPanel | content.js:152-256 | without a panel a fresh visible one is built with the content of the records; with one, that same panel is shown again and nothing else changes |
| BookingPanel.Panel.constructor | content.js:153-180 | a new panel is visible, carries the id `booking-info-panel` and the title `Class Booking Counts`, and holds the given sections |
| BookingPanel.Panel.Close | content.js:189-191 | the close button hides the panel |
| BookingPanel.Panel.Show | content.js:252-255 | an existing panel is shown again |
| Workouts.SortByStart | content.js:195-197 | the sorted copy is a permutation of the records |
| Workouts.SortIsSorted | content.js:195-197 | the sorted copy is ascending by start time, compared as strings |
| Workouts.SortIsStable | content.js:195-197 | records with the same start time keep their original relative order |
| Workouts.GroupByDate | content.js:200-207 | the push loop gives the keys in order of first appearance, one entry per key, and each entry holds exactly that date's records in order |
| Workouts.DatesAreDistinct | content.js:200-210 | the section keys have no repeats and are exactly the dates some record starts on |
| Workouts.GroupMembership | content.js:200-207 | a record lands in a date's group if and only if it starts on that date |
| Workouts.UnseenDateHasNoGroup | content.js:203-206 | a date that has not occurred has an empty group |
| Workouts.SortedIsDateContiguous | content.js:195-207 | in the sorted copy the records of one date are next to each other |
| Workouts.GroupsConcatenate | content.js:200-210 | concatenating the groups in key order gives back the sorted copy |
| BookingPanel.RenderRows | content.js:222-250 | the inner loop renders one row per record of the group, in order |
| BookingPanel.BuildSections | content.js:194-251 | sorting, grouping and rendering give exactly the panel content the records specify |
| BookingPanel.PanelListsSortedRecords | content.js:194-251 | read top to bottom, the panel lists one row per record, in the order of the stable sort by start time |
| BookingPanel.PanelSectionsAreDates | content.js:199-216 | there is one section per date some record starts on, and no date appears twice |
| BookingPanel.SortKeepsDates | content.js:195-202 | sorting keeps the set of dates |
| BookingPanel.RowShowsRecord | content.js:229-247 | a row shows the record's name, its start and end as `HH:MM`, and its count; the colour is red if and only if at least 10 are booked, orange if and only if 5 to 9, green if and only if fewer than 5 |
| BookingPanel.WellFormedDisplayable | content.js:232 | `formatTime` can format both timestamps of a well-formed record |
| BookingPanel.SingleRecordPanel | content.js:194-251 | a single record gives one section, its date, holding its one row |
| BookingPanel.CrossFitExample | content.js:194-251 | one CrossFit class on 1 May 2024, 09:00 to 10:00, booked by 12: one section `2024-05-01` holding one row, 09:00 to 10:00, in red |
| Workouts.LevelBands | content.js:241-247 | the thresholds 10 and 5, both directions of each band |
| Workouts.LevelMonotone | content.js:241-247 | more bookings never give a calmer colour |
| Workouts.FormatTime | content.js:269-272 | `formatTime` fails exactly when the timestamp contains no space |
| Workouts.TimestampFields | content.js:269-272 | on a well-formed timestamp the date key is `YYYY-MM-DD` (line 202) and the displayed time is `HH:MM` |

## Left out

- background.js is not part of this model. Neither is the message listener that forwards the
  intercepted URL (content.js:7-12). Both are browser messaging.
- `fetch`, `response.json()` and the error handler (content.js:15-23) are network and JSON
  decoding. The model takes the decoded payload as the parameter of `ReceiveData`.
- `setTimeout`, `setInterval`, the `MutationObserver` and the `load` listeners (content.js:31,
  275-294) are timers and events. `OnTimer` is the pass they schedule. The model does not
  capture how many times the pass runs, or when.
- `formatDate` (content.js:259-266) depends on locale-dependent date formatting. Each section
  is identified by its date key instead.
- Workouts.SortByStart: the sort compares start times as strings, where the comparator at
  content.js:196 compares `new Date(...)` values. The two orders agree only on timestamps that
  name a real local time. `WellFormedTimestamp` checks only where the digits and separators
  are, so it admits times such as `2024-13-40 25:61:00`. `new Date` reads those as Invalid Date
  and the comparator returns NaN. `new Date` also shifts a local time that falls in a
  daylight-saving gap. The model does not capture the browser's order for such records.
- Inline styles, `innerHTML` markup and the header's title and button nodes (content.js:83-85,
  157-188, 230-233) are presentation. A row keeps its name, times, caption and colour.
- The panel lives outside the element table. So a page element that already carries the id
  `booking-info-panel` is not found by `getElementById`.
- ContentScript.Page.FindAndUpdateWorkouts: when it builds a new panel, it requires every
  record's timestamps to contain a space. In the source such a record makes `formatTime` throw
  partway through building the panel, after the empty panel was attached.
- ContentScript.Page.CreateFloatingBookingPanel: the same precondition, for the same reason.
- ContentScript.Script.OnTimer: the same precondition, for the same reason.
- A record id is its property-key string. JavaScript's object quirks are not modelled:
  - inherited keys such as `"toString"` look up as truthy in `workoutsById`, and likewise as
    a date key in `workoutsByDate`, where the following `.push` then throws;
  - `Object.keys` lists integer-like keys first, in ascending numeric order, whereas the model
    keeps the dates in order of first appearance. The two agree on well-formed timestamps, whose
    date keys contain `-`. A start time such as `20240501 09:00:00` gives the integer-like key
    `20240501`, and then the panel's section order can differ from the model's.
- A truthy `workouts` that is not an array is not modelled. The payload's records are a list or
  absent.
- Text nodes interleaved with elements are folded into the text of their element. So
  `textContent` is each element's own text followed by its children's text.
- Counts are written by `NatToString` as plain decimal digits. JavaScript writes a number of
  at least 10^21 in exponent form, and it cannot hold counts above 2^53 exactly. Neither is
  modelled.
- The caption prefix is kept exactly as the source's literals hold it: the four characters the
  UTF-8 encoding of the busts-in-silhouette emoji becomes when it is read back as Windows-1252.
- Rerun.PassTwiceAddsNothing: idempotence is proved only for pages whose `.booking-count`
  elements are all annotations as the script creates them. This holds for a page with none, and
  every pass preserves it. Overwriting the text of a page's own `.booking-count` element that
  holds other elements detaches them, so without this assumption a second pass can differ.
- Strategy B checks the container's date element and its time elements only for presence, as
  the source does. Records are matched by name alone, not by date or time.
