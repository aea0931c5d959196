# Portfolio page interactivity, modelled in Dafny

This project models the stateful parts of the script behind a single
portfolio web page (`main.js`).

- **The timeline year filter.** The page has year markers and timeline
  items, each tagged with a year. Exactly the markers and items of the
  selected year carry `active`. "Previous" and "next" controls step through
  the marker years in document order, with wrap-around.
- **The section switcher.** A click on a navigation button starts a switch.
  The begin phase marks the card as loading and clears every active mark.
  Then a 200 ms timer runs the completion, which activates the target
  section and button.
- **The toast notification.** A severity picks exactly one icon glyph. Two
  features report through the toast: the skill tags (`name — level%`) and
  the contact copy buttons (success or failure of the clipboard write; no
  report at all when the page has no clipboard API).

The DOM is abstracted as document-ordered sequences:

- one key per element: the marker's `data-year`, the item's optional
  `data-year`, the section's selector, the button's optional `data-section`;
- one boolean per element and per class mark, held in an `array<bool>` that
  the widget's methods update in place.

Timers are modelled as separate methods that the caller runs later:
`SectionSwitcher.Complete` for the 200 ms switch completion and
`NotificationCenter.Hide` for the hide timer. This means interleavings can
be stated as sequences of calls. The section switcher also has pure
specification functions (`BeginView`, `Completed`) on a value `CardView`.
Its methods are proved equal to these functions, and the lemmas about
interleavings are stated over the functions.

Modules: `Wrappers` (Option), `ClassFlags` (lists of element keys and
marks, `indexOf`, counting marks), `Timeline`, `Sections`, `Notifications`.

The model follows the code in these points, where the page's behaviour is
easy to misread:

- **The section switcher's lookups.** The code looks up the target section
  and button in the begin phase. It schedules the completion only when both
  exist. So a switch to a missing target never clears `data-loading` or the
  `switching` class itself; a completion still pending from an earlier
  switch can, when it fires.
- **What `data-state` records.** It records the selector exactly as the
  button names it (for example `#experience`).
- **The notification timer.** The code never cancels an earlier hide timer.
  So any pending timer hides whatever notification is showing when it
  fires.
- **Empty attributes.** An empty `data-skill` falls back to the em dash, as
  an absent one does. An empty `data-year` on an item, or an empty
  `data-section` on a button, makes a click do nothing. These follow
  JavaScript's falsy strings.

## Model

| member | source | states |
|---|---|---|
| `ClassFlags.IndexOf` | main.js:139-140 | the result is -1 exactly when the value is absent; otherwise it is the position of the first occurrence |
| `ClassFlags.Matches` | main.js:118-123 | toggling `active` by key: one mark per element, set exactly where the element's key equals the selected one |
| `ClassFlags.AllFalse` | main.js:62-66 | removing a class or attribute from every element of a list of `n`: `n` marks, all cleared |
| `ClassFlags.CountMatches` | main.js:118-123 | toggling a mark by key marks exactly as many elements as the key occurs |
| `ClassFlags.MatchesDistinct` | main.js:118-120 | over distinct keys, toggling by a present key marks exactly one element (at its `indexOf`); an absent key marks none |
| `Timeline.PrevIndex` | main.js:138-143 | the index chosen by "previous" always lies inside the marker list |
| `Timeline.NextIndex` | main.js:145-150 | the index chosen by "next" always lies inside the marker list |
| `Timeline.NextFrom` | main.js:145-150 | from the first occurrence at `i`, "next" goes to `i+1`, and from the last marker wraps to 0 |
| `Timeline.PrevFrom` | main.js:138-143 | from the first occurrence at `i`, "previous" goes to `i-1`, and from marker 0 wraps to the last |
| `Timeline.UnknownYearWraps` | main.js:138-150 | when the current year is on no marker (`indexOf` = -1), "next" picks the first year and "previous" the last |
| `Timeline.PrevNextRoundTrip` | main.js:138-150 | with distinct marker years, "previous" after "next" and "next" after "previous" both return to the original year |
| `Timeline.ThreeYearTour` | main.js:138-150 | with markers 2023/2024/2025, "next" walks 2024, 2025, 2023, and "previous" from 2023 gives 2025 |
| `Timeline.OneMarkerActive` | main.js:116-120 | on a page with distinct marker years, a widget showing a marker year has exactly one marker lit, the one carrying that year; showing an unknown year, none |
| `Timeline.ItemsActive` | main.js:121-123 | selecting a year lights exactly the items declaring it (as many as declare it), and never an item without `data-year` |
| `Timeline.DefaultYearMissing` | main.js:153 | if no marker carries the default year "2023", the initial selection lights no marker |
| `Timeline.TimelineFilter.constructor` | main.js:113-153 | with no markers nothing is wired and the markup's marks stay; otherwise the default year is selected |
| `Timeline.TimelineFilter.SetActiveYear` | main.js:116-124 | the current year becomes `year`; a marker's or item's `active` is true iff its `data-year` is `year`; list sizes unchanged |
| `Timeline.TimelineFilter.ClickMarker` | main.js:126-128 | clicking marker `i` selects `years[i]` |
| `Timeline.TimelineFilter.ClickItem` | main.js:131-136 | clicking an item selects its year; an item without a (non-empty) year, or a page without markers, changes nothing |
| `Timeline.TimelineFilter.Prev` | main.js:138-143 | selects `years[PrevIndex(years, old currentYear)]`; with no markers or no control, nothing changes |
| `Timeline.TimelineFilter.Next` | main.js:145-150 | selects `years[NextIndex(years, old currentYear)]`; with no markers or no control, nothing changes |
| `Sections.Lookup` | main.js:68-73 | a completion is scheduled iff a section answers to the selector and a button names it; the result holds the first such section and button |
| `Sections.BeginView` | main.js:56-66 | without a card nothing changes; otherwise loading is "true", switching is set, `data-state` is kept, and no section or button is active or current |
| `Sections.Completed` | main.js:74-84 | the target section and button become active and the button current; `data-state` is the target and loading is "false"; switching is cleared; every other mark is kept |
| `Sections.SwitchSettles` | main.js:56-87 | a switch not overtaken by another leaves exactly the target section and button active and current, with the card settled on the target |
| `Sections.MissingTargetStaysLoading` | main.js:73-87 | with a missing section or button, no completion is scheduled, no section is active, and the card stays loading and switching |
| `Sections.OvertakenSwitchKeepsBoth` | main.js:56-87 | two overlapping switches: the later completion decides `data-state`, but both targets stay active |
| `Sections.TwoQuickSwitchesExample` | main.js:56-87 | on the about/experience/contacts page, quick clicks on experience then contacts leave both of those sections active |
| `Sections.CompletedExclusive` | main.js:74-84 | intended completion: afterwards exactly the target section and button are active and current |
| `Sections.OvertakenSwitchSettlesOnLast` | main.js:74-84 | with the intended completion, two overlapping switches settle on the later target alone |
| `Sections.SectionSwitcher.constructor` | main.js:5-7 | the switcher holds the page's sections, buttons and card with the markup's marks, in freshly allocated mark lists |
| `Sections.SectionSwitcher.Begin` | main.js:56-73 | the page's marks become `BeginView` of the old marks, and the scheduled completion is `Lookup` of the selector (none without a card) |
| `Sections.SectionSwitcher.Complete` | main.js:74-84 | the page's marks become `Completed` of the marks found when the timer runs |
| `Sections.SectionSwitcher.ClickNav` | main.js:234-238 | a button with a non-empty `data-section` begins a switch to it; any other button changes nothing |
| `Notifications.IconGlyph` | main.js:32-36 | "success", "error" and "warning" each map to their own glyph; every other severity maps to `fa-info-circle` (both directions) |
| `Notifications.IconClasses` | main.js:32-36 | the icon is reset to `notification-icon fas` and then carries exactly one glyph, the severity's |
| `Notifications.GlyphsDistinct` | main.js:33-36 | the four known severities have four different glyphs |
| `Notifications.NotificationCenter.constructor` | main.js:8 | the surface is present or not as the page's `#notification` lookup found it, holds the markup's text and icon, and carries `show` exactly when the markup does |
| `Notifications.NotificationCenter.Show` | main.js:24-38 | with a surface, the text is the message, the icon is `IconClasses(severity)` and the toast is shown; without a surface nothing changes |
| `Notifications.NotificationCenter.Hide` | main.js:39 | the hide timer removes `show` |
| `Notifications.TrimStart` | main.js:163 | drops exactly the leading whitespace: the rest is a suffix that does not start with whitespace |
| `Notifications.TrimEnd` | main.js:163 | drops exactly the trailing whitespace: the rest is a prefix that does not end with whitespace |
| `Notifications.Trim` | main.js:163 | the result is a slice of the input with only whitespace before and after it, and it neither starts nor ends with whitespace |
| `Notifications.TrimIdempotent` | main.js:163 | trimming a trimmed name changes nothing |
| `Notifications.SkillLevel` | main.js:164 | the level is `data-skill` when it is non-empty, and "—" otherwise; it is never empty |
| `Notifications.SkillMessage` | main.js:163-165 | the message splits into the trimmed name, " — ", the level and a final "%" |
| `Notifications.ClickSkillTag` | main.js:161-166 | a tag click shows the skill message with the info glyph |
| `Notifications.CopyReport` | main.js:176-182 | no report when `data-text` is absent or empty, or when there is no clipboard API (the call throws before any promise exists); otherwise success iff the write resolved, error iff it rejected |
| `Notifications.ClickCopy` | main.js:174-183 | a copy click shows its report, if there is one, and changes nothing else |

## Findings

| source | as written | input that shows it | evidently intended | confidence | as-written member | corrected member |
|---|---|---|---|---|---|---|
| main.js:74-84 | the delayed completion only adds `is-active` and `aria-current` to its target, and nothing clears a target activated by an earlier completion | click "experience" then "contacts" within 200 ms on the about/experience/contacts page: both sections end up active | one section (the last requested) active once the page settles | high; not executed | `Sections.TwoQuickSwitchesExample` | `Sections.CompletedExclusive` |

`Sections.OvertakenSwitchKeepsBoth` states the as-written behaviour for all
inputs. `Sections.OvertakenSwitchSettlesOnLast` proves that the corrected
completion settles on the later target alone. `SectionSwitcher.Complete`
keeps the as-written completion, so the class models the page as it
behaves.

## Left out

- Particle parallax (main.js:93-108): floating-point arithmetic on pointer coordinates, used only for decoration.
- Counter and progress-bar animation (main.js:190-220): interval timers with a floating step and `Math.floor`.
- Theme initialisation (main.js:18, main.js:45-48): only `localStorage` and attribute I/O.
- The welcome message and `scrollTo` (main.js:85, main.js:242-244): a timer and a browser call with no state in the model.
- The clipboard write (main.js:179-180): an asynchronous foreign call. Its outcome is the parameter `outcome` of `CopyReport`: resolved, rejected, or no clipboard API at all. The TypeError thrown in that last case is modelled only as "no report". Its escape from the click handler is not modelled.
- `document.querySelector(sectionId)` takes any CSS selector. It is modelled as the first section whose key equals the selector. An element outside the sections that matches is not modelled.
- Year markers are assumed to carry a `data-year`. A marker without one (`undefined` in the source) is not modelled.
- Notifications.NotificationCenter.constructor: assumes that a present surface contains `.notification-text` and `.notification-icon`. Without the text element `showNotification` throws before changing anything (main.js:27-30); without the icon element it throws after setting the text (main.js:32). Neither case is modelled.
- Notifications.NotificationCenter.Hide: does not model the 3200 ms delay or which `Show` scheduled it. Any pending timer may run it.
- Sections.SectionSwitcher.Complete: is not tied to the `Begin` that scheduled it. Any target that `Lookup` returns for the page may be completed, which covers every interleaving of timers.
