# CODECHECK certificate page: viewer and citation panel

A Dafny model of the two browser-side state machines of a CODECHECK certificate page.

- **Page viewer** (`inst/extdata/js/cert-utils.js`). It keeps a cyclic index into the page images.
  The previous and next buttons advertise the page they lead to. An auto-pagination latch and its
  timers advance the page every 5 seconds until the user clicks a wired element while an
  interval is running (see "## Findings"). Sections whose text is blank
  are hidden. The module is `CertUtils`. The page-template globals `images` and `currentIndex` and
  the module globals `autoPaginationInterval` and `autoPaginationEnabled` are fields of the class
  `Viewer`, and the methods update them in place.
- **Citation panel** (`inst/extdata/js/cert-citation.js`). It reads the report DOI from the
  certificate metadata, resolves it with the citation engine and formats the record in the
  selected style. It also copies the current citation to the clipboard. The module is
  `CertCitation`. The globals `citationData` and `currentCitation` and the page elements they
  drive are fields of the class `CitationPanel`.
- `Text` models JavaScript's `String.prototype.trim`. It uses the exact set of WhiteSpace and
  LineTerminator code points of ECMA-262. It also defines "a message mentions a string".
  `Wrappers` holds `Option` and `Outcome`.

Timers and DOM events are explicit method calls, not durations:

- `Viewer.WindowLoaded` is the window `load` event.
- `Viewer.StartDelayElapsed` is the 1-second `setTimeout`.
- `Viewer.Tick(h)` is one callback of the live interval `h`.
- `Viewer.Click(t)` is a user click on a wired element.
- `CitationPanel.FeedbackTimeout` is the 2-second timeout.

The citation engine is an oracle, `Engine(resolve, format)`, over an opaque record type. The
metadata fetch is represented only by its outcome, `Metadata`.

Points where the behaviour of the code is easy to misread:

- **A click before the interval starts.** The listeners are added to "stop auto-pagination on
  user interaction" (cert-utils.js:139), but `stopAutoPagination` clears the latch only when an
  interval handle is stored (cert-utils.js:73-80). A click before the delayed start therefore
  leaves auto-advance on. See "## Findings".
- **A format failure.** `updateCitation` replaces the preview with an error naming the format
  (cert-citation.js:125-129). Only `currentCitation`, the text that copying uses, keeps the
  last good citation.
- **Citation versus record.** A non-empty citation implies a loaded record
  (`CitationPanel.Valid`), but not the converse: a record whose first formatting fails leaves
  `currentCitation` empty.
- **A tick after auto-advance is disabled.** The tick's disabled branch calls
  `stopAutoPagination` (cert-utils.js:93-96). The latch is only cleared together with the stored
  handle, so that call has nothing to cancel. `Viewer.Tick` therefore changes nothing in that
  branch. The branch can only be reached by an interval whose handle was overwritten by a second
  `startAutoPagination`.

## Model

| member | source | states |
|---|---|---|
| `CertUtils.Wrap` | inst/extdata/js/cert-utils.js:57-62 | the index after a step lies in 0..n-1 for every direction, and an in-range index is kept |
| `CertUtils.NextIndex` | inst/extdata/js/cert-utils.js:57-62 | `changeImage(1)` leaves a valid index, and from a valid index it is the successor modulo the page count |
| `CertUtils.PrevIndex` | inst/extdata/js/cert-utils.js:57-62 | `changeImage(-1)` leaves a valid index, and from a valid index it is the predecessor modulo the page count |
| `CertUtils.StepIsModular` | inst/extdata/js/cert-utils.js:56-62 | for direction -1 or +1 and a valid index, the new index is (i + d + n) mod n |
| `CertUtils.WrapAround` | inst/extdata/js/cert-utils.js:58-62 | +1 from the last page gives 0, and -1 from page 0 gives the last page |
| `CertUtils.PrevUndoesNext` | inst/extdata/js/cert-utils.js:57-62 | `changeImage(-1)` after `changeImage(1)` restores the index, and the other way round |
| `CertUtils.Advance` | inst/extdata/js/cert-utils.js:57-62 | k successive forward steps stay within the image list |
| `CertUtils.AdvanceIsModular` | inst/extdata/js/cert-utils.js:57-62 | k forward steps from i land on (i + k) mod n |
| `CertUtils.AdvanceCycle` | inst/extdata/js/cert-utils.js:57-62 | forward steps return to the start exactly when their number is a multiple of n, so n steps return |
| `CertUtils.JsRem` | inst/extdata/js/cert-utils.js:36-37 | JavaScript `%`: the remainder has the dividend's sign, is smaller than the divisor and differs from the dividend by a multiple of it |
| `CertUtils.NextPage` | inst/extdata/js/cert-utils.js:36 | the next button's page number lies in 1..n and, less one, is congruent to the current index plus one |
| `CertUtils.PrevPage` | inst/extdata/js/cert-utils.js:37 | the previous button's page number lies in 1..n and, less one, is congruent to the current index minus one |
| `CertUtils.TitlesAdvertiseDestination` | inst/extdata/js/cert-utils.js:35-37 | the advertised next and previous pages lie in 1..n and equal the index after the matching `changeImage` call plus one |
| `CertUtils.Viewer.constructor` | inst/extdata/js/cert-utils.js:7-8 | the page starts at index 0 showing the first image, with no interval stored and auto-advance enabled |
| `CertUtils.Viewer.UpdateButtonTitles` | inst/extdata/js/cert-utils.js:34-50 | each present button is labelled with its destination page and the total, and an absent button's title is untouched |
| `CertUtils.Viewer.ChangeImage` | inst/extdata/js/cert-utils.js:56-68 | the index moves with wrap-around and stays valid, the slider shows that image and the titles match the new index |
| `CertUtils.Viewer.StopAutoPagination` | inst/extdata/js/cert-utils.js:73-80 | with no interval stored nothing changes; otherwise the interval is cancelled, the handle cleared and auto-advance disabled |
| `CertUtils.Viewer.StartAutoPagination` | inst/extdata/js/cert-utils.js:85-102 | while disabled nothing changes; while enabled a fresh interval is started and its handle stored |
| `CertUtils.Viewer.Tick` | inst/extdata/js/cert-utils.js:92-101 | an enabled tick advances exactly one page, shows that image, relabels each present button for the new page and keeps the latch; a tick that finds auto-advance disabled changes nothing |
| `CertUtils.Viewer.InitializeAutoPagination` | inst/extdata/js/cert-utils.js:132-162 | with at most one image nothing is wired; otherwise every present element gets the stop listener (a repeat registration of the same function is merged) and one more load listener is registered |
| `CertUtils.Viewer.WindowLoaded` | inst/extdata/js/cert-utils.js:157-161 | the load event schedules one delayed start per registered load listener |
| `CertUtils.Viewer.StartDelayElapsed` | inst/extdata/js/cert-utils.js:160 | the delayed start uses up one pending start and runs `startAutoPagination`: a fresh interval only if auto-advance is still enabled |
| `CertUtils.Viewer.Click` | inst/extdata/js/cert-utils.js:144-154 | a click on a wired element runs the stop; before an interval exists it changes nothing, and the latch never turns back on |
| `CertUtils.Viewer.StopAutoPaginationCorrected` | inst/extdata/js/cert-utils.js:73-80 | the intended stop: auto-advance is disabled and no interval is stored, whether or not one had started |
| `CertUtils.AdjustContentDisplay` | inst/extdata/js/cert-utils.js:15-29 | a section whose content trims to empty is hidden, and any other section keeps its display state |
| `CertUtils.InitializeCertificateSections` | inst/extdata/js/cert-utils.js:108-127 | present sections with blank content are hidden and every other section keeps its display state; the buttons are labelled for the current page, and no other viewer state changes |
| `CertUtils.EarlyClickStillAutoAdvances` | inst/extdata/js/cert-utils.js:73-80 | four pages and a click on "next" before the interval starts: the first tick still moves page 2 to page 3 |
| `CertUtils.EarlyClickCorrectedNeverAutoAdvances` | inst/extdata/js/cert-utils.js:86-88 | the same session with the corrected stop: no interval is ever running and auto-advance stays disabled |
| `CertUtils.DoubleInitializeAdvancesTwice` | inst/extdata/js/cert-utils.js:155-161 | `initializeAutoPagination` called twice on four pages: two load listeners start two intervals, one 5-second period moves two pages, and a click cancels only the interval whose handle is stored |
| `CertUtils.SinglePageWiresNothing` | inst/extdata/js/cert-utils.js:134-137 | a single-page certificate wires no stop listener, and the load event schedules no start |
| `Text.Trim` | inst/extdata/js/cert-utils.js:17 | `trim()` is empty exactly when every character is whitespace, and a non-empty result neither starts nor ends with whitespace |
| `Text.LeadingWhitespace` | inst/extdata/js/cert-citation.js:35 | the count covers whitespace only and stops at the first other character |
| `Text.TrailingWhitespace` | inst/extdata/js/cert-citation.js:122 | the count covers trailing whitespace only and stops at the last other character |
| `Text.TrimIsInfix` | inst/extdata/js/cert-citation.js:122 | `trim()` keeps exactly the text between the leading whitespace and the trailing whitespace: it starts right after the leading run and everything after it is whitespace |
| `Text.TrimOfTrimmed` | inst/extdata/js/cert-citation.js:122 | a string that neither starts nor ends with whitespace is unchanged by `trim()` |
| `Text.TrimIdempotent` | inst/extdata/js/cert-citation.js:122 | trimming a trimmed citation changes nothing |
| `Text.TrimDropsPadding` | inst/extdata/js/cert-citation.js:122 | whitespace appended by the engine to a trimmed text is removed again |
| `Text.MentionsSpliced` | inst/extdata/js/cert-citation.js:61 | a string spliced into a message is contained in it |
| `CertCitation.Selection` | inst/extdata/js/cert-citation.js:83-120 | bibtex, biblatex and ris are exactly the direct output kinds; each of the six names requests itself; any other value requests the apa template |
| `CertCitation.SelectionDistinguishesStyles` | inst/extdata/js/cert-citation.js:83-120 | the six style names give six different engine requests |
| `CertCitation.LoadErrorMessage` | inst/extdata/js/cert-citation.js:60-61 | the resolution error shown in the preview contains the DOI |
| `CertCitation.FormatErrorMessage` | inst/extdata/js/cert-citation.js:127-128 | the formatting error shown in the preview contains the requested format |
| `CertCitation.Truthy` | inst/extdata/js/cert-citation.js:185 | an absent report is falsy, and a string report is truthy exactly when it is non-empty, even if it is whitespace only |
| `CertCitation.IsBlankDoi` | inst/extdata/js/cert-citation.js:35 | the DOI guard rejects exactly the falsy values and the strings of whitespace only; what passes the metadata test but is still rejected is a non-empty whitespace string |
| `CertCitation.Render` | inst/extdata/js/cert-citation.js:79-129 | on success the citation is the trimmed engine output and the preview shows it; on failure the previous citation is kept and the preview names the format; a trimmed citation stays trimmed |
| `CertCitation.UnknownFormatRendersApa` | inst/extdata/js/cert-citation.js:114-119 | an unknown selector value yields the same citation as apa, and the same preview whenever apa formatting succeeds |
| `CertCitation.RenderIdempotent` | inst/extdata/js/cert-citation.js:79-129 | re-rendering with the same selection changes nothing |
| `CertCitation.CitationPanel.constructor` | inst/extdata/js/cert-citation.js:8-9 | no record, an empty citation, the section shown and no engine call yet |
| `CertCitation.CitationPanel.UpdateCitation` | inst/extdata/js/cert-citation.js:68-130 | with no record nothing changes; otherwise the citation and preview are the rendering of the record in the selected format |
| `CertCitation.CitationPanel.LoadCitation` | inst/extdata/js/cert-citation.js:34-63 | a blank DOI hides the section without calling the engine; a non-string DOI throws and changes nothing; a missing engine is reported without a resolution attempt; a failed resolution keeps the record and names the DOI; a resolved record is stored and rendered |
| `CertCitation.CitationPanel.CopyCitation` | inst/extdata/js/cert-citation.js:135-152 | with an empty citation nothing happens; otherwise the citation goes to the clipboard, and a fulfilled write shows the feedback while a rejected write prompts a manual copy |
| `CertCitation.CitationPanel.FeedbackTimeout` | inst/extdata/js/cert-citation.js:145-147 | the deferred hide hides the copy feedback |
| `CertCitation.CitationPanel.FormatChanged` | inst/extdata/js/cert-citation.js:162-165 | a selector change re-renders the loaded record in the new format, and nothing else changes without a record |
| `CertCitation.CitationPanel.CopyClicked` | inst/extdata/js/cert-citation.js:170-173 | a click on the copy button copies exactly the current citation, if there is one; a fulfilled write shows the feedback and schedules its hide, a rejected one prompts a manual copy |
| `CertCitation.CitationPanel.InitializeCitationGenerator` | inst/extdata/js/cert-citation.js:158-200 | unavailable metadata gives the metadata error; a falsy report hides the section without loading; otherwise the DOI goes to `loadCitation`, whose throw is reported as a metadata error; on every path that loads no record the record and the citation are unchanged |
| `CertCitation.SampleDoiNotBlank` | inst/extdata/js/cert-citation.js:35 | the sample report DOI passes the blank-DOI guard |
| `CertCitation.SampleApaTrimmed` | inst/extdata/js/cert-citation.js:122 | the sample apa output trims to itself, also with the engine's trailing newline |
| `CertCitation.ReportDoiLoads` | inst/extdata/js/cert-citation.js:179-194 | metadata with a report DOI and a working engine: the section stays visible, apa is selected, and the preview and citation are the trimmed apa text |
| `CertCitation.EmptyMetadataHides` | inst/extdata/js/cert-citation.js:183-189 | metadata without a report: the section is hidden and the preview keeps its placeholder |
| `CertCitation.FailedStyleKeepsLastCitation` | inst/extdata/js/cert-citation.js:122-129 | apa renders, then bibtex fails: the copyable citation is still the apa text, and the preview is the error naming bibtex |

## Findings

| source | as written | input that shows it | evidently intended | confidence | as-written member | corrected member |
|---|---|---|---|---|---|---|
| inst/extdata/js/cert-utils.js:73-80 | the click listener clears `autoPaginationEnabled` only when an interval handle is stored | four pages; the reader clicks "next" at 0.2 s, before the 1-second delayed start; at 5 s after the start the page still advances | every user click disables auto-advance for the rest of the session, as the comment at cert-utils.js:139 says | medium, not executed | `CertUtils.EarlyClickStillAutoAdvances` | `CertUtils.Viewer.StopAutoPaginationCorrected` |

The corrected stop is proved by `CertUtils.EarlyClickCorrectedNeverAutoAdvances`. With it, an early
click leaves no running interval and auto-advance stays disabled. `Viewer.Click` still uses the stop
as written, because the model follows the code.

## Left out

- `inst/extdata/js/citation-wrapper.js` only loads the engine bundle and has no behaviour to state. It is not part of this model.
- `fetchCertificateMetadata` (cert-citation.js:15-28) and JSON parsing are represented only by their outcome, `Metadata`. A metadata body that parses to `null` makes the property read throw into the same catch, so it counts as `Unavailable`.
- The engine internals (`Cite.async`, `.format`) are an oracle. Its `format` is a function of the record and the request, so the model cannot show that apa output is non-empty.
- The `await` in `loadCitation` is modelled as one step. While it is pending, only `updateCitation` with no record and `copyCitation` with an empty citation could run, and both are no-ops.
- The clipboard promise is the `writeSucceeds` parameter, and the `alert` is a counter. The 2-second hide is the `FeedbackTimeout` event.
- Console logging is left out. HTML markup in the error messages is left out too: the preview holds the text the message displays. A DOI or format containing markup would be parsed as HTML by `innerHTML`, and that is not modelled.
- The `minHeight = '320px'` loop over cards (cert-utils.js:24-27) is a cosmetic layout rule and is left out.
- Wall-clock time is not modelled. A window `load` event that fires more than once is allowed by the model, though browsers fire it once.
- `CertUtils.Viewer.ChangeImage`: assumes the page has the image slider. Without it the source throws a `TypeError` when it writes `src`.
- `CertUtils.Viewer.InitializeAutoPagination`: does not model an undefined `images` global (cert-utils.js:134). `InitializeCertificateSections` models it with a null viewer.
- `CertCitation.CitationPanel.CopyCitation`: assumes the clipboard API exists, so `writeSucceeds` covers only a fulfilled or rejected write promise. Where `navigator.clipboard` is undefined (a page not served over HTTPS, or an old browser), `writeText` at cert-citation.js:139 throws a `TypeError` before the `.catch` is attached. No manual-copy prompt appears and the error escapes the click handler. `CopyClicked` inherits the same assumption.
- `CertCitation.CitationPanel.UpdateCitation`: assumes the format selector and the preview element exist. The source throws a `TypeError` when they are missing.
- `CertCitation.CitationPanel.InitializeCitationGenerator`: assumes the format selector and the copy button exist. Without them the source logs an error and skips wiring them.
