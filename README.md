# Portfolio page state machines, in Dafny

The portfolio page is a single React component tree (`App.tsx`). Nearly all of it is markup over static content. This project models the small pieces of it that have behaviour, each as a Dafny module:

- **Theme** (`theme.dfy`): the tri-state `ThemeMode`. On mount the value stored under `theme-mode` is adopted only when it is exactly `"system"`, `"light"` or `"dark"`. Every change is written both to storage and to the root element's `data-theme` attribute. `ThemeController` holds the mode, the storage (a map) and the attribute. Its invariant says the storage and the attribute both hold the mode.
- **Reveal** (`reveal.dfy`): the per-section visibility flag of `SectionWrapper`. An intersecting observation reveals the section. A non-intersecting one hides it only while the section's top edge is still below the viewport top. `AfterAllRevealed` gives the exact condition under which a run of observations leaves a section revealed.
- **ActiveSection** (`active_section.dfy`): the header's `activeSection` string, folded over each observer batch so that the last intersecting entry wins. It also covers the link highlight (`href.substring(1)`) and the nav-click target (`href.replace('#', '')`). Lemmas show that the six links and the six observed anchors line up one to one.
- **Typewriter** (`typewriter.dfy`): the hero title's interval. `Hero` keeps the captured counter `i`, the shown text and whether the interval is still set. `Play` runs ticks until the interval clears itself.
- **ContactForm** (`contact_form.dfy`): the form status machine (idle, loading, success, error) together with the fields, the relay requests in flight and the 5 second reset timers still armed. The pure transition function `Next` is the specification. The `ContactSection` class's handlers are proved against it.
- **Skills** (`skills.dfy`): filtering the skill list by each of the five column names partitions it. This holds because the names are exactly the values of `Skill.category`.

Inputs from the host become parameters or events:

- An entry of a section's reveal observer is reduced to `isIntersecting` and the `top` of its bounding box.
- An entry of the header's tracker is reduced to its target's `id` and `isIntersecting`.
- Storage is a `map<string, string>`.
- The relay `fetch` becomes its outcome (`Ok`, `NotOk`, `Threw`).
- Each `setTimeout` becomes a `TimerFired` event.
- Each `setInterval` callback becomes a `Tick`.
- The browser's `type="email"` check is a boolean on the submit event.

Two intentions are evident in the code: the submit button is disabled while a request is loading (App.tsx:711-712), and the error message asks the user to try again, i.e. to submit anew (App.tsx:707). The first means two submissions should not overlap, and the second means error should be left by a new submission. The model follows what the code does, which departs from both in one case, and notes two further behaviours:

- The reset timer armed on success sets the status to idle unconditionally (App.tsx:399). A timer left over from an earlier success can still fire later. It can reset a later error to idle (`StaleTimerClearsError`). It can also reset a later loading state to idle, which re-enables the button so that two requests are in flight (`StaleTimerAllowsOverlap`). `LeavingError` lists every way out of error. `SingleFlightWithoutStaleTimer` shows that overlap needs a timer firing during loading.
- The section observer destructures its batch as `([entry])` (App.tsx:50). It therefore acts on the first entry of a batch only, and `Section.Observe` does the same.
- On mount, the write effect runs once with the initial `"system"` before the stored value is adopted. So a stored value that is not one of the three literals is overwritten with `"system"`, not merely ignored.

## Model

| member | source | states |
|---|---|---|
| Theme.GetItem | App.tsx:362 | reading a key gives its value when present and nothing when absent |
| Theme.Parse | App.tsx:362-365 | a stored value is accepted exactly when it is one of the three literals, and the accepted mode is written as that same literal |
| Theme.ParseName | App.tsx:77 | every mode written as its literal parses back to itself |
| Theme.NameInjective | App.tsx:369-370 | different modes are stored and set as different strings |
| Theme.LoadAdoptsOnlyValidValues | App.tsx:359-366 | after load the mode is the stored literal when it is valid, and "system" when the value is invalid or absent |
| Theme.ThemeController.constructor | App.tsx:359-371 | mounting settles on the loaded mode, with storage and `data-theme` both holding it and no other key changed |
| Theme.ThemeController.Sync | App.tsx:368-371 | the sync effect writes the mode to `data-theme` and to `theme-mode`, touching nothing else |
| Theme.ThemeController.SetMode | App.tsx:182-201 | after any change the mode, the stored `theme-mode` and `data-theme` all equal the new mode |
| Reveal.StepCases | App.tsx:50-56 | intersecting reveals; leaving with top below the viewport top hides; leaving with top at or above it keeps the flag |
| Reveal.RevealedByUnfold | App.tsx:50-56 | the reveal condition of a run is that of its tail from the first step's result |
| Reveal.AfterAllRevealed | App.tsx:45-56 | after any run the section is revealed iff some entry intersected with no hiding entry after it, or it was revealed and nothing hid it |
| Reveal.ScrolledPastStaysRevealed | App.tsx:53-55 | a revealed section that is only ever reported above the viewport top stays revealed |
| Reveal.Section.constructor | App.tsx:45 | a section mounts hidden |
| Reveal.Section.Observe | App.tsx:49-56 | the callback applies the rule to the first entry of the batch |
| ActiveSection.DropFirst | App.tsx:165 | `substring(1)` is the href without its first character, or empty |
| ActiveSection.FirstHash | App.tsx:132 | the position found is a `#` with no `#` before it |
| ActiveSection.RemoveFirstHash | App.tsx:132 | `replace('#', '')` removes the first `#`, keeping everything before and after it, and changes nothing when there is none |
| ActiveSection.QuietBatchKeeps | App.tsx:100-106 | a batch with no intersecting entry leaves the active section unchanged |
| ActiveSection.LastIntersectingWins | App.tsx:100-106 | after a batch the active section is the id of its last intersecting entry |
| ActiveSection.BatchesCompose | App.tsx:100-106 | two batches in a row act like one batch holding both in order |
| ActiveSection.StaysTracked | App.tsx:103-113 | when entries come from the six observed anchors, the value stays as it was or names one of them |
| ActiveSection.LinksMatchSections | App.tsx:109-132 | link i scrolls to anchor i and is highlighted exactly when the active section is anchor i |
| ActiveSection.AtMostOneHighlighted | App.tsx:165 | at most one link is highlighted, and none for the initial empty value |
| ActiveSection.Header.constructor | App.tsx:88 | the active section starts as the empty string |
| ActiveSection.Header.OnEntries | App.tsx:100-106 | the `forEach` loop leaves the value the fold over the batch gives |
| Typewriter.ShownIsGrowingPrefix | App.tsx:266-272 | every shown text is a prefix of the title no longer than it, grows by at most one character per tick, and the last tick shows the full title |
| Typewriter.Hero.constructor | App.tsx:263-268 | the title starts empty, with counter 0 and the interval set |
| Typewriter.Hero.Tick | App.tsx:268-272 | a tick shows the first `i` characters, advances `i`, and clears the interval once `i` exceeds the length |
| Typewriter.Hero.Play | App.tsx:266-274 | the interval clears itself after length + 1 ticks from mount, leaving the full title shown |
| Typewriter.TypeHeroTitle | App.tsx:262-274 | mounting the hero and running its interval to the end shows the site's full title after 53 ticks, 2120 ms |
| ContactForm.SubmitOnlyFromIdleOrError | App.tsx:373-375 | a submit takes effect iff the form is idle or in error and the fields pass the browser checks; it then shows loading with the fields kept; from loading or success it does nothing |
| ContactForm.ResponseOutcome | App.tsx:396-405 | an ok response gives success, clears the fields and arms a timer; a non-ok response or a throw gives error with the fields intact |
| ContactForm.LeavingSuccess | App.tsx:396-399 | success is left by "send another" or a timer, both giving idle, or by an older request failing; a timer gives idle from any status |
| ContactForm.LeavingError | App.tsx:396-405 | error is left only by a submit, a late timer, or an older request's success; never by a response while `SingleFlight` holds (in error, nothing is then in flight), which `SingleFlightWithoutStaleTimer` guarantees while no timer fires during loading |
| ContactForm.StaleTimerClearsError | App.tsx:396-404 | a timer from an earlier success turns a later error into idle |
| ContactForm.NextKeepsInv | App.tsx:358-406 | every event keeps "loading has a request in flight; success has an armed timer and blank fields" |
| ContactForm.RunKeepsInv | App.tsx:358-406 | every state reached from a valid one keeps that invariant |
| ContactForm.SingleFlightWithoutStaleTimer | App.tsx:711-712 | with no timer firing during loading, at most one request is in flight, exactly while loading |
| ContactForm.StaleTimerAllowsOverlap | App.tsx:399 | a timer firing during a later submission's loading lets a second request go out |
| ContactForm.ContactSection.constructor | App.tsx:358 | the form mounts idle with empty inputs and nothing outstanding |
| ContactForm.ContactSection.Edit | App.tsx:670-701 | typing changes the fields only while the form is rendered |
| ContactForm.ContactSection.HandleSubmit | App.tsx:373-375 | the handler's synchronous part is the `Submit` transition and keeps the invariant |
| ContactForm.ContactSection.OnResponse | App.tsx:387-405 | the handler's continuation is the `Respond` transition |
| ContactForm.ContactSection.OnTimer | App.tsx:399 | the timer is the `TimerFired` transition: idle whatever the status |
| ContactForm.ContactSection.OnSendAnother | App.tsx:655-667 | "send another" takes success to idle and exists only on success |
| Skills.InColumn | App.tsx:477 | a column lists only skills of the list whose category name equals its heading |
| Skills.CategoryHasOneColumn | types.ts:4 | each category's name heads exactly one of the five distinct columns |
| Skills.ColumnKeepsMembers | App.tsx:477 | every listed skill appears in the column of its category |
| Skills.GridPartitionsSkills | App.tsx:465-477 | the five columns together are a permutation of the skill list |
| Skills.SiteGridShowsEachSkillOnce | constants.tsx:18-33 | the site's fourteen skills have distinct names and are each shown exactly as often as listed, hence exactly once, across the five columns |

## Left out

- Markup, Tailwind classes, CSS transitions and animation timing: presentation with no behaviour.
- The observers' `threshold` and `rootMargin` geometry: the host decides `isIntersecting`, and the model takes that decision as input.
- The `scrolled` flag (`scrollY > 20`), the nav-click and hero-button scroll offsets, and `window.scrollTo`: floating-point DOM geometry. Only the target id of a nav click is modelled.
- The mobile menu's `isOpen` toggle: it only shows or hides an overlay.
- Building the `FormData` payload (`_replyto`, `_subject`, `_template`, `_captcha`) and the request to the relay: a third-party network call, reduced to its outcome.
- ContactForm.Next: does not track which request a response belongs to. Responses are counted against the requests in flight, and their order is not modelled.
- ContactForm.ContactSection.HandleSubmit: the browser's email-format check is a boolean input, not a model of the check itself.
- Observer disconnection, interval clearing on unmount, and React's double-run of effects in development: lifecycle of host objects.
- The static content records in `constants.tsx` and the interfaces in `types.ts`, other than the skill list's categories. In the source, `Project` requires fields that the `PROJECTS` constant does not supply, which is a type-level mismatch with no behaviour.
- The CV download and the image assets.
- Storage failures: storage is a total map, so every read and write succeeds. In the source, access to `window.localStorage` and `setItem` can throw (storage blocked, quota exceeded), and nothing in the effects at App.tsx:361-371 catches it.
