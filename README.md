# Portfolio page behaviour, modelled in Dafny

This project models the client-side behaviour of a static portfolio page. The page's one
script wires small, independent controllers to the document: a persisted light/dark theme,
a mobile navigation menu, a back-to-top button, a scrollspy over the navigation links,
skill bars and one-shot hero counters, an FAQ accordion, a testimonial slider with an
auto-advance interval, and client-side contact-form validation.

The browser is abstracted away:

- DOM nodes become class fields, sequences and arrays.
- Local storage becomes a `map<string, string>`.
- The browser's constraint-validation result becomes a `Validity` record of flags.
- Intersection-observer callbacks become method calls that receive abstract entries.
- Timer handles become positive integers, and the host's set of uncleared intervals is a field.

Each controller is one module in its own file:

| file | module | controller |
|---|---|---|
| wrappers.dfy | `Wrappers` | `Option` for absent elements, attributes and storage entries |
| theme.dfy | `Theme` | theme attribute and its persisted copy |
| menu.dfy | `Menu` | mobile menu open/closed state and its accessibility attributes |
| scroll.dfy | `Scroll` | back-to-top visibility; scrollspy pick and link marking |
| stats.dfy | `Stats` | skill-bar clamp; one-shot counter trigger |
| faq.dfy | `Faq` | accordion of question buttons and panels (an array updated in place) |
| testimonials.dfy | `Testimonials` | cyclic cursor, rendering, auto-advance interval |
| contact.dfy | `ContactForm` | message precedence, error slots, submit handler |

The model follows the code as written, including these easily misread points:

- The slider does not render a testimonial at load. `tIndex` starts at 0, but the quote slots keep the markup's own text until the first navigation. `Testimonials.Slider.constructor` takes that text as given.
- A skill level or counter target that is not numeric yields NaN, not 0. Only an absent or empty attribute becomes 0, through `|| 0`. The model uses integer levels, and `None` stands for absent or empty.
- The theme toggle reads an empty `data-theme` attribute as dark, as well as a missing one, because of `|| "dark"`.
- The too-short message interpolates `getAttribute("minlength")`, so a field without that attribute shows "null".
- The scrollspy sorts the intersecting entries by descending ratio with a stable sort. On a tie, the earliest entry wins.

## Model

| member | source | states |
|---|---|---|
| `Theme.Stored` | script.js:45 | the stored theme is present exactly when local storage has the theme key, and it is that entry's value |
| `Theme.InitialTheme` | script.js:44-52 | the initial theme is always light or dark; a stored "light" or "dark" is kept; an absent or any other stored value gives dark |
| `Theme.InitialThemeStable` | script.js:44-52 | persisting the initial theme and initialising again gives the same theme |
| `Theme.CurrentTheme` | script.js:55 | the theme the toggle reads is never empty; it is the attribute when that is present and non-empty, and dark otherwise |
| `Theme.Flip` | script.js:56 | the toggle's result is light or dark, and it is light exactly when the current theme is dark |
| `Theme.FlipTwice` | script.js:54-57 | toggling twice from light or dark returns to the original theme |
| `Theme.FlipUnknown` | script.js:54-57 | flipping a current theme other than light or dark gives dark, and a second flip gives light; a missing or empty attribute is not such a theme, since it reads as dark |
| `Theme.ThemeController.SetTheme` | script.js:39-42 | the attribute becomes the theme, and the theme key in storage holds the same value; other keys are unchanged |
| `Theme.ThemeController.InitTheme` | script.js:44-52 | applies and persists `InitialTheme` of what was stored; afterwards the applied theme is recognised and equal to the stored one |
| `Theme.ThemeController.ToggleClick` | script.js:54-57 | applies and persists the flip of the current theme; afterwards the applied theme is recognised and equal to the stored one |
| `Theme.ToggleTwiceRestores` | script.js:54-59 | after initialisation, two toggle clicks leave the initial theme applied and persisted |
| `Menu.MenuController.OpenMenu` | script.js:64-72 | the menu is open, aria-expanded is "true", the label reads "Close menu", and the hamburger is morphed |
| `Menu.MenuController.CloseMenu` | script.js:74-80 | the menu is closed, aria-expanded is "false", the label reads "Open menu", and the morph is removed |
| `Menu.MenuController.ToggleClick` | script.js:82-85 | the menu ends open exactly when aria-expanded was not "true"; from a consistent state the click flips it; the class and both attributes agree afterwards |
| `Menu.MenuController.LinkClick` | script.js:87-90 | a navigation link click always leaves the menu closed and consistent |
| `Menu.MenuController.DocumentClick` | script.js:92-97 | an outside click on an open menu closes it; while the menu is closed, or for a click inside, nothing changes; consistency is preserved |
| `Menu.ToggleClickBubbles` | script.js:82-97 | a toggle click that then bubbles to the document handler still flips the menu |
| `Menu.LinkClickBubbles` | script.js:88-97 | a link click that then bubbles to the document handler leaves the menu closed and consistent |
| `Scroll.ToTop.Update` | script.js:102-105 | the back-to-top button is shown exactly when the scroll offset exceeds 600 |
| `Scroll.MostVisible` | script.js:136-140 | no pick exactly when no entry intersects; otherwise the pick intersects, has the highest ratio, and no earlier intersecting entry has the same ratio |
| `Scroll.MostVisibleUnique` | script.js:136-138 | the earliest intersecting entry of highest ratio is the pick |
| `Scroll.Scrollspy.OnEntries` | script.js:134-144 | with no intersecting entry the links are unchanged; otherwise each link is active exactly when its href is "#" plus the picked section's id; with distinct hrefs, at most one link is then active |
| `Scroll.AtMostOneActive` | script.js:143 | with distinct hrefs, marking the links equal to one id activates at most one; `OnEntries` uses it for its own postcondition |
| `Stats.Clamp` | script.js:159 | the width is in [0, 100]; levels already in range are kept; lower levels give 0 and higher levels give 100 |
| `Stats.ClampIdempotent` | script.js:159 | clamping twice is clamping once |
| `Stats.ClampMonotone` | script.js:159 | a higher level never gives a narrower bar |
| `Stats.BarWidth` | script.js:158-159 | the width is in [0, 100]; an absent or empty level gives 0; a present level gives its clamp, so an in-range level is kept, a negative one gives 0 and one above 100 gives 100 |
| `Stats.CounterTrigger.constructor` | script.js:171 | counters start unstarted, observed and never launched |
| `Stats.CounterTrigger.OnEntries` | script.js:187-196 | on the first notification with an intersecting entry, the flag is set, the counters are launched once and the observer disconnects; otherwise nothing changes; at most one launch ever |
| `Stats.RepeatedTriggers` | script.js:171-193 | after the first launch, further notifications never launch the counters again |
| `Faq.Collapsed` | script.js:212-216 | the close-all step leaves a question collapsed, with its panel hidden and its panel's existence unchanged |
| `Faq.AfterClick` | script.js:207-223 | after a click: at most one panel is visible and at most one question is expanded; clicking an expanded question, or one without a panel, leaves every panel hidden and every question collapsed; clicking a collapsed question with a panel leaves exactly that one expanded and visible |
| `Faq.ClickTwiceCloses` | script.js:207-223 | a click that opens a collapsed question, followed by a second click on it, closes everything |
| `Faq.OpenOtherSwitches` | script.js:207-223 | opening question B while question A is open leaves B open and A closed |
| `Faq.Accordion.Click` | script.js:207-223 | the in-place loop leaves the buttons and panels exactly as `AfterClick` of their old state |
| `Testimonials.Next` | script.js:257 | the next index is in range; it is 0 after the last index and i + 1 otherwise |
| `Testimonials.Prev` | script.js:262 | the previous index is in range; it is N - 1 from 0 and i - 1 otherwise |
| `Testimonials.NextUndoesPrev` | script.js:256-264 | prev followed by next is the identity |
| `Testimonials.PrevUndoesNext` | script.js:256-264 | next followed by prev is the identity |
| `Testimonials.Advance` | script.js:256-259 | any number of consecutive next steps keeps the index in range |
| `Testimonials.AdvanceWithinLap` | script.js:256-259 | k next steps, for k up to N, move the index k places and wrap at most once |
| `Testimonials.FullLap` | script.js:256-259 | N next steps return the index to its start |
| `Testimonials.AdvanceAdds` | script.js:256-259 | a steps followed by b steps equal a + b steps |
| `Testimonials.WholeLaps` | script.js:256-259 | any whole number of laps returns the index to its start |
| `Testimonials.Slider.constructor` | script.js:244-248 | the cursor starts at 0 over a non-empty list, with no interval and nothing rendered |
| `Testimonials.Slider.Render` | script.js:250-254 | the quote slots show the quote and attribution at the cursor |
| `Testimonials.Slider.NextTestimonial` | script.js:256-259 | the cursor moves to `Next` and is rendered; the interval is untouched |
| `Testimonials.Slider.PrevTestimonial` | script.js:261-264 | the cursor moves to `Prev` and is rendered; the interval is untouched |
| `Testimonials.Slider.StopAuto` | script.js:279-282 | the held interval is cleared and the handle becomes null; no interval is left firing |
| `Testimonials.Slider.StartAuto` | script.js:275-278 | the old interval is cleared before the new one is held; exactly one interval is left firing |
| `Testimonials.StartTwice` | script.js:275-287 | starting twice in a row leaves exactly one interval firing, the second |
| `ContactForm.AttrText` | script.js:321 | a present attribute renders as its value, and a missing one renders as "null" |
| `ContactForm.TooShortMessage` | script.js:321 | the too-short message is "Please enter at least ", then the field's minlength text (or "null"), then " characters."; the minlength text can be read back out of it |
| `ContactForm.ErrorMessage` | script.js:305-327 | the message is empty exactly when the field is valid; otherwise the precedence is valueMissing, then typeMismatch, then tooShort carrying minlength, then the generic message |
| `ContactForm.MessageIdentifiesCause` | script.js:312-326 | for an invalid field, each of the four messages appears exactly when its flag wins the precedence |
| `ContactForm.WriteSlot` | script.js:296-299 | writes the message into the field's error slot when the page has one; no slot is added, and every other slot is unchanged |
| `ContactForm.ClearSlots` | script.js:301-303 | the name, email and message slots are emptied, and all other slots are unchanged |
| `ContactForm.ShowMessages` | script.js:342-345 | validating every field, first to last, keeps the set of slots |
| `ContactForm.ShowMessagesAt` | script.js:342-345 | with distinct ids, each field's slot ends showing exactly that field's own message |
| `ContactForm.ShowMessagesElsewhere` | script.js:342-345 | a slot that belongs to no field keeps its text |
| `ContactForm.Blank` | script.js:355 | after a reset, every field value is empty |
| `ContactForm.Form.ValidateField` | script.js:305-327 | returns true exactly when the field is valid; writes that field's `ErrorMessage` into its slot and changes nothing else |
| `ContactForm.Form.ValidateAll` | script.js:342-345 | every field is validated in order with no early exit; ok is true exactly when all fields are valid; each field's slot gets its message; values and status are unchanged |
| `ContactForm.Form.Submit` | script.js:337-356 | errors and status are cleared first, then `ValidateAll` runs; ok is false exactly when some field is invalid, and then the status asks to fix the fields and the values are kept; otherwise the status is the demo-success text and all values are emptied |
| `ContactForm.SubmitShowsEachField` | script.js:337-356 | after a submit, a valid field's slot is empty, an invalid field's slot is not, and a field with a missing value shows "This field is required." |

## Left out

- DOM querying and event-listener registration are not modelled. Each handler is a method the caller invokes. The bubbling of a click from a link or the toggle to the document is composed explicitly in `Menu.ToggleClickBubbles` and `Menu.LinkClickBubbles`.
- The hamburger's inline style writes are left out as cosmetic (script.js:69-70, 78). So is the injected CSS for its morph (script.js:363-372). The `x` class is kept as the morph state.
- The footer year (script.js:32) is left out because it reads the clock.
- The smooth scroll to the top (script.js:108) is left out because it is a browser animation.
- The scroll offset is an integer. The browser's `scrollY` may be fractional.
- The reveal observer (script.js:113-125) is not modelled. It is browser-side observer mechanics: add a class to an intersecting element, then stop observing it.
- Intersection-observer thresholds and `rootMargin` are not modelled, and neither are `unobserve` for skill bars and reveal targets or how the observer chooses its entries. Intersection ratios are an abstract ordered value (`int`), not real numbers.
- Stats.BarWidth: does not model `Number()` parsing. A non-numeric `data-level` yields NaN in the page, not 0, and the model does not claim otherwise.
- The counter animation (script.js:173-185) is left out: the `performance.now` timing, the frame callbacks, the cubic easing and the rounding. That is floating-point work driven by frame callbacks. Only the one-shot trigger and the targets each launch receives are modelled.
- The testimonial content (script.js:229-242) is not modelled. The slider works over any fixed non-empty list.
- The interval's timing and the concurrency of ticks are not modelled. A tick is a call of `NextTestimonial`. The host's uncleared intervals are the `live` field, and the host hands out handles.
- The browser's constraint-validation engine is not modelled. The validity flags are inputs to `ValidateField` and `Submit`.
- `form.reset()` is modelled only as "every value becomes empty". It does not restore authored default values.
- The submit handler's call to `preventDefault` (script.js:338) has no counterpart, because nothing is ever sent.
- The FAQ's `aria-expanded` is a boolean: "true", or anything else. The handler only ever writes "true" or "false".
