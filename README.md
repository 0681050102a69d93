# Portfolio site: a verified model of its behaviour

This project models the interactive core of a personal portfolio site, a Next.js/React application, in Dafny. It covers these parts:

- **Typewriter** (`typewriter.dfy`, `hero.dfy`): the hero banner's typewriter effect. It types one word a character every 100 ms, deletes it a character every 50 ms, and moves on to the next word. The rule is the same in both hero components; each has its own word list.
- **Projects carousel** (`projects.dfy`): the featured-project carousel. It has next, previous and dot navigation, a 500 ms animation lock and an 8 s auto-advance.
- **Active section** (`active_section.dfy`): the active-section provider. It decides which navigation entry is highlighted as the page scrolls, and ignores scrolling for one second after a click.
- **Page** (`page.tsx` model in `page.dfy`, text helpers in `strings.dfy`): the page's background-degradation flags (background hidden → simple 3D background → static background) and hash navigation on load.
- **LeetCode statistics** (`leetcode_stats.dfy`): the route that turns the GraphQL reply into solved counts, a ranking label and rounded percentages.
- **Contact** (`send_email.dfy`, `contact.dfy`): the server action that composes and sends the contact e-mail, and the form state around it.
- **CSE background** (`cse_background.dfy`): a three.js background component. It is defined and exported in `components/cse-3d-background.tsx` (line 406), but `app/page.tsx` does not mount it. It generates falling binary digits, right-angled circuit paths and spinning code symbols, and advances them frame by frame.

React state is modelled in one of two ways. Where a component keeps state across events, it is a class whose methods perform one event handler or one timer callback. React batches the `set…` calls inside a handler, so each method's new state is a function of the state before the handler ran. The window listeners in `app/page.tsx` and `components/active-section-context.tsx` read the state their closure captured when they were registered. The model assumes that each event reaches a listener registered after the previous state change rendered; "## Left out" says what this leaves out. Pure computations are Dafny functions, and lemmas state what they guarantee.

Inputs from the outside world are parameters:
- the clock (`Date.now()`);
- the DOM lookups (`document.getElementById`, `offsetTop`, the scroll position);
- `window.location.hash`;
- the result of the mail transport;
- the values `Math.random()` returns: a sequence of reals in [0, 1), consumed in the order the source calls `Math.random()`.

Timers are not scheduled. When a timer fires, the caller invokes the method for its callback.

The page's background logic follows the code in `app/page.tsx`. No primary 3D background is imported any more, so with no error nothing is rendered (`renderBackground` falls through). The first background error switches on the simple 3D background and the second the static one. A three-stage primary → simple → static chain, as the comments suggest, is therefore not what the page does, and the model follows the code.

## Model

| member | source | states |
|---|---|---|
| Typewriter.JsSubstring | components/hero-section.tsx:459 | JavaScript `substring` clamps both ends to [0, length] and swaps them when reversed; the result is a slice of the string. |
| Typewriter.SubstringFromZero | components/hero-section.tsx:466 | `substring(0, k)` is the empty string for k ≤ 0 (the `length - 1` of an empty text), the first k characters for k within the string, and the whole string beyond it; always a prefix. |
| Typewriter.Step | components/hero-section.tsx:453-478 | One tick keeps the shown text a prefix of the current word and the word index in range, starting from any such state. |
| Typewriter.Delay | components/hero-section.tsx:474 | The next tick is scheduled after 50 ms exactly when deleting, otherwise after 100 ms. |
| Typewriter.TypingStep | components/hero-section.tsx:458-459 | While typing and the word is not complete, a tick appends the word's next character and nothing else changes. |
| Typewriter.TypingFlip | components/hero-section.tsx:461-463 | When the whole word is shown while typing, a tick keeps the text and switches to deleting. |
| Typewriter.DeletingStep | components/hero-section.tsx:465-466 | While deleting a non-empty text, a tick drops its last character. |
| Typewriter.DeletingFlip | components/hero-section.tsx:468-471 | Deleting with an empty text switches back to typing and moves to the next word, wrapping to the first. |
| Typewriter.IndexMovesOnlyAtFlip | components/hero-section.tsx:470 | The word index changes only on the tick that finds an empty text while deleting, and then advances by one modulo the word count. |
| Typewriter.StepAlwaysChanges | components/hero-section.tsx:478 | Every tick changes one of the effect's dependencies, so the effect schedules a new tick after each one. |
| Typewriter.TypingRun | components/hero-section.tsx:458-464 | From any prefix of length k, typing reaches the full word with deleting set after length − k + 1 ticks, each scheduled 100 ms after the last, on the same word throughout. |
| Typewriter.DeletingRun | components/hero-section.tsx:465-471 | From a prefix of length k while deleting, k + 1 ticks, each scheduled 50 ms after the last, reach the next word with an empty text, the index unchanged until the last tick. |
| Typewriter.WordCycle | components/hero-section.tsx:456-474 | A word of length L is fully shown after L + 1 ticks; after 2(L + 1) ticks, whose scheduled delays add up to 150(L + 1) ms, the next word starts with an empty text. |
| Typewriter.WordKeepsIndex | components/hero-section.tsx:470 | Throughout the 2(L + 1) ticks of a word's cycle the word index stays on that word. |
| Typewriter.Rotation | components/hero-section.tsx:453-478 | After the cycles of the first k words the effect starts word k (word 0 once all n are done) with an empty text while typing, with scheduled delays averaging 75 ms a tick; after all n words it is back in its initial state. |
| Typewriter.TypewriterEffect.constructor | components/hero-section.tsx:448-451 | The effect starts on word 0 with an empty text, typing, for a non-empty word list. |
| Typewriter.TypewriterEffect.Tick | components/hero-section.tsx:453-478 | The timer callback moves the three state variables to the next state of the tick rule and keeps them displayable. |
| HeroSection.FullRotation | components/hero-section.tsx:314-319 | With the words "Computer Science Student", "Software Developer", "AI Enthusiast", a full rotation takes 116 ticks whose scheduled delays add up to 8700 ms, and returns to the initial state. |
| Hero.FullRotation | components/hero.tsx:257-287 | The second copy of the effect, with the words of hero.tsx line 199, takes 100 ticks per rotation, whose scheduled delays add up to 7500 ms, and returns to the initial state. |
| Projects.Featured | components/projects.tsx:88 | The featured list holds exactly the featured projects and is no longer than the list it filters. |
| Projects.FeaturedDistributes | components/projects.tsx:88 | Filtering a concatenation is concatenating the filtered parts, so the featured projects keep their relative order. |
| Projects.FeaturedIdempotent | components/projects.tsx:88 | Filtering the featured list again changes nothing. |
| Projects.SiteFeatured | components/projects.tsx:27-73 | On the site's four projects the carousel shows three: ids 1, 2 and 4, in that order. |
| Projects.NextIndex | components/projects.tsx:94 | The next index is in range and is one more, except that the last wraps to 0. |
| Projects.PrevIndex | components/projects.tsx:101 | The previous index is in range and is one less, except that 0 wraps to the last. |
| Projects.NextPrevInverse | components/projects.tsx:91-103 | Previous undoes next and next undoes previous. |
| Projects.NextNWithoutWrap | components/projects.tsx:94 | k next steps that do not reach the end move the index by exactly k. |
| Projects.FullTurn | components/projects.tsx:94 | n next steps over n projects come back to the start, and no smaller positive number of steps does. |
| Projects.SingleProjectNeverMoves | components/projects.tsx:248 | When the arrows are hidden (one featured project) next and previous leave the index where it is. |
| Projects.Carousel.Shown | components/projects.tsx:139 | The project on display is one of the featured projects. |
| Projects.Carousel.constructor | components/projects.tsx:86-88 | The carousel starts on the first featured project, not animating. |
| Projects.Carousel.Next | components/projects.tsx:91-96 | While animating nothing changes; otherwise the carousel moves to the next index and locks. |
| Projects.Carousel.Prev | components/projects.tsx:98-103 | While animating nothing changes; otherwise the carousel moves to the previous index and locks. |
| Projects.Carousel.SelectDot | components/projects.tsx:274-279 | A dot jumps to its index and locks, unless an animation is running. |
| Projects.Carousel.TransitionEnded | components/projects.tsx:95 | The 500 ms timeout releases the lock and keeps the index. |
| Projects.Carousel.AutoAdvance | components/projects.tsx:105-112 | The 8 s interval advances like the next arrow when no animation is running, and otherwise does nothing. |
| Projects.NextThenPrev | components/projects.tsx:91-103 | Next, the transition's end, then previous returns the carousel to the project it started on. |
| ActiveSection.PresentOffsets | components/active-section-context.tsx:33-35 | The filtered element list is no longer than the section list. |
| ActiveSection.PresentIndices | components/active-section-context.tsx:33-35 | Each kept element comes from a valid section position, one position per kept element. |
| ActiveSection.FilterKeepsOrder | components/active-section-context.tsx:33-35 | The filter keeps exactly the sections that exist, in their original order, with their offsets. |
| ActiveSection.NoneMissing | components/active-section-context.tsx:33-35 | When every section exists the filter is the identity on positions. |
| ActiveSection.LastReached | components/active-section-context.tsx:39-45 | The result is the last element whose top is at or above the reference position, and it is absent exactly when every top lies below it. |
| ActiveSection.ScanBackwards | components/active-section-context.tsx:39-45 | The backward loop with `break` finds the same element as the last-reached characterisation. |
| ActiveSection.NameAfterScroll | components/active-section-context.tsx:31-45 | As written: the handler sets a name from the section list; it keeps the current name when every existing element lies below the reference position, and sets a listed name whenever one element is at or above it. |
| ActiveSection.NothingReached | components/active-section-context.tsx:39-45 | The backwards scan finds no element exactly when every existing element's top lies below the reference position. |
| ActiveSection.IntendedNameAfterScroll | components/active-section-context.tsx:31-45 | Corrected: the position in the filtered list is mapped back to its section before naming it. |
| ActiveSection.IntendedNameIsLastReachedSection | components/active-section-context.tsx:31-45 | The corrected name is the last existing section whose top is at or above the reference position, or the current name when there is none. |
| ActiveSection.AllPresentNamesMatch | components/active-section-context.tsx:42 | When every section exists, the handler as written and the corrected one agree. |
| ActiveSection.ContactNamedTestimonials | components/active-section-context.tsx:31 | With no testimonials element and the reference position inside the contact section, the handler as written names "testimonials" where "contact" is meant. |
| ActiveSection.Provider.constructor | components/active-section-context.tsx:23-24 | The provider starts on "home" with a last-click time of 0. |
| ActiveSection.Provider.SetActiveSection | components/active-section-context.tsx:54-56 | The exposed setter changes the active section only. |
| ActiveSection.Provider.SetTimeOfLastClick | components/active-section-context.tsx:57-58 | The exposed setter changes the last-click time only. |
| ActiveSection.Provider.HandleScroll | components/active-section-context.tsx:27-46 | Within 1000 ms of a click a scroll changes nothing; otherwise the active section becomes the handler's name at scrollY + innerHeight / 3. |
| ActiveSection.UseActiveSectionContext | components/active-section-context.tsx:66-72 | Outside a provider the hook fails with its error message; inside it returns the context unchanged. |
| Strings.IncludesIffOccurs | app/page.tsx:64-67 | `includes` holds exactly when the needle occurs at some position of the message. |
| Strings.ReplaceNewlines | app/actions/send-email.ts:47 | After `replace(/\n/g, "<br>")` no newline is left, and a text without newlines is unchanged. |
| Strings.ReplaceNewlinesConcat | app/actions/send-email.ts:47 | The global replacement works piecewise: replacing in a concatenation is concatenating the replaced parts. |
| Strings.ReplaceNewlinesLength | app/actions/send-email.ts:47 | Every newline grows the text by three characters and nothing else changes the length. |
| Page.RenderBackground | app/page.tsx:84-90 | The static background wins when a second error occurred, the simple 3D background shows after the first, and nothing is rendered exactly when neither flag is set. |
| Page.OnError | app/page.tsx:59-77 | A non-background error leaves the flags alone; a background error sets the fallback flag first and the error flag after it. |
| Page.FlagsNeverCleared | app/page.tsx:70-75 | Over any sequence of error events a set flag stays set and the degradation level never drops. |
| Page.DegradationCountsErrors | app/page.tsx:61-75 | From the initial flags, the degradation level is the number of background errors seen, capped at two, assuming each error reaches a listener registered after the previous flag change rendered. |
| Page.DegradationFrom | app/page.tsx:61-75 | From any consistent flags the error flag implies the fallback flag, and each background error raises the level by one up to two. |
| Page.BackgroundFallback.constructor | app/page.tsx:35-36 | Both flags start cleared and no background is rendered. |
| Page.BackgroundFallback.HandleError | app/page.tsx:59-77 | The error listener applies one error event to the flags and never lowers the degradation level. |
| Page.RemoveFirstHash | app/page.tsx:44 | `replace("#", "")` removes one character exactly when the hash contains a `#`. |
| Page.RemoveFirstHashCutsFirst | app/page.tsx:44 | The replacement cuts out the first `#` only, and a string without `#` is unchanged. |
| Page.HashTarget | app/page.tsx:42-46 | An empty hash targets nothing; otherwise the target is the hash without its first `#`, when an element has that id. |
| Page.HashOfLocation | app/page.tsx:44 | For any location hash `#name`, the id looked up is `name`, including names that hold a further `#`. |
| Page.NavigateToHash | app/page.tsx:39-55 | With a target, the delayed callback makes it the active section and records the click time; without one, the provider is untouched. |
| LeetcodeStats.Find | app/api/leetcode-stats/route.ts:45-47 | `find` returns the first entry with the difficulty, and nothing exactly when none has it. |
| LeetcodeStats.CountIgnoresOtherDifficulty | app/api/leetcode-stats/route.ts:45-47 | Entries of another difficulty (such as "All") do not affect the count of a difficulty. |
| LeetcodeStats.RoundedPercentage | app/api/leetcode-stats/route.ts:57-59 | `Math.round(x / total * 100)` is the integer p with 100x/total within half a unit of p (halves round up). |
| LeetcodeStats.PercentageAtMost100 | app/api/leetcode-stats/route.ts:57-59 | A share of the total rounds to at most 100. |
| LeetcodeStats.Percentage | app/api/leetcode-stats/route.ts:57-59 | Each percentage is the rounded share of the total when something is solved, 0 otherwise, and never above 100. |
| LeetcodeStats.NatToDecimal | app/api/leetcode-stats/route.ts:52 | The ranking is rendered as a non-empty string of decimal digits without a leading zero. |
| LeetcodeStats.DecimalRoundTrip | app/api/leetcode-stats/route.ts:52 | Reading the rendered digits back gives the ranking. |
| LeetcodeStats.RankingLabel | app/api/leetcode-stats/route.ts:41-52 | The label starts with `#`; a missing or zero ranking shows "#Not available", a positive one its decimal digits. |
| LeetcodeStats.Transform | app/api/leetcode-stats/route.ts:36-60 | A missing `data` or `matchedUser` yields the error object; otherwise the counts come from the entries, the total is their sum, the label is the ranking label, and each percentage is that count's percentage of the total (at most 100, 0 for a zero total). |
| LeetcodeStats.RoundedSharesSumNear100 | app/api/leetcode-stats/route.ts:57-59 | Three rounded shares of a positive total add up to between 99 and 101. |
| LeetcodeStats.PercentagesSumNear100 | app/api/leetcode-stats/route.ts:49-59 | In every successful reply with something solved, the three percentages add up to between 99 and 101. |
| LeetcodeStats.TypicalResponse | app/api/leetcode-stats/route.ts:43-52 | A reply listing All, Easy, Medium and Hard counts yields the sum of the last three as the total and `#` with the ranking digits as the label. |
| SendEmail.Sender | app/actions/send-email.ts:28 | A non-empty EMAIL_FROM is the sender; otherwise "Portfolio Contact" at EMAIL_USER, printed as `undefined` when that is unset. |
| SendEmail.Recipient | app/actions/send-email.ts:29 | A non-empty EMAIL_TO is the recipient, otherwise EMAIL_USER. There is no recipient exactly when EMAIL_TO is empty or unset and EMAIL_USER is unset. |
| SendEmail.MailOptionsFor | app/actions/send-email.ts:27-51 | Replies go to the sender's address, the subject is prefixed with "Portfolio Contact: ", and sender and recipient follow the environment rules. |
| SendEmail.TextCarriesFields | app/actions/send-email.ts:32-38 | The plain-text body holds the name, the e-mail and the message verbatim at their template positions. |
| SendEmail.HtmlMessageSegment | app/actions/send-email.ts:39-50 | The HTML body's message paragraph is the message with every newline turned into `<br>`, so it holds no newline and is three characters longer per line break. |
| SendEmail.ResultOf | app/actions/send-email.ts:54-60 | The action reports success with its success message exactly when the transport delivers, and the failure message when it throws. |
| SendEmail.Send | app/actions/send-email.ts:29-60 | Without a recipient (unset or empty) the action reports the failure message. It succeeds exactly when the recipient is non-empty and the transport delivers. |
| Contact.WithField | components/contact.tsx:59-64 | A change event sets the named field and keeps every other field. |
| Contact.StatusAfter | components/contact.tsx:71-109 | The status shows the action's result, or failure with the unexpected-error message when the call throws. |
| Contact.FormAfter | components/contact.tsx:79-98 | The form is cleared after a successful send and kept otherwise. |
| Contact.SubmitThroughAction | components/contact.tsx:72-98 | Composed with the action: the form clears and success is shown exactly when the mail is delivered; a transport failure keeps the form and shows the action's failure message. |
| Contact.ContactForm.constructor | components/contact.tsx:34-44 | The form starts empty, not submitting, with no status. |
| Contact.ContactForm.HandleChange | components/contact.tsx:59-64 | Typing updates one field of the form state and nothing else. |
| Contact.ContactForm.BeginSubmit | components/contact.tsx:66-72 | Submitting sends the current form, disables the button and clears the status. |
| Contact.ContactForm.FinishSubmit | components/contact.tsx:71-112 | When the call settles the status and the form follow the outcome and the button is enabled again. |
| CseBackground.MakeParticle | components/cse-3d-background.tsx:28-32 | A particle from six draws lies in the placement box (x, y in [-10, 10), z in [-10, 0)), shows 0 or 1, and has scale in [0.5, 1) and speed in [0.01, 0.03). |
| CseBackground.GenerateBinaryParticles | components/cse-3d-background.tsx:25-35 | The generator yields count particles, the i-th made from draws 6i to 6i + 5, each well formed. |
| CseBackground.FallStaysInBand | components/cse-3d-background.tsx:41-45 | A frame keeps a particle inside x in [-10, 10), y in [-10, 10]; only a particle already near the bottom wraps. |
| CseBackground.BinaryGroup.constructor | components/cse-3d-background.tsx:50-63 | Each rendered child starts at its particle's position. |
| CseBackground.BinaryGroup.Frame | components/cse-3d-background.tsx:37-47 | Without the group nothing moves; otherwise each child falls by its speed, a child below -10 goes back to 10 with a fresh x, and one draw is used per wrapping child, in child order. |
| CseBackground.CoinFloor | components/cse-3d-background.tsx:93 | `Math.floor(Math.random() * 2)` is 0 for draws below one half and 1 otherwise. |
| CseBackground.CircuitPathFrom | components/cse-3d-background.tsx:79-110 | A path starts inside the placement box and takes two or three right-angled segments of length 0.5 to 1.5 in one plane. |
| CseBackground.GenerateCircuitLines | components/cse-3d-background.tsx:75-121 | Every line passes the two-point guard, so exactly count lines are produced, each a circuit path in the theme colour with width in [0.5, 1.5). |
| CseBackground.GenerateScene | components/cse-3d-background.tsx:394-395 | The scene has 50 binary particles and 10 circuit lines on mobile and 100 and 20 otherwise; every particle is well formed and every line is a circuit path in the theme colour. |
| CseBackground.CircuitGroup.constructor | components/cse-3d-background.tsx:72 | The circuit group starts unrotated. |
| CseBackground.CircuitGroup.Frame | components/cse-3d-background.tsx:123-126 | Each frame turns the group by 0.0005 about z while it is mounted. |
| CseBackground.Spin | components/cse-3d-background.tsx:170 | A symbol turns 0.002 per frame, positive for even children and negative for odd ones. |
| CseBackground.NeighboursCounterRotate | components/cse-3d-background.tsx:169-171 | Neighbouring symbols turn at the same rate in opposite directions. |
| CseBackground.SymbolGroup.constructor | components/cse-3d-background.tsx:151-163 | The symbol group starts unrotated about y, its children at their generated angles. |
| CseBackground.SymbolGroup.Frame | components/cse-3d-background.tsx:165-172 | Each frame turns the group by 0.001 about y and each child by its spin about z, and does nothing without the group. |

## Left out

- Rendering, styling, motion animations, theming and the three.js scene graph are outside the model. Only the state these components keep and compute is modelled.
- Timers (`setTimeout`, `setInterval`, effect clean-up) are not scheduled. The method for each callback is called when the timer would fire, and `Typewriter.Delay` gives the delay.
- The typewriter's inner `setTimeout(() => {}, 1000)` has an empty callback and changes no state, so there is nothing to model. Because it is never cleared it does not delay the next tick either.
- Typewriter.TypewriterEffect: a change of the `texts` prop while mounted is not modelled; the list is fixed when the effect is created.
- Typewriter: both hero components pass a new `texts` array literal on every render (components/hero-section.tsx:315, components/hero.tsx:199), so any re-render clears and re-arms the pending tick. In components/hero.tsx every `mousemove` sets the cursor position (lines 17 and 33) and so re-renders; while the pointer keeps moving no tick fires. The millisecond figures in the typewriter rows are therefore sums of the scheduled delays, not elapsed time. The sequence of states is unaffected.
- Page.BackgroundFallback.HandleError: the listener reads the `useFallback` it captured when it was registered (app/page.tsx:70, re-registered at 80-81). Two errors before the first flag change renders both see `false`, and the page stays on the simple background. The model assumes each error reaches a listener registered after the previous flag change rendered.
- ActiveSection.Provider.HandleScroll: the listener reads the `timeOfLastClick` it captured when it was registered (components/active-section-context.tsx:29, re-registered at 48-50). A scroll event between a click and the next render still uses the earlier click time. The model assumes each scroll reaches a listener registered after the last click rendered.
- Strings: JavaScript's `length`, `substring` and `replace` count UTF-16 code units, while the model's strings are sequences of Unicode scalar values. The two differ only for characters outside the Basic Multilingual Plane; the site's words are ASCII.
- SendEmail.Send: nodemailer's refusal of a message without recipients, whether `to` is unset or empty, is modelled as a transport that throws.
- `Date.now()`, `window.scrollY`, `window.innerHeight`, `offsetTop` and `document.getElementById` are parameters. `scrollIntoView` has no state in the model.
- Projects.Carousel.SelectDot: requires the dot index to be in range, which holds for every dot the source renders.
- Projects: the descriptions, images and links of the projects are not modelled; only id, title, technologies, featured flag and colour are.
- LeetcodeStats.RoundedPercentage: the exact rounding of 100x/total may differ from IEEE `Math.round` on a few ties that are not exact in binary floating point.
- The `fetch` call to LeetCode and the JSON decoding are not modelled. The decoded reply is the input.
- LeetcodeStats.Transform: counts are natural numbers. A reply whose `profile` or `submitStats` is null throws a TypeError in the source; that case is not modelled.
- SendEmail: the nodemailer transport and its configuration (`EMAIL_HOST`, `Number(EMAIL_PORT) || 587`, `EMAIL_SECURE`, credentials) are not modelled. The transport's result is the `TransportOutcome` input.
- SendEmail.HtmlBody: fields are inserted without HTML escaping, as in the source; no property about escaping is claimed.
- Contact: toasts and the `console.error` logging are not modelled.
- CseBackground.CircuitPathFrom: the NaN guard on each point is vacuous over exact reals, so every segment adds a point.
- CseBackground.BinaryGroup.Frame: assumes the group has one child per generated particle, and takes at least as many draws as particles even though only wrapping children use them.
- CseBackground: the code-symbol generator (a symbol index and an angle drawn using `Math.PI`), the tech objects and the programming-language labels are not modelled. Only the symbols' per-frame rotation is.
- The background components that are not used by the CSE background, and the other page sections, are not part of this model.

## Findings

| source | as written | input that shows it | evidently intended | confidence | as-written member | corrected member |
|---|---|---|---|---|---|---|
| components/active-section-context.tsx:42 | `sections[i]` names the section by its position `i` in the list filtered down to elements that exist, but indexes the unfiltered name list | The page has no `testimonials` element; section tops 0, 800, 1600, 2400 and 3200, with the reference position at 3300, make the handler set "testimonials" | Name the section whose element was reached: "contact" | high; not executed | ActiveSection.NameAfterScroll (counterexample ActiveSection.ContactNamedTestimonials) | ActiveSection.IntendedNameAfterScroll (proved by ActiveSection.IntendedNameIsLastReachedSection) |

`ActiveSection.Provider.HandleScroll` models the handler as written, so the provider reproduces what the site does. The corrected function and its lemma state what the highlight is meant to be. The two agree whenever every listed section exists (`ActiveSection.AllPresentNamesMatch`).
