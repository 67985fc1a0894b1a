# Portfolio site behaviour, modelled in Dafny

This project models the rule-bound core of a portfolio website's client-side
JavaScript, and proves properties of the model. It covers four pieces:

- **The portfolio grid** (`PortfolioManager`, js/portfolio.js):
  - the filter state machine, with its two `setTimeout` steps made explicit as begin, apply and settle;
  - the whole-token category match;
  - the single active filter button;
  - the project table behind the modal;
  - the modal's thumbnail gallery;
  - the number-key shortcuts.
- **The theme preference** (`ThemeManager`, `ThemeSync`, `ThemeAwareComponent`, js/themes.js):
  - light and dark themes over a key/value store under `portfolio-theme`;
  - load, toggle, set, preview, reset, the system-preference listener and cross-tab sync;
  - the body classes, meta colour, toggle icon and labels derived from the theme;
  - the chart palette.
- **Form and scroll rules** (js/main.js):
  - per-field and whole-form validation;
  - the e-mail regular expression;
  - the active navigation link;
  - the navbar and back-to-top flags;
  - the notification icon table.
- **Animation bookkeeping** (`AnimationManager`, js/animations.js):
  - the animation-type precedence and its dispatch;
  - the scroll observer that animates each element once;
  - the reveal transforms;
  - the stagger, hero and reveal delay schedules;
  - teardown.

The browser becomes inputs:

- Scroll offsets, stored values, the colour-scheme preference, observer entries, key presses and the set of elements present are parameters.
- Pages are values: class lists become sets, the store becomes a map, and an element's display becomes a datatype.
- Objects the code updates in place are classes with `modifies` clauses.

The JavaScript string built-ins the code relies on (`split`, `trim`, and `\s`) are modelled exactly in `Text`.

Files:

- `wrappers.dfy`: `Option`.
- `text.dfy`: `split`, `join`, `trim`, and the whitespace class.
- `portfolio.dfy`, `themes.dfy`, `animations.dfy`: one module each, named after js/portfolio.js, js/themes.js and js/animations.js; `themes.dfy` holds `ThemeManager`, `ThemeSync`, `ThemeAwareComponent`, the chart palette and the `KeyValueStore` standing in for `localStorage`.
- `contact_form.dfy`, `navigation.dfy`, `notifications.dfy`: the three parts of js/main.js.

## Model

| member | source | states |
|---|---|---|
| Text.Split | js/portfolio.js:76 | `split(' ')` yields at least one piece, and no piece contains the separator |
| Text.SplitWhole | js/portfolio.js:76 | the split is the one-piece list `[s]` exactly when `s` has no separator |
| Text.JoinSplit | js/portfolio.js:76 | joining the pieces with the separator gives back the input, so splitting loses nothing |
| Text.SplitTokens | js/portfolio.js:76-77 | a string is one of the pieces iff it occupies a stretch of the input bounded by separators or the ends |
| Text.TrimStart | js/main.js:190 | the result is a suffix of the input, starts with non-whitespace or is empty, and only whitespace was dropped |
| Text.TrimEnd | js/main.js:190 | the result is a prefix of the input, ends with non-whitespace or is empty, and only whitespace was dropped |
| Text.Trim | js/main.js:190 | the trimmed value is the slice of the input left after dropping only whitespace at both ends; it has no whitespace at either end, and is empty iff the value is all whitespace |
| Text.TrimIsSlice | js/main.js:190 | trimming the end after the start leaves a slice of the input with only whitespace outside it |
| Portfolio.ShouldShowIsTokenMatch | js/portfolio.js:76-77 | an item is shown iff the filter is `all` or is a whole space-delimited token of its `data-category` |
| Portfolio.NoSubstringMatch | js/portfolio.js:76-77 | a filter other than `all` does not select a one-token category different from it, so `web` does not select `webdesign` |
| Portfolio.SecondTokenMatches | js/portfolio.js:76-77 | a filter without spaces selects a category that lists it after another token, as `web` selects `uiux web` |
| Portfolio.Applied | js/portfolio.js:79-86 | after the apply step an item is hidden iff the rule rejects it, carries `filter-show` iff it is shown, never keeps `filtering`, and keeps its category |
| Portfolio.VisibleItems | js/portfolio.js:700-704 | an item is returned iff it is among the items and its display is not `none` |
| Portfolio.VisibleItemsAppend | js/portfolio.js:700-704 | keeping the visible items commutes with concatenation, so the original order is preserved |
| Portfolio.VisibleAfterApply | js/portfolio.js:74-87 | after the apply step, an item is visible iff the visibility rule selects it |
| Portfolio.GetProjectData | js/portfolio.js:134-270 | a record exists exactly for `ecommerce`, `banking`, `dashboard`, `branding`, `lms` and `fooddelivery`, and each has three images |
| Portfolio.FilterForKey | js/portfolio.js:667-675 | exactly the keys `1` to `5` select a filter: `1` gives `all`, `2` `uiux`, `3` `web`, `4` `mobile` and `5` `branding` |
| Portfolio.FilterKeysDistinct | js/portfolio.js:667-673 | different keys select different filters |
| Portfolio.Gallery.constructor | js/portfolio.js:291-298 | the gallery opens on the first image with only thumbnail 0 active |
| Portfolio.Gallery.ClickThumbnail | js/portfolio.js:365-376 | clicking thumbnail `k` shows image `k` and leaves only thumbnail `k` active, so exactly one thumbnail stays active |
| Portfolio.PortfolioManager.constructor | js/portfolio.js:5-12 | the manager starts on filter `all` with no transition in flight |
| Portfolio.PortfolioManager.FilterPortfolio | js/portfolio.js:63-73 | a request during a transition, or for the current filter, changes nothing (so a first `all` is a no-op); otherwise it takes the filter, starts the transition, marks every item `filtering` and arms the apply timer |
| Portfolio.PortfolioManager.ApplyStep | js/portfolio.js:74-91 | every item becomes `Applied` under the filter in effect, nothing else changes, and the settle timer is armed |
| Portfolio.PortfolioManager.SettleStep | js/portfolio.js:92-99 | the transition ends and only `filter-show` is removed from every item |
| Portfolio.PortfolioManager.UpdateActiveFilter | js/portfolio.js:103-108 | afterwards button `b` is the only active button, and the button filters and everything else are unchanged |
| Portfolio.PortfolioManager.FindButton | js/portfolio.js:678 | the first button whose `data-filter` is the filter, or none when no button has it |
| Portfolio.FirstWithFilter | js/portfolio.js:678 | the first index with that filter, or none when no entry has it |
| Portfolio.PortfolioManager.SelectFilterAsWritten | js/portfolio.js:23-29 | the handler as written: button `b` becomes the only active one even when a transition in flight turned the request away |
| Portfolio.PortfolioManager.SelectFilter | js/portfolio.js:23-29 | the corrected handler: the highlight moves only when the button's filter is in effect afterwards, so it keeps every highlighted button naming the current filter |
| Portfolio.PortfolioManager.ClickFilterButton | js/portfolio.js:23-29 | a click requests the button's filter (turned away mid-transition or when already in effect, otherwise taken with every item marked `filtering` and the apply timer armed), then makes the clicked button the only active one either way |
| Portfolio.PortfolioManager.FilterByCategory | js/portfolio.js:688-694 | with no button for the category nothing changes; otherwise the category is requested as above and the first such button becomes the only active one, whether or not the request was taken |
| Portfolio.PortfolioManager.OnKeyDown | js/portfolio.js:665-684 | the key's default action is prevented exactly for `1` to `5`, wherever the focus is and whether or not a button has the filter; an unmapped key, or a mapped key with no matching button, changes no portfolio state; otherwise the key's filter is requested and its first button becomes the only active one, whether or not the request was taken |
| Portfolio.PortfolioManager.OnKeyDownOutsideFields | js/portfolio.js:665-684 | the corrected key handler: a key typed in a form field is never prevented and changes nothing; elsewhere it acts as `OnKeyDown` |
| Portfolio.PortfolioManager.OpenProjectModal | js/portfolio.js:118-132 | an unknown id opens nothing; a known id opens a fresh gallery of its images showing the first |
| Portfolio.RejectedClickMovesHighlight | js/portfolio.js:23-29 | clicking `web` then `mobile` mid-transition leaves `mobile` highlighted while `web` is in effect |
| Portfolio.DigitInFieldSwallowed | js/portfolio.js:665-681 | typing `3` in a form field as written is prevented and switches the portfolio to `web` |
| Portfolio.DigitInFieldTyped | js/portfolio.js:665-681 | with the corrected handler the same keystroke is not prevented and the portfolio stays on `all` |
| Portfolio.RejectedClickKeepsHighlight | js/portfolio.js:23-29 | with the corrected handler the same clicks leave `web` highlighted and the state consistent |
| Themes.SystemTheme | js/themes.js:46-51 | the system theme is dark iff the colour-scheme query matches, and light otherwise |
| Themes.Toggled | js/themes.js:85 | a toggle always yields light or dark, and never the theme it started from |
| Themes.ToggleTwice | js/themes.js:85 | toggling twice returns to the start exactly for `light` and `dark` |
| Themes.WithThemeClass | js/themes.js:107-110 | the body gets `t-theme`, keeps no other light/dark theme class, and keeps every unrelated class |
| Themes.MetaColor | js/themes.js:159-164 | the meta colour is `#ffffff` for light and `#1a202c` for dark; any other theme finds no table entry and the content becomes `undefined` |
| Themes.ToggleLabelNamesNextTheme | js/themes.js:135-143 | the toggle's label names the theme a toggle switches to, and the moon icon shows iff that theme is dark |
| Themes.GetChartColors | js/themes.js:300-310 | text and grid colours differ from the background, and the dark palette is chosen iff the theme is `dark` |
| Themes.ChartPalettesMirror | js/themes.js:300-310 | a theme's text colour is the dark palette's background exactly when the theme is not dark, and every theme other than dark gets the light palette |
| Themes.KeyValueStore.GetItem | js/themes.js:34 | `getItem` returns the stored value, or nothing iff the key is absent |
| Themes.KeyValueStore.SetItem | js/themes.js:123 | `setItem` stores the value under the key and changes no other entry |
| Themes.KeyValueStore.RemoveItem | js/themes.js:248 | `removeItem` drops the key and changes no other entry |
| Themes.ThemeAwareComponent.constructor | js/themes.js:255-259 | a component starts on `light` |
| Themes.ThemeManager.constructor | js/themes.js:5-30 | the start theme is the set stored value, else the system theme; it is applied (its class is the only light/dark class, with every other body class kept), the toggle is in sync with only its sun/moon class replaced, `theme-transition` is added, and no event has been sent |
| Themes.ThemeManager.LoadTheme | js/themes.js:32-44 | a non-empty stored value is used as it is, else the system theme; the store is not written |
| Themes.ThemeManager.ApplyTheme | js/themes.js:105-120 | the body class, `data-theme` and meta colour follow the theme; `currentTheme` and the toggle are untouched |
| Themes.ThemeManager.SaveTheme | js/themes.js:122-124 | the store holds the theme under `portfolio-theme` and nothing else changes in it |
| Themes.ThemeManager.UpdateThemeToggleIcon | js/themes.js:126-148 | without a toggle nothing changes; otherwise `aria-pressed` is true iff the theme is dark; with an icon, the sun/moon class is replaced by the moon for light and the sun otherwise, its other classes kept, with the matching label and title; without an icon, the icon classes, label and title are untouched (`ToggleUpdated`) |
| Themes.ThemeManager.DispatchThemeChangeEvent | js/themes.js:220-225 | the event carries the theme, and every listening component takes it |
| Themes.ThemeManager.SetTheme | js/themes.js:95-103 | `currentTheme`, the stored value and the dispatched event detail all equal the theme, which is applied and shown on the toggle exactly as `updateThemeToggleIcon` does (other icon classes kept) |
| Themes.ThemeManager.ToggleTheme | js/themes.js:84-93 | the theme becomes the toggled one; it is stored, announced to every component, applied with its class the only light/dark class, and shown on the toggle as `updateThemeToggleIcon` does |
| Themes.ThemeManager.OnToggleKeyDown | js/themes.js:60-65 | Enter and Space toggle the theme with every `toggleTheme` effect, toggle update included; any other key changes nothing, the toggle included |
| Themes.ThemeManager.PreviewTheme | js/themes.js:241-244 | the page shows the theme and the toggle is updated as `updateThemeToggleIcon` does, while `currentTheme`, the store and the events stay as they were |
| Themes.ThemeManager.ResetToSystemTheme | js/themes.js:247-251 | afterwards the theme is the system theme, the store holds it (not nothing), every component has it, its class is the only light/dark class, and the toggle is updated as `updateThemeToggleIcon` does |
| Themes.ThemeManager.OnSystemThemeChange | js/themes.js:69-81 | in any state: while no theme is stored, the theme follows the system, with its class the only light/dark class, and the toggle is updated as `updateThemeToggleIcon` does; with a theme stored, the page and the toggle are untouched; the store is never written |
| Themes.ThemeSync.constructor | js/themes.js:339-342 | the sync is bound to its manager |
| Themes.ThemeSync.OnStorage | js/themes.js:344-355 | in any state: for the theme key with a non-empty value different from the current theme, the value is adopted, with its class the only light/dark class, and the toggle is updated as `updateThemeToggleIcon` does; otherwise the page and the toggle are untouched; the store is never written |
| ContactForm.EmailCheckMatchesPattern | js/main.js:202-207 | the check in words (no whitespace, one `@` with text before it, a `.` after it with text on both sides) accepts exactly the strings `^[^\s@]+@[^\s@]+\.[^\s@]+$` matches |
| ContactForm.EmailCheckSound | js/main.js:203-204 | every string the check in words accepts matches the regular expression |
| ContactForm.EmailCheckComplete | js/main.js:203-204 | every string matching the regular expression passes the check in words |
| ContactForm.VerdictRules | js/main.js:189-217 | a field passes iff no rule fails; the project-type message overrides the others; the required and e-mail rules never fail together |
| ContactForm.MarkFor | js/main.js:219-224 | a field is marked with an error iff it failed, and the mark carries the failing message |
| ContactForm.InputMarks | js/main.js:232-236 | validation leaves one mark per input |
| ContactForm.InputMarksAt | js/main.js:232-236 | each input's mark is the one its own verdict gives |
| ContactForm.Form.ShowFieldError | js/main.js:256-266 | the target gets the message and the `error` class; no other mark changes |
| ContactForm.Form.ClearFieldError | js/main.js:268-276 | the target's message is emptied and its `error` class removed; no other mark changes |
| ContactForm.Form.ValidateField | js/main.js:189-227 | it returns true iff the field's verdict is a pass, and leaves exactly that field's mark set to its verdict |
| ContactForm.Form.ValidateNext | js/main.js:233-235 | one pass of the loop validates input `n` and sets its mark |
| ContactForm.Form.ValidateInputs | js/main.js:232-236 | every input is validated, with no short cut after the first failure; the result is true iff no input is marked |
| ContactForm.Form.ValidateForm | js/main.js:229-254 | the form is valid iff no input is marked, a project type is checked and privacy is accepted; the group and privacy messages are shown when those fail |
| ContactForm.FormValidity | js/main.js:229-254 | the form's verdict equals "every field passes its own rules, a project type is checked, and privacy is accepted" |
| Navigation.ActiveSectionIsLastReached | js/main.js:84-91 | the active id is that of a section with `pageYOffset >= offsetTop - 200` after which none qualifies, or `""` when none qualifies |
| Navigation.UpdateActiveLink | js/main.js:80-98 | the loop computes the active section, and exactly the links whose href is `#` plus its id become active |
| Navigation.Navbar.constructor | js/main.js:55 | `lastScrollTop` starts at 0 with the bar neither shaded nor hidden |
| Navigation.Navbar.OnScroll | js/main.js:56-73 | the bar is `scrolled` iff the offset exceeds 100, `nav-hidden` iff it exceeds both the last offset and 200, and the offset is remembered |
| Navigation.BackToTop.OnScroll | js/main.js:311-317 | the button is visible iff `pageYOffset` exceeds 300 |
| Notifications.NotificationIcon | js/main.js:472-480 | the icon always comes from the table (inherited object members aside, see below) |
| Notifications.NotificationIconTable | js/main.js:472-480 | success, error and warning get their own icons, and the info icon is given exactly to every other type |
| Animations.GetAnimationType | js/animations.js:85-91 | the type follows the precedence left > right > scale > stagger, with `fadeInUp` iff none of those classes is present |
| Animations.AnimateElement | js/animations.js:59-83 | the default branch is taken exactly for a type with no named case, and `stagger` staggers the children |
| Animations.DefaultUnreachable | js/animations.js:59-91 | no type that `getAnimationType` returns reaches the default branch, and every slide ends at rest |
| Animations.RevealTransform | js/animations.js:460-469 | a known direction gets its transform, and an unknown one gets the `up` transform |
| Animations.IntersectingTargets | js/animations.js:35-40 | an element is counted iff some entry for it intersects |
| Animations.Observed | js/animations.js:35-40 | every entry the callback animates intersects, and its element had not been animated before |
| Animations.ObservedDistinct | js/animations.js:35-40 | the animated entries come in order, and no element is animated twice in one callback |
| Animations.ObservedTargets | js/animations.js:35-40 | the elements animated are exactly the intersecting ones not animated before |
| Animations.HeroScheduleSlots | js/animations.js:226-238 | each hero timer waits 200 ms per place in the list, places rise, and a place has a timer iff its element is present, so missing elements keep their slot |
| Animations.Delays | js/animations.js:148-151 | timer `i` waits `i * step` ms |
| Animations.AnimationManager.constructor | js/animations.js:5-11 | nothing is animated yet, and the scroll observer is registered iff reduced motion is off |
| Animations.AnimationManager.OnScrollEntries | js/animations.js:35-40 | the callback animates exactly the `Observed` entries, each with the effect `EffectOf` its classes choose, and afterwards every intersecting element is recorded as animated |
| Animations.AnimationManager.EffectOf | js/animations.js:37 | an animated element always gets a named animation, never the default; `OnScrollEntries` returns it for each animated entry |
| Animations.AnimationManager.StaggerAnimation | js/animations.js:141-155 | child `i` starts after `i * 100` ms |
| Animations.AnimationManager.AnimateHeroSection | js/animations.js:214-239 | no timers under reduced motion; otherwise the hero schedule for the elements present |
| Animations.AnimationManager.RevealElement | js/animations.js:454-476 | under reduced motion only opacity is set; otherwise the element fades in from its direction's transform |
| Animations.AnimationManager.RevealElements | js/animations.js:479-485 | element `i` is revealed after `i * stagger` ms (100 by default), from below |
| Animations.AnimationManager.Destroy | js/animations.js:488-494 | afterwards `observers` and `animatedElements` are both empty |

## Left out

- DOM and browser APIs are replaced by inputs and fields:
  - `querySelector`, `classList`, `style`, `IntersectionObserver`, `matchMedia`, `localStorage`, `CustomEvent` and `storage` events.
  - Elements are numbers or indices, class lists are sets, and the store is a map in a shared object.
- Timers and `requestAnimationFrame` are not modelled as real time:
  - The portfolio transition is three explicit steps.
  - The animation schedules are returned as delay lists; what each timer does to an element's style is not modelled.
- `debounce` and `throttle` are left out, because their meaning is timer-driven.
- Floating-point behaviour is left out:
  - easing, `animateValue`, counters, parallax, ripple and tooltip geometry, scroll progress;
  - particles and glitch (`Math.random`);
  - `pageYOffset` is taken as a whole number of pixels.
- Injected CSS, the HTML templates of the modal and lightbox, form submission, and notification lifetimes are presentation or I/O.
- The theme notification and the toggle's pulse animation in `toggleTheme` are left out for the same reason.
- Event-handler registration is left out: the modal's Escape and overlay handlers, hover, touch, typing and other decorative effects. The Escape-key handler is not removed when the modal closes by button or overlay; the model does not capture that.
- Chart and map adapters' calls into their libraries, favicon probing through `Image`, and service-worker registration are calls into code this model cannot see.
- The lightbox is left out.
- Portfolio.GetProjectData: the `description`, `challenge` and `solution` prose of each project is not carried. The other fields are reproduced.
- Themes.MetaColor: the colour table is a plain two-key lookup. `colors[theme]` would also find inherited object members for a theme named, say, `constructor`, and write their text; no caller passes such a name, so that prototype quirk is not modelled.
- Notifications.NotificationIcon: the icon table is a plain four-key map. `icons[type] || icons.info` would return an inherited member such as `constructor` or `toString` for a type of that name instead of the info icon; no caller passes one, so that prototype quirk is not modelled.
- Notifications.NotificationIconTable: states the info fallback for every unknown type; with the same prototype quirk, a type naming an inherited object member would not get it.
- Animations.RevealTransform: the transform table is a plain five-key map. `transforms[direction] || transforms.up` would return an inherited member for a direction such as `constructor` instead of the `up` transform; no caller passes one, so that prototype quirk is not modelled.
- Portfolio.GetProjectData: the table is a plain six-key match. `projects[projectId] || null` would also return inherited object members such as `constructor`; that prototype quirk is not modelled.
- Portfolio.Gallery.constructor: requires a non-empty image list. Every project has three images, and with none the page would show an `undefined` source.
- Portfolio.PortfolioManager.FindButton: `querySelector('[data-filter=…]')` finds the first element with that attribute; only the filter buttons are searched.
- ContactForm.Form.ShowFieldError: each input has its own message slot. In the page, inputs sharing a `.form-group` share one `.form-error` element, so the last message written wins there.
- ContactForm.Form.ShowFieldError, ContactForm.Form.ClearFieldError: every target is assumed to sit in a `.form-group`, `.checkbox-group` or `.checkbox-item`. In the page, a field outside all three leaves `formGroup` null and `formGroup.querySelector` throws (js/main.js:257-258, 269-270); the model always writes the mark. ContactForm.Form.ValidateField, ContactForm.Form.ValidateNext and ContactForm.Form.ValidateInputs inherit this.
- ContactForm.Form.ValidateForm: the form is assumed to have a `.checkbox-group`. Without one, `showFieldError(null, …)` throws at `field.closest` (js/main.js:242-243, 257) when no project type is checked; the model marks the group instead.
- ContactForm.Form.ValidateForm: the page's missing-privacy-checkbox case, where `privacyCheckbox.checked` would throw, is not modelled; the checkbox is assumed present.
- `getCurrentFilter`, `getCurrentTheme`, `isDarkMode` and `isLightMode` are field reads and are not modelled separately.
- Themes.ThemeManager.ApplyTheme: a theme containing ASCII whitespace (a stored or synced value such as `dark mode`) makes `classList.add` throw at js/themes.js:110, so `data-theme` and the meta colour are not set and, on the constructor path, `init` stops. The model applies such a theme like any other and does not capture the exception; the constructor, `LoadTheme`, `SetTheme`, `PreviewTheme` and `ThemeSync.OnStorage` inherit this.
- Portfolio.PortfolioManager.ApplyStep: every item is given a category string. In the page, an item without `data-category` makes `.split` throw inside the 150 ms timer (js/portfolio.js:76); later items are not updated, the settle timer is never armed, `isAnimating` stays true and every later `filterPortfolio` returns at js/portfolio.js:64. The model does not capture that locked state.
- Themes.KeyValueStore: the store never fails. `localStorage` can throw when storage is blocked (js/themes.js:34, 74, 123, 248), and the source has no guard; those exceptions are not modelled.
- Animations.AnimationManager.RevealElements: a negative `stagger` gives negative delays, which `setTimeout` treats as 0; the delays are stated as computed.

## Findings

| source | as written | input that shows it | evidently intended | confidence | as-written member | corrected member |
|---|---|---|---|---|---|---|
| js/portfolio.js:23-29 | the click handler (and the same pattern at js/portfolio.js:679-682 and 690-693) calls `updateActiveFilter(button)` even when `filterPortfolio` returned early because a transition is in flight | buttons `all` (active), `web`, `mobile`; click `web`, then click `mobile` before the 450 ms of timers run: `mobile` is highlighted while `web` stays in effect | the highlight moves only when the request was taken, so the active button always names `currentFilter` | not executed | Portfolio.PortfolioManager.SelectFilterAsWritten, Portfolio.RejectedClickMovesHighlight, Portfolio.PortfolioManager.ClickFilterButton | Portfolio.PortfolioManager.SelectFilter, Portfolio.RejectedClickKeepsHighlight |
| js/portfolio.js:665-676 | the number-key listener sits on the whole document and calls `preventDefault()` for every key `1` to `5`, without looking at the focused element and before checking for a button | with the focus in a text field of the contact form, type `3`: the digit never reaches the field, and the portfolio switches to `web` | digits typed into a form field reach the field and leave the portfolio alone | not executed | Portfolio.PortfolioManager.OnKeyDown, Portfolio.DigitInFieldSwallowed | Portfolio.PortfolioManager.OnKeyDownOutsideFields, Portfolio.DigitInFieldTyped |
