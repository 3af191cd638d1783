# Portfolio page state, modelled in Dafny

The repository is a single React page, `app/page.tsx`: a personal portfolio with a
theme switcher, a typing animation in the hero banner and two menus. Almost all of it
is markup. This project models the logic inside that markup:

- `ClassNames` (`class_names.dfy`): the `cn` utility (`filter(Boolean).join(' ')`),
  with `Join` and its partner `Split`, and the class strings that `Button`, `Card` and
  `Badge` build from their total variant/size tables.
- `Themes` (`themes.dfy`): the five-value `Theme` type. It is a subset type of
  `string`, like the source's string-literal union. Also here: the `themes` option
  table, its `some`/`find` lookups (`currentTheme`), the browser storage as a
  `map<string, string>` with `getItem`/`setItem`, and the load policy. A stored value
  is adopted only when it is present, non-empty and on the table.
- `Reveal` (`reveal.dfy`): the typing effect as a state machine. `Next` is one firing
  of the interval callback. It reveals one more character of the target, or clears
  the interval once the whole target is shown. `Run` is `n` firings. The lemmas prove
  three things: the reveal invariant holds; after `k <= |target|` firings the prefix
  of length `k` is shown; one more firing stops the interval, after which nothing
  changes.
- `Navigation` (`navigation.dfy`): the element id `scrollToSection` looks up. It is
  `sectionId.replace('#', '')`, which removes only the first `#`.
- `Skills` (`skills.dfy`): the skills table and `skillCategories`. This is
  `[...new Set(categories)]`: the distinct categories, in order of first appearance.
- `Portfolio` (`portfolio.dfy`): class `PortfolioState`. Its fields are the
  component's state (`mounted`, `theme`, `typedText`, both menu flags), the typing
  interval's counter `i` and whether that interval is live, and the injected storage.
  It has one method per effect or event handler. `Valid()` is the page invariant. Once
  mounted, the typing state satisfies the reveal invariant and the slot holds the
  current theme. `Tick` is proved against `Reveal.Next`, and the mount and
  theme-selection methods are proved against `Themes.LoadTheme`/`SaveTheme`.

Three facts about the code that the model makes explicit:
- The save effect writes only once `mounted` is true. Right after mounting it writes the
  adopted theme, so an invalid stored value is replaced by `"dark"`.
- `localStorage` is used without a guard.
- The firing after the last character is the one that clears the interval.

## Model

| member | source | states |
|---|---|---|
| `ClassNames.Compact` | app/page.tsx:115 | `filter(Boolean)`: every kept string is non-empty, a string is kept iff it is a non-empty argument, and nothing is kept iff every argument is empty |
| `ClassNames.CompactAppend` | app/page.tsx:115 | filtering treats each argument on its own: filtering `xs + ys` is filtering `xs` followed by filtering `ys` |
| `ClassNames.Cn` | app/page.tsx:114-116 | `cn` returns `""` exactly when every argument is empty |
| `ClassNames.CnAppend` | app/page.tsx:114-116 | an extra empty argument changes nothing; a non-empty one is appended after exactly one space, or stands alone when all earlier arguments were empty |
| `ClassNames.CnWords` | app/page.tsx:114-116 | for space-free class names with at least one non-empty, splitting the result on spaces gives back exactly the non-empty arguments, in their original order |
| `ClassNames.Join` | app/page.tsx:115 | `join` gives `""` for no parts, starts with the first part and ends with the last; `SplitJoin` is its inverse |
| `ClassNames.SplitJoin` | app/page.tsx:115 | `join` with a one-character separator is undone by splitting on it when no part contains the separator |
| `ClassNames.ButtonClass` | app/page.tsx:132-156 | a button's class string is base, variant class and size class joined by single spaces, plus `" " + className` only when `className` is non-empty |
| `ClassNames.CardClass` | app/page.tsx:173-176 | a card's class string is its base classes, plus `" " + className` only when non-empty |
| `ClassNames.BadgeClass` | app/page.tsx:192-204 | a badge's class string is base and variant class joined by a space, plus `" " + className` only when non-empty |
| `Themes.SomeHasValue` | app/page.tsx:224 | `themes.some(t => t.value === s)` holds iff some entry of the table has value `s` |
| `Themes.OptionsAreThemes` | app/page.tsx:23-67 | the table lists exactly the `Theme` literals: a string is some entry's value iff it is one of the five theme names |
| `Themes.OptionValuesDistinct` | app/page.tsx:41-67 | no theme appears twice on the table |
| `Themes.FindByValue` | app/page.tsx:257 | `find` returns nothing iff no entry has the value; otherwise it returns the first entry that has it |
| `Themes.CurrentTheme` | app/page.tsx:257 | `currentTheme` is defined for every theme, is an entry of the table and carries that theme |
| `Themes.GetItem` | app/page.tsx:223 | reading the slot gives the stored string when the key is present and nothing otherwise |
| `Themes.SetItem` | app/page.tsx:232 | writing the slot stores the value under the key and leaves every other key unchanged |
| `Themes.AdoptSaved` | app/page.tsx:221-226 | a stored value is adopted iff it is present and one of the five theme names (the empty string never is); otherwise the theme is kept |
| `Themes.SaveThenLoad` | app/page.tsx:221-234 | saving any theme and then loading gives that theme back, whatever else the store held |
| `Themes.LoadTheme` | app/page.tsx:213-226 | the page loads the stored value when it is a theme name, and the default `"dark"` when it is absent or invalid |
| `Themes.SaveTheme` | app/page.tsx:229-234 | the write-back stores the theme under `portfolio-theme` and leaves every other key as it was |
| `Themes.LoadSaveLoad` | app/page.tsx:221-234 | writing back the loaded theme and loading again gives the same theme |
| `Reveal.Next` | app/page.tsx:240-245 | a firing before the end advances the counter by exactly one and keeps the interval's state; a firing at the end keeps counter and text and clears the interval |
| `Reveal.Run` | app/page.tsx:239-245 | successive firings: from a counter within the target, `n` firings move the counter by `n`, stopping at the target's length |
| `Reveal.StartInv` | app/page.tsx:214 | the initial state (counter 0, empty text, interval live) satisfies the reveal invariant |
| `Reveal.NextInv` | app/page.tsx:238-245 | every firing keeps `count <= |target|`, `shown == target[..count]`, and "cleared only when complete" |
| `Reveal.RunInv` | app/page.tsx:238-245 | the invariant holds after any number of firings |
| `Reveal.NextGrows` | app/page.tsx:240-242 | a firing never decreases the counter, and the old text is a prefix of the new |
| `Reveal.RunGrows` | app/page.tsx:240-242 | across any number of firings the counter never decreases and the text only grows by extension (no shrinking, no looping) |
| `Reveal.RunFromStart` | app/page.tsx:238-242 | for `n <= |target|`, `n` firings from the start show exactly the first `n` characters, with the interval still live |
| `Reveal.RunCompletes` | app/page.tsx:240-245 | after `|target|` firings the whole text is shown; the next firing clears the interval, and any later state equals that final one |
| `Reveal.RunStopped` | app/page.tsx:243-245 | a state whose interval is cleared is not changed by further firings |
| `Reveal.TwoCharacterExample` | app/page.tsx:239-245 | for the target "Hi" the states are "H", then "Hi", then "Hi" with the interval cleared |
| `Navigation.FirstHash` | app/page.tsx:252 | returns the index of the first `#`, or the length when there is none |
| `Navigation.ElementId` | app/page.tsx:252 | the looked-up id is the argument with the character at its first `#` removed, or the argument itself when it has no `#` |
| `Navigation.ElementIdLength` | app/page.tsx:252 | exactly one character is removed when the argument contains `#`, none otherwise |
| `Navigation.ElementIdOfAnchor` | app/page.tsx:250-253 | the anchors the links pass (`"#" + id`, `id` hash-free) are looked up as `id` |
| `Navigation.ElementIdKeepsLaterHashes` | app/page.tsx:252 | only the first `#` is removed: `"##" + id` is looked up as `"#" + id` |
| `Skills.Categories` | app/page.tsx:258 | `skills.map(s => s.category)` has one entry per skill, in order |
| `Skills.FirstIndex` | app/page.tsx:258 | the index of the first occurrence: it holds the element and no earlier index does |
| `Skills.Distinct` | app/page.tsx:258 | `[...new Set(xs)]` has no duplicates and holds exactly the elements of `xs` |
| `Skills.DistinctInFirstAppearanceOrder` | app/page.tsx:258 | the set lists its elements in increasing order of their first index in `xs` |
| `Skills.DistinctOfSkillCategories` | app/page.tsx:69-81 | deduplicating the category column of the page's skills table gives Backend, Language, Database, Frontend, DevOps, API, in that order |
| `Skills.SkillCategories` | app/page.tsx:258 | `skillCategories` for the page's table is Backend, Language, Database, Frontend, DevOps, API |
| `Portfolio.PortfolioState.constructor` | app/page.tsx:212-216 | the initial state: not mounted, theme `"dark"`, empty text, both menus closed, no interval |
| `Portfolio.PortfolioState.LoadSavedTheme` | app/page.tsx:221-227 | the load effect, run once before mounting, marks the page mounted and sets the theme by the load policy from the stored value; nothing else changes |
| `Portfolio.PortfolioState.SaveCurrentTheme` | app/page.tsx:229-234 | the save effect writes the current theme under `portfolio-theme` only when mounted, and otherwise leaves the store unchanged; it keeps the page invariant |
| `Portfolio.PortfolioState.StartTyping` | app/page.tsx:237-239 | the typing effect, run once over the initial empty text, starts a live interval with its counter at 0: the reveal start |
| `Portfolio.PortfolioState.Mount` | app/page.tsx:220-248 | after mounting, the theme is what the store loads as, the store holds that theme, the typing state is the reveal start, and the page invariant holds |
| `Portfolio.PortfolioState.Tick` | app/page.tsx:239-245 | one firing changes the typing state exactly as `Reveal.Next` does, keeps the page invariant, and changes nothing else |
| `Portfolio.PortfolioState.ToggleThemeMenu` | app/page.tsx:310 | flips `themeMenuOpen` and nothing else |
| `Portfolio.PortfolioState.ToggleMobileMenu` | app/page.tsx:364 | flips `mobileMenuOpen` and nothing else |
| `Portfolio.PortfolioState.SelectTheme` | app/page.tsx:337-340 | sets the theme to the option's value and closes the theme menu whatever its state, leaving the mobile menu unchanged; the store then holds the pick, so a reload restores it |
| `Portfolio.PortfolioState.ScrollToSection` | app/page.tsx:250-255 | returns the id with its first `#` removed, closes the mobile menu whatever its state, and leaves theme, theme menu, store and typing untouched |

## Left out

- Rendering: JSX, Framer Motion props, icons, copy, the `theme-${theme}` wrapper class, and the loading spinner (app/page.tsx:260-788). Only the fact that no handler exists before mount is kept, as the handlers' `requires mounted`.
- `document.getElementById(...).scrollIntoView` and `window.open`. These are browser I/O. `ScrollToSection` returns the id that would be looked up, and a missing element is a no-op there.
- Storage failures. `localStorage` is an always-available map; a store that throws is not modelled.
- `setInterval` timing (the 100 ms cadence), the interval's cleanup on unmount, and remounting. These are runtime scheduling. `Tick` requires a live interval because the runtime fires only those.
- React's bail-out when a state setter receives the value it already holds. When the same theme is picked again, the save effect does not run, but the store already holds that theme, so the final state is the same.
- The `projects` and `socialLinks` tables, the floating-element positions, delays and skill-bar widths. These are static data and styling arithmetic.
- `ClassNames.CnWords`: the word-by-word round trip is stated only for space-free class names. The component tables hold multi-word entries, so `ButtonClass`, `CardClass` and `BadgeClass` state their exact strings instead.
- `ClassNames.Split`: models `split` only for a one-character separator, the only kind `cn`'s join uses.
- `Reveal`: a Dafny `char` is a Unicode scalar value, while `length` and `slice` in JavaScript count UTF-16 code units. The two agree on the page's ASCII `FullText`. For a target with characters outside the Basic Multilingual Plane, the generic lemmas do not describe what the page would show.
