# Blog front-end core, modelled in Dafny

This project models the logic of a static blog front-end written in browser JavaScript.
It has four parts.

- **Search and filter** (`search.dfy`, module `Search`). The in-memory post list, the
  active tag and the committed search query are the state of a `SearchState` class.
  Its setters reassign them. `Filter` is the stable filter they drive: an exact tag
  test, then a case-insensitive substring search over title, excerpt, description and
  tags. The debounced search box is a `SearchBox` class over an explicit clock. Each
  keystroke cancels the pending commit and schedules one 300 ms later; Enter commits
  at once.
- **Front matter** (`post_loader.dfy`, module `PostLoader`). `parseFrontMatter` splits
  a post file into its leading block and body:
  - the block is delimited by `---\n` and the first following `\n---\n`;
  - the block is split into `key: value` lines, quotes are removed, and the `tags` key
    is special: it tries `JSON.parse` and otherwise falls back to a comma split;
  - the regular expression is replaced by an explicit delimiter search;
  - `JSON.parse` is a parameter.
- **Tag cloud and post list** (`app.dfy`, module `App`). This covers the tag counting
  and sorting of `renderTags`, the tag button's mapping to the tag filter, and the
  excerpt line's fallback to the description. Counting is two nested loops over a
  dictionary. The in-place sort is a stable insertion sort on an `array`, with a ghost
  permutation that records where each element came from.
- **Theme** (`theme.dfy`, module `Theme`). A `ThemeState` class holds the stored
  preference and the document's `data-theme` attribute. It models the initial apply,
  `applyTheme`, `toggleTheme` and the operating-system change handler.
- **String built-ins** (`text.dfy`, module `Text`). These are stated as the JavaScript
  built-ins behave: `toLowerCase` (ASCII letters), `trim` (the JavaScript white-space
  and line-terminator set), `includes`, `indexOf` and `split` on one character.

Two behaviours of the code are worth stating outright:

- **Tag counts.** The count loop (js/app.js:118-119) increments once per occurrence, so
  a tag listed twice by one post counts twice.
- **Toggling.** Every attribute value other than `dark`, an unknown one included,
  toggles to `dark` (js/theme.js:39-40).

Both `tagCounts` (js/app.js:116) and the front-matter `metadata` (js/post-loader.js:25)
are plain object literals. In the front matter, a `__proto__:` line reaches the
inherited setter and creates no key; the model keeps that behaviour.

## Model

| member | source | states |
|---|---|---|
| Text.Lower | js/search.js:44-48 | same length; each character lower-cased, only ASCII capitals change; no capital remains |
| Text.Contains | js/search.js:44-48 | `includes`: the substring occurs at some offset; the empty string occurs in every string |
| Text.Trim | js/search.js:28 | result is the infix between the leading and trailing white space; everything cut off is white space and the result neither starts nor ends with it |
| Text.LowerTrim | js/search.js:28 | lower-casing and trimming commute |
| Text.TrimIdempotent | js/search.js:28 | trimming twice is trimming once |
| Text.IndexOf | js/post-loader.js:29 | first position of the character, or -1 exactly when it is absent |
| Text.Split | js/post-loader.js:28 | at least one piece; no piece contains the separator |
| Text.SplitJoin | js/post-loader.js:28 | joining the pieces with the separator gives the string back |
| Text.SplitCount | js/post-loader.js:47-49 | a split gives one more piece than there are separators |
| Text.SplitAfter | js/post-loader.js:49 | text without the separator followed by the separator is the first piece |
| Search.PassesTag | js/search.js:38-40 | with a non-empty active tag, the post must list it exactly; otherwise every post passes |
| Search.MatchesQuery | js/search.js:44-48 | the query occurs in the lower-cased title, excerpt, description or some tag |
| Search.Keep | js/search.js:38-53 | a post stays iff it passes the tag test and, for a non-empty query, matches the query |
| Search.Filter | js/search.js:35-58 | never longer than the input; every returned post is from the input and passes the tag and search tests |
| Search.FilterIsSubsequence | js/search.js:35-36 | the result is an order-preserving subsequence of the posts |
| Search.FilterMultiplicity | js/search.js:35-58 | a passing post occurs as often as in the input, any other not at all |
| Search.FilterMembership | js/search.js:38-54 | a post is returned iff it is in the list, passes the tag test and, for a non-empty query, the query occurs in its lower-cased title, excerpt, description or some tag |
| Search.FilterPassThrough | js/search.js:38-43 | with the tag null or empty and an empty query, the result is the list itself |
| Search.FilterTagSound | js/search.js:38 | with a non-empty tag, every returned post lists exactly that tag |
| Search.FilterIdempotent | js/search.js:35-58 | filtering the result again with the same tag and query changes nothing |
| Search.FilterComposes | js/search.js:38-54 | the combined filter equals the tag filter followed by the search filter |
| Search.Normalize | js/search.js:28 | a stored query has no capital letter and no white space at either end |
| Search.NormalizeIdempotent | js/search.js:27-29 | normalizing a stored query again gives it back |
| Search.NormalizeLiteral | js/search.js:28 | "abc" and "abc " are both stored as "abc" |
| Search.SearchState.constructor | js/search.js:5-7 | no posts, no active tag, empty query |
| Search.SearchState.FilterPosts | js/search.js:35-58 | over the current state: a subsequence of the posts, containing exactly the posts that pass both tests |
| Search.SearchState.SetPosts | js/search.js:12-14 | the list becomes the data, or empty when there is none; tag and query unchanged |
| Search.SearchState.SetActiveTag | js/search.js:19-22 | only the tag changes; the list handed on is the filter under the new tag |
| Search.SearchState.SetSearchQuery | js/search.js:27-30 | only the query changes, to the lower-cased trimmed input; the list handed on is the filter under it |
| Search.SearchBox.constructor | js/search.js:76-80 | empty input, no pending commit, no commits |
| Search.SearchBox.CommitNow | js/search.js:87 | records one commit of the current text now and stores its normalized form as the query |
| Search.SearchBox.AdvanceTo | js/search.js:86-88 | a pending commit due by the new time runs, at its due time, with the current text; otherwise nothing is committed |
| Search.SearchBox.Input | js/search.js:82-89 | a due commit runs first; then the text is replaced and the only pending commit is due 300 ms later |
| Search.SearchBox.KeyDown | js/search.js:92-97 | Enter cancels the pending commit and commits the current text at once; other keys only let due commits run |
| Search.TypingScenario | js/search.js:82-89 | keystrokes at 0, 100 and 200 give exactly one commit, at 500, of the last text |
| Search.EnterScenario | js/search.js:92-97 | a keystroke at 100 and Enter at 150 give one commit at 150 and none from the cancelled timer |
| PostLoader.FindClosing | js/post-loader.js:17 | the first position at or after the start where the closing delimiter begins, or none at all |
| PostLoader.SplitFrontMatter | js/post-loader.js:17 | on a match the input is opening delimiter + front matter + first closing delimiter + body, with no earlier closing delimiter; no match iff the opening is missing or no closing follows |
| PostLoader.Unquote | js/post-loader.js:35-40 | the first and last character go when both are the same quote; a lone quote becomes empty; anything else is kept |
| PostLoader.StripTagQuotes | js/post-loader.js:51 | one leading and one trailing quote are dropped, independently |
| PostLoader.TagsFallback | js/post-loader.js:47-52 | one element per comma-separated piece of the text between the brackets (commas plus one), each trimmed and stripped of quotes |
| PostLoader.ValueOf | js/post-loader.js:32-54 | quotes removed first; keys other than `tags` and unbracketed values stay text; a bracketed `tags` value becomes the parsed list or the fallback split |
| PostLoader.ParseLine | js/post-loader.js:29-32 | an entry iff the line has a colon that is not its first character; key and value are the trimmed text before and after the first colon |
| PostLoader.Entries | js/post-loader.js:28-29 | one parsed entry per front-matter line, in line order |
| PostLoader.Store | js/post-loader.js:56 | `metadata[key] = value`: the key gets the value, except `__proto__`, which is left out; no other key changes |
| PostLoader.Assign | js/post-loader.js:28-57 | the dictionary built by storing each entry in line order; it never holds `__proto__` |
| PostLoader.ParseFrontMatter | js/post-loader.js:16-61 | the result is the delimiter split, with the metadata built by assigning each line's entry in turn |
| PostLoader.NoFrontMatter | js/post-loader.js:17-21 | without both delimiters, empty metadata and the input unchanged as content |
| PostLoader.ClosingNeedsNewline | js/post-loader.js:17-21 | a closing `---` at the end of the file without a newline does not match |
| PostLoader.FrontMatterSplit | js/post-loader.js:17-24 | on a match, the content is everything after the first closing delimiter and the metadata comes from the lines before it |
| PostLoader.AssignKeys | js/post-loader.js:28-57 | a key is present iff it is not `__proto__` and some line gave an entry for it |
| PostLoader.AssignLastWins | js/post-loader.js:56 | a key's value is that of the last line for that key |
| PostLoader.DuplicateKeyExample | js/post-loader.js:56 | two `title` lines keep the second value |
| PostLoader.ProtoLineIgnored | js/post-loader.js:56 | a `__proto__:` line creates no key, while a `constructor:` line does |
| PostLoader.SplitThree | js/post-loader.js:49 | three comma-free pieces joined by commas split back into those pieces |
| PostLoader.FallbackThree | js/post-loader.js:47-52 | a bracketed list of three pieces that is not JSON gives the three trimmed, unquoted pieces |
| PostLoader.FallbackExample | js/post-loader.js:43-52 | `[a, b, c]` that is not valid JSON gives the tags `a`, `b`, `c` |
| PostLoader.JsonExample | js/post-loader.js:44-45 | a valid JSON array is taken as the parser returns it |
| PostLoader.OtherKeysKeepBrackets | js/post-loader.js:43 | a bracketed value under another key stays text |
| App.FirstSeen | js/app.js:124 | the keys in creation order: each tag once, exactly the tags that occur |
| App.CountTags | js/app.js:116-121 | the keys are exactly the tags of all posts, in the order first met; each count is the number of occurrences; the counts add up to the number of tags |
| App.CountPostTags | js/app.js:118-120 | counts and key order after one post equal the tally extended by its tags |
| App.Tally | js/app.js:119 | one pass of the loop body: `tagCounts[tag]` goes up by one, and a tag not met before is added to the key order |
| App.TallyAll | js/app.js:117-121 | the loop body run for each tag in turn; what it yields is stated by App.TallyAllCounted |
| App.TallyAllCounted | js/app.js:117-121 | tallying tag by tag gives each tag its number of occurrences and the keys in first-met order |
| App.CountedStep | js/app.js:119 | one increment keeps counts and key order in step with the tags seen |
| App.CountsAddUp | js/app.js:117-120 | the occurrence counts of the distinct tags add up to the number of tags |
| App.CountedSum | js/app.js:117-120 | counts that agree with the occurrences add up to the number of tags seen |
| App.Insert | js/app.js:124-126 | one insertion step moves an element past the smaller counts only, extending the sorted prefix by one, a rearrangement, the rest untouched |
| App.SortByCount | js/app.js:124-126 | the array is rearranged (same multiset, a recorded injective origin map) into descending counts, equal counts in their original order |
| App.SortedOrder | js/app.js:124-126 | sorted keys have non-increasing counts; equal counts are in first-met order |
| App.FirstSeenOrder | js/app.js:124 | a key created earlier was first met earlier |
| App.AllTagsEmpty | js/app.js:128-131 | there are no tags at all iff no post has a tag |
| App.TagCloud | js/app.js:124-131 | the sorted keys are exactly the counted tags, by descending count with ties in first-met order, and empty iff no post has a tag |
| App.SortedTags | js/app.js:116-131 | counts as above; the sorted list is a permutation of the keys, non-increasing in count, ties in first-met order, empty (container hidden) iff no post has a tag |
| App.TagFilterOf | js/app.js:152 | an empty `data-tag` gives no filter; any other gives that tag, and the filter is on exactly then |
| App.AllButtonShowsEverything | js/app.js:134 | the "all" button shows every post before any search |
| App.TagButtonShowsSomething | js/app.js:135-136 | a cloud button whose `data-tag` reads back as its tag shows at least one post before any search |
| App.DataTagAsWritten | js/app.js:136 | the `data-tag` value read back is a prefix of the tag without `"`; it is the whole tag exactly when the tag has no `"` |
| App.TagButtonAsWrittenWithoutQuote | js/app.js:135-136 | as written, a button for a tag without `"` shows at least one post |
| App.QuotedTagShowsNothing | js/app.js:136 | as written, the button of the single tag `a"b` filters by `a` and shows no post |
| App.ExcerptText | js/app.js:96 | the excerpt when it is non-empty, otherwise the description |
| App.ExcerptSearchable | js/app.js:96 | a query found in the shown excerpt line makes the post match the search |
| App.Get | js/app.js:119 | `tagCounts[tag]` on the object literal: an own property; else an inherited method (`constructor` is `Object`); else undefined; `__proto__` is the prototype |
| App.OrZeroPlusOne | js/app.js:119 | the fallback to 0, then `+ 1`: a number exactly from undefined, a number or the empty string, and one more than a number |
| App.Put | js/app.js:119 | `tagCounts[tag] = v`: the key gets the value, except `__proto__`, which is ignored; no other key changes |
| App.CountAsWritten | js/app.js:116-121 | the counting loop on a plain object, with inherited properties and the `__proto__` setter |
| App.PrototypeNamesMiscounted | js/app.js:116-121 | on tags `toString` and `__proto__`, the first gets a text count and the second never becomes a key, though each occurs once |
| App.ConstructorTagMiscounted | js/app.js:116-121 | a single `constructor` tag is counted as the text of `Object` with `1` appended |
| Theme.PreferredTheme | js/theme.js:13-25 | a non-empty stored value verbatim; else `dark` with a dark system; else `light`; never empty |
| Theme.Toggled | js/theme.js:38-40 | always `dark` or `light`; `light` exactly after `dark` |
| Theme.ToggleTwice | js/theme.js:38-42 | from `dark` or `light`, one toggle changes the theme and two restore it |
| Theme.ToggleOtherValue | js/theme.js:38-42 | any value but `dark` toggles to `dark`, then to `light` |
| Theme.ThemeState.constructor | js/theme.js:45 | the preferred theme is shown and stored |
| Theme.ThemeState.ApplyTheme | js/theme.js:30-33 | attribute and stored preference both become the theme |
| Theme.ThemeState.ToggleTheme | js/theme.js:38-42 | the toggled theme is shown and stored |
| Theme.ThemeState.OnSystemChange | js/theme.js:56-62 | with a stored preference nothing changes; otherwise the system's scheme is shown and stored |
| Theme.LoadThenSystemChange | js/theme.js:45-62 | after the initial apply a system change leaves the theme as loaded |
| Theme.ClearThenSystemChange | js/theme.js:57-61 | once storage is cleared, the next system change is followed |
| Theme.LoadThenToggleTwice | js/theme.js:38-45 | two toggles after load restore the loaded theme and its stored value |
| Theme.ToggleSurvivesReload | js/theme.js:13-45 | nothing stored and a dark system start dark; a toggle gives light, and a reload over the same storage starts light |

## Left out

- Network fetches, Markdown rendering, HTML templating, `formatDate`,
  URL handling and third-party scripts are outside this model.
- `CustomEvent` dispatch is left out: a setter returns the filtered list instead.
- The DOM wiring of the handlers is left out: `initSearch` returning early without a
  search box, and the click listeners on the toggle and tag buttons.
- The active-class switching of the tag buttons is left out.
- Text.Lower: lower-cases ASCII capitals only; the Unicode case mapping of `toLowerCase`
  is not modelled.
- Search.Post: every field of a post record is taken to be present. A record without
  `excerpt`, `description` or `tags` makes the search throw, and that is not modelled.
- Search.SearchBox: real timers are replaced by an explicit clock.
- Search.SearchBox: a commit due exactly when an event arrives runs before the event.
- Search.SearchBox: the commit reads the input's text when it runs, as the source's
  `e.target.value` does. Changing the text without an `input` event is not modelled.
- PostLoader.ValueOf: `JSON.parse` is an abstract parameter that yields a list of
  strings or fails. Arrays of non-strings, and JSON values that are not arrays, are not
  modelled.
- PostLoader: the regular-expression engine is replaced by the explicit delimiter
  search it amounts to.
- App.FirstSeen: the key order ignores that `Object.keys` lists integer-like keys first,
  in ascending numeric order. Tags such as `2024` would come first in the source.
- App.TagButtonShowsSomething: assumes the button's `data-tag` reads back as the tag.
  The escaping as written does not keep a tag with `"` intact; App.DataTagAsWritten
  models that case. Beyond the `data-tag` read-back, `escapeHtml` is not modelled.
- App.CountAsWritten: models only the properties that matter to the count. How the sort
  treats non-numeric counts (the comparator returns `NaN`) is not modelled.
- Theme: `localStorage` and `matchMedia` are replaced by the `stored` field and a
  boolean input. A browser without `matchMedia` is the input `false` at load, and the
  change handler is never called.
- Theme.ThemeState.ClearStorage does not model a page operation. It stands for storage
  being cleared from outside the page.

## Findings

| source | as written | input that shows it | evidently intended | confidence | as-written member | corrected member |
|---|---|---|---|---|---|---|
| js/app.js:116-119 | `tagCounts` is a plain object literal. It inherits `Object.prototype`'s members, so for a tag such as `toString` or `constructor` the increment starts from an inherited function (for `constructor`, `Object`) instead of falling back to 0. Assigning to `__proto__` is ignored. | posts whose tags are `toString` and `__proto__` | each tag is a key counted 1 (a prototype-free dictionary) | not executed | App.CountAsWritten (shown by App.PrototypeNamesMiscounted) | App.CountTags |
| js/app.js:136 | The tag is written into `data-tag="…"` through `escapeHtml`. That function serialises a text node, which escapes `&`, `<` and `>` but not `"`. A `"` in a tag therefore ends the attribute value early. | a single post whose only tag is `a"b`: its button filters by `a` and shows nothing | the `data-tag` value is the tag itself, so every button shows its posts | not executed | App.DataTagAsWritten (shown by App.QuotedTagShowsNothing) | App.TagButtonShowsSomething |
