# Etincelle website scripts, modelled in Dafny

This project models the interactive core of `js/main.js` of the Etincelle
website:

- the syntax-highlighting tokenizer `parseCode` used by the typing code
  demo (modules `CharClasses`, `Tokens`, `Tokenizer`, `TokenizerProofs`,
  `CodeProofs`);
- the FAQ accordion (`FaqAccordion`);
- the services tabs that switch on hover (`ServicesTabs`);
- the process timeline's step animation (`ProcessTimeline`);
- the mobile navigation toggle (`MobileNav`);
- the live notification list (`NotificationFeed`).

The tokenizer is specified as a pure function. `Tokens.Step` is one
iteration of the source's `while` loop over a line. `Tokens.Scan` runs
the loop to the end of the line. `Tokens.LineTokens` is one line's
tokens, and `Tokens.CodeTokens` is the whole `parseCode` result.

The methods `Tokenizer.TokenizeLine` and `Tokenizer.ParseCode` run the
same loops imperatively, on the source's own loop variables (`i`,
`currentToken`, `inString`, `stringChar`, `inTag`, `lineTokens`). They
are proved to compute those functions. Lemmas then establish what the
tokens promise:

- they render back to the input;
- each token has the shape of its kind;
- string literals and JSX tags become runs of one-character tokens;
- the newline tokens follow the line structure.

The page widgets keep their state in CSS classes on DOM elements. Each
widget is modelled by the flags those handlers switch:

- an `array<bool>` for a collection of elements (FAQ items, tabs, panels,
  timeline steps);
- fields of a class for the state a handler's closure shares
  (`currentStep`, the two navigation classes, the notification list).

Each handler is a method whose postcondition ties the new state to a pure
function of the old state. The properties are proved about those
functions.

## Model

| member | source | states |
|---|---|---|
| Tokenizer.TokenizeLine | js/main.js:715-852 | the `while` loop over one line, with its final flush, yields exactly `LineTokens(line)` |
| Tokenizer.ParseCode | js/main.js:705-861 | the loop over the lines yields `CodeTokens(code)`: one newline token per blank line, and each other line's tokens followed by a newline token unless it is the last line |
| Tokens.Step | js/main.js:723-848 | every iteration of the scanning loop moves the index forward and stays within the line |
| Tokens.CodeStep | js/main.js:777-847 | an iteration outside strings and tags moves the index forward within the line and leaves the string and tag modes as they were |
| Tokens.WordKind | js/main.js:777-844 | the `^(\w+)` match is classified a keyword exactly when it is in the keyword list, and any kind other than text is given to a non-empty run of word characters |
| Tokens.Scan | js/main.js:723-848 | the scanning loop runs to the end of the line |
| Tokens.ScanOn | js/main.js:723-848 | one iteration followed by the rest of the loop also ends at the end of the line |
| Tokens.SplitLines | js/main.js:706 | `split('\n')` gives at least one line, even for empty code |
| CharClasses.WordPrefix | js/main.js:779 | the `^(\w+)` match is the longest prefix of word characters |
| CharClasses.Window | js/main.js:791 | `substring(Math.max(0, i - n), i)` gives the last `n` characters before `i`, or all of them when fewer |
| CharClasses.Trim | js/main.js:710 | `trim()` leaves the part of the line between its leading and trailing white space, which neither starts nor ends with white space |
| CharClasses.BlankIffTrimEmpty | js/main.js:710 | `line.trim() === ''` holds exactly when every character of the line is white space, the test `IsBlank` the model uses |
| TokenizerProofs.StepKeepsInv | js/main.js:723-848 | every branch of the loop body keeps the invariant: what has been emitted plus the pending text equals the prefix scanned so far, and the emitted tokens are well shaped |
| TokenizerProofs.ScanKeepsInv | js/main.js:723-848 | the invariant holds at the end of the loop |
| TokenizerProofs.LineTokensSound | js/main.js:715-852 | one line's tokens render back to the line and are well shaped |
| TokenizerProofs.FlushKeepsText | js/main.js:730-733 | pushing the pending text loses no character: the emitted tokens and the pending text render as before, and what is pushed is one text token with a non-empty value |
| TokenizerProofs.LineRoundTrip | js/main.js:715-852 | round trip: the values of a line's tokens concatenate back to the line |
| TokenizerProofs.LineTokensShape | js/main.js:728-852 | text tokens are non-empty and never adjacent; string and tag tokens hold one character; keyword tokens are in the keyword list; type, function and parameter names are word runs that are not keywords |
| TokenizerProofs.LineTokensHaveNoNewline | js/main.js:715-852 | a line's own tokens never include a newline token |
| TokenizerProofs.WordKindShaped | js/main.js:777-844 | a word matched by one of the keyword, type, function or parameter branches has the shape its kind requires |
| TokenizerProofs.StringRun | js/main.js:727-752 | inside a string, each character becomes a one-character string token until the first unescaped matching quote, which ends string mode; without one, the line ends in string mode |
| TokenizerProofs.StringLiteral | js/main.js:728-752 | an opening quote outside a tag flushes the pending text and starts a run of one-character string tokens that ends after the closing quote |
| TokenizerProofs.TagRun | js/main.js:766-775 | inside a tag, every character, quotes included, becomes a one-character tag token until a `>` or a `/` before `>` ends tag mode |
| TokenizerProofs.TagLiteral | js/main.js:754-775 | `<` before a letter flushes the pending text and starts a run of one-character tag tokens that ends at the tag's end |
| TokenizerProofs.AsyncWindowNeedsSixteen | js/main.js:819 | any match of `async\s+function\s+\w+` is at least sixteen characters long |
| TokenizerProofs.FunctionWindowNeedsNine | js/main.js:805 | the function-name look-behind matches only a window of at least nine characters that ends in white space |
| TokenizerProofs.AsyncBranchNeverTaken | js/main.js:818-830 | the async-function-name branch can never fire, because its pattern is tested against a window of only ten characters |
| TokenizerProofs.TypeAliasWindowNeedsSeven | js/main.js:791 | any match of `type\s+\w+\s*=` is at least seven characters long |
| TokenizerProofs.ParamWindowHasParen | js/main.js:833 | the parameter look-behind matches only when the window holds an opening parenthesis |
| TokenizerProofs.ShortWindowMatchesNothing | js/main.js:791-833 | a window shorter than seven characters without `:` or `(` matches none of the four look-behind patterns |
| TokenizerProofs.StartWindowsMatchNothing | js/main.js:791-833 | at the start of a line, all four look-behind windows are empty and match nothing |
| TokenizerProofs.FirstWordKind | js/main.js:777-848 | the first character of a line can only start a keyword or plain text |
| TokenizerProofs.KeywordInsideWord | js/main.js:777-788 | a keyword is matched inside a longer word: `xvar` gives the text `x` followed by the keyword `var` |
| CodeProofs.SplitLinesHaveNoNewline | js/main.js:706 | no line from `split('\n')` contains a newline |
| CodeProofs.JoinSplit | js/main.js:706 | joining the split lines with newlines gives back the code |
| CodeProofs.SplitJoin | js/main.js:706 | splitting the newline-join of lines that contain no newline gives back those lines |
| CodeProofs.AllLineTokensSound | js/main.js:709-852 | every line's tokens render back to that line and contain no newline token |
| CodeProofs.RenderLineOutput | js/main.js:709-857 | what the tokens of one line render to: nothing for a blank line and the line's own text otherwise, then a newline, which a last non-blank line does not get |
| CodeProofs.RenderTokensUpTo | js/main.js:709-857 | the tokens of the first `n` lines render to those lines joined by newlines, with blank lines emptied, plus a final newline when more lines follow or the `n`-th is blank |
| CodeProofs.CodeRoundTrip | js/main.js:705-861 | the tokens of the code render to the code with its blank lines emptied, plus one extra newline when the last line is blank |
| CodeProofs.NoBlankLineRoundTrip | js/main.js:705-861 | when no line is blank, the tokens render back to exactly the code |
| CodeProofs.NewlineTokensLineOutput | js/main.js:709-857 | one line contributes exactly one newline token, except a last non-blank line, which contributes none |
| CodeProofs.NewlineTokensUpTo | js/main.js:709-857 | the first `n` lines contribute `n` newline tokens, one fewer when they are all the lines and the last is not blank |
| CodeProofs.NewlineTokenCount | js/main.js:709-857 | there is one newline token per newline in the code, plus one more when the last line is blank |
| CodeProofs.LastToken | js/main.js:709-857 | the result is never empty, and it ends in a newline token exactly when the last line is blank |
| FaqAccordion.AfterClick | js/main.js:94-113 | after a click on item `k`, every other item is closed; item `k` is open exactly when it was closed before; at most one item is open |
| FaqAccordion.CloseOthers | js/main.js:98-104 | the loop over the other items closes each of them and leaves the clicked item as it was, so at most one item is open after it |
| FaqAccordion.Click | js/main.js:94-113 | the click handler, with its loop over the other items, leaves the items as `AfterClick` says |
| FaqAccordion.ClickTwice | js/main.js:94-113 | two clicks on the same item leave that item as it was and every other item closed |
| FaqAccordion.ClickTwiceFromClosed | js/main.js:94-113 | from an all-closed accordion, two clicks on the same item give back an all-closed accordion |
| FaqAccordion.ClickAnother | js/main.js:94-113 | a click on item `j` after a click on another item `k` leaves exactly `j` open |
| ServicesTabs.FirstActive | js/main.js:240 | `querySelector` gives the first active panel, or none when no panel is active |
| ServicesTabs.Hovered | js/main.js:238-258 | nothing changes when the first active panel is the tab's own panel (or both are absent); otherwise exactly the hovered tab is active and the old panel is deactivated. The tab's panel, if there is one, is active afterwards, and no other panel changes |
| ServicesTabs.FirstOfExactly | js/main.js:240 | when exactly one panel is active, `querySelector` finds it |
| ServicesTabs.HoverShowsOnePanel | js/main.js:238-258 | when at most one panel was active, afterwards exactly the hovered tab's panel is active (none if the tab names none) |
| ServicesTabs.HoverIdempotent | js/main.js:238-258 | when at most one panel is active, a second hover on the same tab changes nothing |
| ServicesTabs.Hover | js/main.js:238-258 | the `mouseenter` handler, with its loop over the tabs, leaves the tabs and panels as `Hovered` says |
| ProcessTimeline.Next | js/main.js:510 | `(currentStep + 1) % steps.length` stays within the steps, and is NaN when there are no steps or the counter is already NaN |
| ProcessTimeline.Marked | js/main.js:522-530 | `updateActiveStep` gives every step a flag and marks at most one of them |
| ProcessTimeline.MarkedSteps | js/main.js:522-530 | `updateActiveStep` marks exactly one step active when `currentStep` is in range, and none when it is NaN or out of range |
| ProcessTimeline.AdvanceCycles | js/main.js:509-512 | from step `k`, `m` ticks lead to step `(k + m) % steps.length` |
| ProcessTimeline.FullCycle | js/main.js:503-512 | after as many ticks as there are steps, the animation is back at the first step |
| ProcessTimeline.NoStepsGiveNaN | js/main.js:510 | with no steps, every tick leaves the counter NaN |
| ProcessTimeline.Timeline.constructor | js/main.js:483-485 | at page load `currentStep` is 0 and the steps keep the `active` flags the page markup gives them; the timeline is valid: with at least one step the counter is a number |
| ProcessTimeline.Timeline.UpdateActiveStep | js/main.js:522-530 | the loop over the steps makes exactly the step at `currentStep` active and every other step inactive |
| ProcessTimeline.Timeline.Start | js/main.js:503-506 | start resets the counter to the first step and marks it; with at least one step exactly one step is active afterwards, and the timeline stays valid |
| ProcessTimeline.Timeline.Tick | js/main.js:509-512 | one interval tick advances the counter by `Next` and marks the new step; with at least one step exactly one step is active afterwards, and the timeline stays valid |
| ProcessTimeline.Timeline.Stop | js/main.js:515-520 | stop leaves no step active, keeps the counter and so keeps the timeline valid |
| MobileNav.Nav.constructor | js/main.js:438-442 | the handlers set no class at load: the menu and the button keep the classes the page markup gives them, and they are in step exactly when those agree |
| MobileNav.Nav.Toggle | js/main.js:444-447 | the toggle flips both classes, so a menu and button that were in step stay in step |
| MobileNav.Nav.FollowLink | js/main.js:449-454 | following a menu link closes the menu and deactivates the button |
| NotificationFeed.Added | js/main.js:1285-1300 | the inserted entry goes on top; the rest of the list is a prefix of the old list; the length grows by one unless five or more entries were shown |
| NotificationFeed.AddedKeepsBound | js/main.js:1293-1299 | a list of at most five entries keeps at most five |
| NotificationFeed.Entry | js/main.js:1286 | `notifications[index % notifications.length]` is always an entry of the catalogue |
| NotificationFeed.EntryCycles | js/main.js:1286 | the catalogue repeats: index `i + 8` shows the same entry as index `i` |
| NotificationFeed.AddedInOrderLength | js/main.js:1285-1320 | after `n` additions to an empty list it holds `min(n, 5)` entries |
| NotificationFeed.AddedInOrderAt | js/main.js:1285-1320 | after `n` additions, position `j` holds the entry of addition `n - 1 - j` |
| NotificationFeed.AddedInOrderShowsLatest | js/main.js:1285-1320 | after `n` additions to an empty list it shows the last `min(n, 5)` of them, newest first |
| NotificationFeed.AnimationShowsLatest | js/main.js:1285-1320 | when the animation has called `addNotification(0) … addNotification(n - 1)`, position `j` holds catalogue entry `(n - 1 - j) % 8` |
| NotificationFeed.Feed.constructor | js/main.js:1193-1197 | the list element is found in the page; the script adds nothing at load, so the list holds the entries the markup gives it |
| NotificationFeed.Feed.Add | js/main.js:1285-1300 | `addNotification(index)` inserts catalogue entry `index % 8` as `Added` says |

## Left out

- DOM and layout:
  - The `maxHeight` styles of the FAQ answers are left out.
  - The tab indicator's movement (`moveIndicator`) is left out.
  - The timeline's `visible` class is left out.
  - The notification markup built by `createNotification` is left out.
  - The notifications' fade-out styles are left out.
  - Only the `active` / open flags the handlers switch are modelled.
- Timers and observers:
  - The intersection observers, `setInterval`/`setTimeout` and `clearInterval` are not modelled.
  - A tick is a call of `Timeline.Tick`.
  - Starting the timeline twice leaks an interval in the source. The model does not capture that.
- NotificationFeed.Feed.Add removes the bottom entry at once. The source removes it 300 ms later (line 1298). Within one `startAnimation` run the adds are at least 600 ms apart (lines 1310-1321), so each removal has finished before the next add.
- NotificationFeed.AddedKeepsBound: holds for the model's immediate removal only. `stopAnimation` (lines 1325-1331) clears the interval but not the four pending `setTimeout` adds of lines 1310-1315. A restart shortly after a stop runs a second series beside them, so two adds can come less than 300 ms apart. Both then pick the same fading bottom item (line 1295), only one entry is removed, and the list can keep six entries. `startAnimation`, `stopAnimation` and `isAnimating` are not modelled.
- NotificationFeed.AddedInOrderShowsLatest: starts from an empty list. When the page markup already holds entries, the source shows them below the added ones until they are pushed out. The lemma does not describe that case; `Added` and `Feed.Add` do.
- The notification icons are left out: the file holds them in a mis-encoded form.
- Characters:
  - One Dafny `char` stands for one UTF-16 code unit of a JavaScript string.
  - The model does not capture that a character outside the Basic Multilingual Plane is two code units in the source.
- `(async\s+)?function\s+$` is modelled as `function\s+$`. The optional group never changes whether the pattern matches.
- The async-function branch at lines 818-830 is modelled as written. Its pattern cannot fit in its ten-character window, so it never fires (`TokenizerProofs.AsyncBranchNeverTaken`). Whether a wider window was intended is not clear from the code, so the model keeps it as written.
- ServicesTabs.Hovered: `getElementById` is modelled as giving a panel or nothing. The model does not capture a tab whose `data-tab` names an element that is not a panel.
- The other handlers of `js/main.js` are not part of this model: scroll animations, navigation scroll state, counters, cursor effects, parallax, tilt, tooltips, beams, the typing animation's timing and the page loader.
