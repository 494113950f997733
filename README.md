# ask — conversation-context manager

`ask` is a command-line client that sends a prompt to a chat-completion service
and keeps local state in one configuration document. That state holds the API
key, the model name, a legacy flat history, and a map of named conversation
threads ("contexts"). One context id is currently selected, and the empty
string means that none is.

This project models the layer that manages those contexts, from
`config/config.go`. A `Config` class has the record's fields. Each method on
`*Config` becomes a class method that updates the `contexts` map and the
`currentContext` selection in place. The project also models the helpers in
`main.go` that sit on top of that layer:

- resolving a context first by id, then by name, for `--switch` and
  `--delete-context`;
- masking the API key for display;
- the history preview of `--show-config`;
- the default "send a prompt" flow: it builds the request from the current
  history and records the prompt and the reply afterwards.

Files:

- `text.dfy` (module `Text`) holds the pieces of Go's standard library that
  the core relies on. These are the ordering on strings (`<`),
  `strings.Repeat` and the `%d` formatting that makes context ids.
- `config.dfy` (module `Config`) has the data model, the class `Config` and
  its operations. It also has the newest-first ordering used by
  `ListContexts`, with the proof that the sort gives an ordered permutation.
  It also has the `Resolution` predicate, which specifies every way that
  resolving "the current context" can go.
- `cli.dfy` (module `Cli`) holds the `main.go` helpers.
- `scenarios.dfy` (module `Scenarios`) chains operations the way the command
  line does. It proves the end-to-end behaviour, for example that deleting
  the only context leads to a fresh "default" context.

Inputs that the source takes from its environment are parameters here:

- `now` is the RFC 3339 text of `time.Now()`.
- `clockNanos` is the clock's Unix nanoseconds. `generateID` builds a
  context id from it (`"ctx_"` followed by the decimal digits).
- `reply` is the completion service's first choice, or `None` when the
  service sent no choices.

Go's map iteration order is nondeterministic. The model uses `:|` to choose
from the keys wherever the source iterates over the map:

- the choice of an "arbitrary" context when nothing is selected;
- the name check in `CreateNewContext`;
- the collection step of `ListContexts`.

A Go `nil` map is modelled as `contextsMade == false` together with an empty
`contexts`.

`Config.Valid()` also restricts the model to well-keyed documents: every key
is a non-empty id, and it stores the context with that same id. Every
insertion the model performs goes through `CreateNewContext`, which keeps this
invariant. A document read from disk by `Load` (config/config.go:62) is not
checked this way, since its keys and stored ids come from arbitrary JSON. In
such a document the inner `return err` branches of `switchToContext` and
`deleteContext` (main.go:459-461, main.go:518-520) can be taken. In the model
they cannot, and the model proves this with an assertion instead of carrying
an error path (see "Left out").

Two consequences of the code that a reader might not expect:

- A document with only a legacy history stops using it. `GetCurrentContext`
  creates a "default" context as soon as the map is empty and nothing is
  selected (config/config.go:180-188). So the legacy-history fallback of
  `AddToCurrentContext` and `ClearCurrentContext` is only reached with a stale
  selection, meaning a selected id that is no longer a key.
  `Scenarios.LegacyDocumentAppend` proves that the first append on such a
  document goes to the new "default" context and the legacy history is left
  alone.
- `generateID` is described as giving a "unique ID" (config/config.go:280),
  but it builds the id from the clock, so nothing prevents a collision.
  `Config.GenerateIdInjective` proves the conditional form: different clock
  readings give different ids. `CreateNewContext` is modelled without a
  freshness precondition. A colliding id overwrites the old entry, as Go's map
  assignment does. The map grows by one exactly when the id is fresh.

## Model

| member | source | states |
|---|---|---|
| `Text.LexLessTotal` | config/config.go:273-275 | two different `updated` stamps are always ordered one way or the other by Go's string comparison |
| `Text.LexLessTransitive` | config/config.go:273-275 | Go's string `<`, which the listing comparator uses, is transitive |
| `Text.LexLessIrreflexive` | config/config.go:273-275 | no stamp is newer than itself |
| `Text.Repeat` | main.go:348 | `strings.Repeat` of one character gives exactly `n` copies of that character |
| `Text.IntToDecimal` | config/config.go:282 | `%d` formatting gives a non-empty string, with a leading minus sign exactly for negative values |
| `Text.NatToDecimalInjective` | config/config.go:282 | different natural numbers have different decimal spellings |
| `Text.IntToDecimalInjective` | config/config.go:282 | `%d` formats different integers as different strings |
| `Config.GenerateId` | config/config.go:280-283 | a context id is `"ctx_"` followed by the clock's digits, so it is never the empty "no selection" string |
| `Config.GenerateIdInjective` | config/config.go:280-283 | different clock readings give different context ids |
| `Config.SortNewestFirstCorrect` | config/config.go:272-275 | the listing sort gives contexts ordered by `updated`, newest first, as a permutation of its input |
| `Config.SortNewestFirstDistinct` | config/config.go:272-275 | sorting a list whose ids are distinct keeps them distinct |
| `Config.InsertNewestFirstSorted` | config/config.go:272-275 | inserting a context into a newest-first list keeps it newest-first |
| `Config.InsertNewestFirstPermutes` | config/config.go:272-275 | insertion adds exactly that one context to the list's multiset |
| `Config.InsertNewestFirstDistinct` | config/config.go:272-275 | inserting a context with a new id keeps all ids distinct |
| `Config.NewerOrSameTransitive` | config/config.go:273-275 | the "not older than" relation between stamps is transitive |
| `Config.HeadIsNewest` | config/config.go:272-275 | the first context of a newest-first list is at least as new as every later one |
| `Config.SortedDistinctIsStrict` | config/config.go:272-275 | with pairwise different stamps T1 < T2 < T3, the listing is strictly descending (T3, T2, T1) |
| `Config.Config.constructor` | config/config.go:48-55 | loading with no file gives model "gpt-3.5-turbo", an empty key, an empty history, a nil context map and no selection |
| `Config.Config.AddToHistory` | config/config.go:105-111 | the legacy history gains exactly one `(role, content)` message at its end |
| `Config.Config.ClearHistory` | config/config.go:113-116 | the legacy history becomes empty |
| `Config.Config.GetHistory` | config/config.go:118-121 | returns the legacy history |
| `Config.Config.GetHistoryLength` | config/config.go:123-126 | returns the number of legacy messages |
| `Config.Config.InitContexts` | config/config.go:128-133 | only a nil map is replaced, by an empty one; every existing entry is kept; a second call changes nothing |
| `Config.Config.CreateNewContext` | config/config.go:135-162 | fails with NameExists exactly when some context has exactly that name, and then changes neither the map nor the selection; on success it adds exactly one entry under the returned id, with that name, an empty history and `created == updated`, selects it, and leaves every other entry alone |
| `Config.Config.SwitchContext` | config/config.go:164-174 | succeeds exactly when the id is a key; then it selects that id; on failure the selection is unchanged; the map never changes |
| `Config.Config.GetCurrentContext` | config/config.go:176-203 | with nothing selected and an empty map it creates and selects "default" (the map size becomes 1); with nothing selected and a non-empty map it selects some existing key and creates nothing; it returns None exactly for a stale selection, which it does not repair; a valid selection always resolves |
| `Config.Config.GetCurrentContextHistory` | config/config.go:205-212 | returns the resolved context's history, or the empty sequence (not the legacy history) for a stale selection |
| `Config.Config.AddToCurrentContext` | config/config.go:214-229 | when a context resolves, its history gains one `(role, content)` at the end and `updated` becomes `now`; no other context changes and the legacy history is untouched; when none resolves, the message is appended to the legacy history and the map is unchanged |
| `Config.Config.ClearCurrentContext` | config/config.go:231-243 | when a context resolves, its history becomes empty and `updated` becomes `now`, and nothing else changes; when none resolves, the legacy history is cleared |
| `Config.Config.DeleteContext` | config/config.go:245-261 | fails exactly on a missing id and then changes nothing; otherwise it removes exactly that key and resets the selection to "" exactly when it was that id, never selecting another context |
| `Config.Config.ListContexts` | config/config.go:263-278 | returns every context of the map exactly once (a permutation of its values, distinct ids), newest `updated` first; the map is unchanged |
| `Cli.MaskApiKey` | main.go:344-349 | a key of at most 8 characters shows as exactly "********"; a longer key keeps its length, its first 4 and last 4 characters, and every character in between becomes `*` |
| `Cli.TruncateContent` | main.go:88-90 | content longer than 50 characters becomes its first 47 characters plus "...", exactly 50 long; shorter content is shown unchanged |
| `Cli.HistoryPreview` | main.go:80-91 | the preview shows exactly the last min(4, n) messages in order, each with its role and truncated content |
| `Cli.FirstNamed` | main.go:456-465 | gives the position of the first context with that name in list order, or the list length when no context has that name |
| `Cli.ListingFindsName` | main.go:456-467 | the name scan over a listing finds a context exactly when some context in the map has that name |
| `Cli.SwitchToContext` | main.go:447-468 | an id match wins; otherwise the first context in the newest-first listing with that exact name is selected; the call fails with UnknownContext exactly when neither matches, and then the selection is unchanged; the map never changes |
| `Cli.DeleteContext` | main.go:507-527 | an id match is removed first; otherwise the first context in the listing with that exact name is removed; at most one context is removed; with an unknown identifier it fails and changes nothing |
| `Cli.SendPrompt` | main.go:215-298 | the request is the current context's history followed by exactly one `("user", prompt)` message, or that message alone with `--no-context`; after a reply, the current context's history grows by exactly the user message and then the assistant message (the legacy history does when the selection is stale); without a reply or with `--no-context`, no history changes |
| `Scenarios.CreateRecordRead` | config/config.go:135-229 | a new context that records "user" then "assistant" reads back exactly those two messages in that order |
| `Scenarios.ClearThenRead` | config/config.go:205-243 | clearing and then reading the current history always gives the empty sequence |
| `Scenarios.DeleteSelectedThenResolve` | config/config.go:180-261 | after deleting the selected context while others exist, resolution returns some remaining context and creates nothing |
| `Scenarios.DeleteOnlyThenResolve` | config/config.go:180-261 | after deleting the only context, resolution creates and selects a fresh "default" context, so the map size is 1 again |
| `Scenarios.LegacyDocumentAppend` | config/config.go:176-229 | on a document with no contexts and no selection, the first append goes to a new "default" context and the legacy history is left as it was |

## Left out

- `Load` of an existing file, `Save`, `init` and `GetConfigPath`
  (config/config.go:38-85, 100-103) are left out. They are file-system I/O,
  home-directory lookup and JSON encoding. Only `Load` with no file is
  modelled, as the constructor.
- `time.Now` and `generateID`'s clock are parameters. Each operation reads the
  clock once. In the source, `CreateNewContext` reads it twice: once for the
  id and once for the stamps. The model gives both reads the same instant.
- `sort.Slice` is library code and is not stable. The model sorts by
  insertion, which is stable. Contexts with equal `updated` stamps may
  therefore come out in a different order than in Go. The name lookup in
  `switchToContext` and `deleteContext` picks the first match in that order.
- Cli.SwitchToContext: documents whose keys are empty or differ from the
  stored context's id are excluded by `Valid()`. So is the error return at
  main.go:459-461, which only such a document can reach. Such documents can
  only come from `Load` of an existing file, which is not modelled.
- Cli.DeleteContext: documents whose keys are empty or differ from the stored
  context's id are excluded by `Valid()`. So is the error return at
  main.go:518-520, which only such a document can reach. Such documents can
  only come from `Load` of an existing file, which is not modelled.
- `Cli.SwitchToContext`: the `GetCurrentContext` call at main.go:450 and its
  printed message are left out. At that point the selection is a key, so the
  call cannot change any state.
- The printing and time formatting in `listContexts` (main.go:470-505) are
  left out. So is its `GetCurrentContext` call, whose result is only printed
  and never saved.
- The rest of `--show-config` (main.go:61-114) is printing. Its legacy branch
  (main.go:98-110) repeats the preview logic of `Cli.HistoryPreview`.
- The HTTP exchange with the completion API (main.go:254-289) is network I/O
  and JSON decoding. It becomes the `reply` parameter. The `--model` override
  and the API key check (main.go:201-213, 234-238) are left out too.
- `editConfig`, `setup.Run`, `showHelp`, `printCompletionScript`, flag parsing
  and `GetAvailableModels` are left out. They are interactive dialogue, help
  text, CLI plumbing and a constant list.
- Strings are sequences of characters, but Go's `len` and slicing count
  bytes. For non-ASCII text the 50-character preview cut and the key mask
  positions are in characters here, not bytes.
- Formula/ask.rb is packaging with no program logic, and is not part of this
  model.
