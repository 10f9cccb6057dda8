# Shortcut stories and API key: a Dafny model

This project models the Shortcut part of the `de` command-line tool. It covers two things.

- **The story listing** (`printStories`). The caller's stories are sorted in place by when each last moved. Each story becomes a headline around its git branch name, `sc-<id>-<kebab-case title>`, optionally prefixed with the move time. Only the newest `numberOfStories` headlines are kept. A negative count, or one larger than the list, keeps them all. The kept headlines are concatenated and every trailing newline is trimmed off.
- **The API key's life cycle.** The key is read from the OS keyring under the fixed pair (`declitool`, `shortcut`). When the key is missing, the operator is prompted, and the line they type (minus exactly one newline) is stored. The `auth` command can overwrite or delete the key.

Files:

- `wrappers.dfy`: the `Option` and `Result` types.
- `text.dfy`: the parts of Go's `strings` and `fmt` that the core uses:
  - string `<`;
  - `ToLower` and `ReplaceAll`;
  - `strings.Join` with `""`;
  - `TrimRight` with a one-character cutset, and `TrimSuffix`;
  - `%d`, with a parser as its inverse.
- `stories.dfy`: `printStories`. The sort is an in-place insertion sort on an `array`. The headline loop is a `for` loop, proved against the spec function `Headlines`. Truncation, join and trim come last.
- `credentials.dfy`: the credential flow. It runs over a `Keyring` class whose `secrets` map the methods update in place. Each keyring operation may be made to fail through `Faults`. What the operator types is an input string. The lines the flow prints come back as a `printed` sequence, so "does not prompt" can be stated.
- `scenarios.dfy`: a worked example with three stories. It includes a method that runs `PrintStories` on an array.

Two points about how the listing is built:

- **Join.** The listing is not `strings.Join(lines, "\n")`. The code ends each headline with `\n`, concatenates them and trims every trailing newline. `Stories.ListingJoinsLines` proves that this equals the newline-join whenever the newest story's title does not end in a newline. When the title does end in one, the trim can also remove the title's own newlines.
- **Kebab case.** The code replaces spaces before lower-casing. Lower-casing first would give the same result, since neither a space nor `-` has a case. `Stories.KebabCase` states the result character by character.

## Model

| member | source | states |
|---|---|---|
| Text.LessIrreflexive | cmd/de/shortcut.go:184-186 | No `movedAt` string sorts before itself. |
| Text.LessTransitive | cmd/de/shortcut.go:184-186 | Go's string `<` (compared character by character, which is UTF-8 byte order) is transitive. |
| Text.LessTotal | cmd/de/shortcut.go:184-186 | Of two different strings, one is `<` the other. |
| Text.LessAsymmetric | cmd/de/shortcut.go:184-186 | `a < b` excludes `b < a`. |
| Text.NoGreaterTransitive | cmd/de/shortcut.go:184-186 | The "not later than" order used for sortedness is transitive. |
| Text.NoGreaterTotal | cmd/de/shortcut.go:184-186 | That order is total, and antisymmetric: strings ordered both ways are equal. |
| Text.LessAt | cmd/de/shortcut.go:184-186 | A common prefix followed by a smaller character decides `<`. |
| Text.TrimRight | cmd/de/shortcut.go:207 | `strings.TrimRight(s, "\n")` returns a prefix of `s` that does not end in a newline. Everything it removes is a newline. |
| Text.TrimRightAfterNewline | cmd/de/shortcut.go:207 | For non-empty text not ending in a newline, trimming after one appended newline gives the text back. |
| Text.ConcatTerminated | cmd/de/shortcut.go:207 | Concatenating newline-terminated lines is joining them with `\n` plus one final newline. |
| Text.TrimTerminated | cmd/de/shortcut.go:207 | Concatenating terminated lines, then trimming, equals joining with `\n`, provided the last line is non-empty and does not end in a newline. |
| Text.JoinLinesEnd | cmd/de/shortcut.go:207 | When the last line is non-empty and does not end in a newline, the join does not end in a newline either. |
| Text.TrimSuffix | cmd/de/shortcut.go:71 | With the suffix present, the result plus the suffix is the input. Otherwise the input is unchanged. |
| Text.TrimSuffixOnce | cmd/de/shortcut.go:71 | `TrimSuffix(s + "\n", "\n")` is `s`, even when `s` itself ends in newlines. |
| Text.NatDecimal | cmd/de/shortcut.go:190 | The `%d` digits of a natural number: nonempty, digits only, and a leading `0` only for zero. |
| Text.NatDecimalRoundTrip | cmd/de/shortcut.go:190 | Reading the digits back gives the number. |
| Text.DecimalRoundTrip | cmd/de/shortcut.go:190 | `%d` of any integer is a well-formed token that parses back to that integer. |
| Text.DecimalInjective | cmd/de/shortcut.go:190 | Different ids print differently. |
| Stories.SortByMovedAt | cmd/de/shortcut.go:184-186 | Sorts the array in place: afterwards it is ordered by `movedAt` and is a permutation (multiset) of what it held. |
| Stories.InsertIntoSorted | cmd/de/shortcut.go:184-186 | One insertion step: it extends the sorted prefix by one element and keeps the multiset. |
| Stories.SortedUnique | cmd/de/shortcut.go:184-186 | When no two stories share a `movedAt`, two sorted permutations of the same stories are equal. The unstable sort therefore still fixes the listing. |
| Stories.SortedHeadsAgree | cmd/de/shortcut.go:184-186 | Two sorted permutations with distinct times start with the same story. |
| Stories.KebabCase | cmd/de/shortcut.go:189 | The kebab-case title has the title's length. Each space becomes `-` and every other character is lower-cased. No space and no capital letter remains. |
| Stories.BranchNameInjective | cmd/de/shortcut.go:190 | Equal branch names mean an equal id and an equal kebab-case title. |
| Stories.LinesAt | cmd/de/shortcut.go:188-198 | There is one line per story, in the stories' order, and line `k` is story `k`'s (time-prefixed when `withTimes`). |
| Stories.LineEnd | cmd/de/shortcut.go:189-196 | A story's line ends in a newline only if its title does. |
| Stories.FormatHeadlines | cmd/de/shortcut.go:188-198 | The loop appends exactly `Headlines` of the array: each story's line plus `\n`, in array order. |
| Stories.KeepLast | cmd/de/shortcut.go:200-206 | A count in `0..len` keeps exactly that many of the last lines. Any other count, negative or too large, keeps all. The kept lines are always a suffix. |
| Stories.KeepLastTerminated | cmd/de/shortcut.go:200-206 | Truncation commutes with terminating each line. |
| Stories.KeptLinesJoined | cmd/de/shortcut.go:200-207 | When there are no lines, or the last line is non-empty and does not end in a newline, truncating, concatenating and trimming the terminated lines joins the kept lines with `\n`. |
| Stories.ListingJoinsLines | cmd/de/shortcut.go:200-207 | Whenever there are no stories, or the newest title does not end in a newline, the printed text is the kept lines joined with `\n`. |
| Stories.ListingEdges | cmd/de/shortcut.go:200-207 | No stories, or a count of 0, print the empty text. The text never ends in a newline. |
| Stories.PrintStories | cmd/de/shortcut.go:181-211 | Leaves the caller's array sorted and a permutation of its old contents. Returns `Listing` of the sorted array. |
| Credentials.Keyring.Get | cmd/de/shortcut.go:47-50 | The keyring read: the secret, `ErrNotFound`, or the backend's failure. |
| Credentials.Keyring.Set | cmd/de/shortcut.go:81-85 | The keyring write replaces the entry, unless the backend fails, in which case nothing changes. |
| Credentials.Keyring.Delete | cmd/de/shortcut.go:110-113 | The keyring delete removes the entry. A missing entry reports `ErrNotFound`. A backend failure leaves it. |
| Credentials.ReadLine | cmd/de/shortcut.go:66-70 | `ReadString('\n')` succeeds iff the input holds a newline. It returns the prefix up to and including the first newline. Otherwise the result is an EOF error. |
| Credentials.ReadLineStopsAtNewline | cmd/de/shortcut.go:67 | The read stops at the first newline, whatever follows. |
| Credentials.PromptFor | cmd/de/shortcut.go:64-74 | `promptFor` succeeds iff a newline was typed. The value is the line without its newline, contains no newline, and may be empty. |
| Credentials.PromptForLine | cmd/de/shortcut.go:64-74 | Whatever is typed before the first newline is the value, exactly. |
| Credentials.GetShortcutApiKey | cmd/de/shortcut.go:46-62 | The stored key with `notFound` false; or `""`, `notFound` and no error when the key is missing; or `""`, `notFound` and the backend's error. |
| Credentials.SetShortcutApiKey | cmd/de/shortcut.go:76-92 | Prompts. On a read or keyring failure it returns `""` and the error, leaving the keyring as it was. Otherwise it stores the typed value under the fixed entry, prints "API Key set" and returns the value. |
| Credentials.Authenticate | cmd/de/shortcut.go:94-107 | A stored key comes back with no prompt, nothing printed and no write. A keyring read failure comes back at once. A missing key prints the not-found notice and then goes through the set flow, with its exact outcomes and printed lines. |
| Credentials.DeleteShortcutApiKey | cmd/de/shortcut.go:109-120 | Removes the entry and prints "Key deleted", or passes the keyring's error on unchanged. |
| Credentials.SetThenGet | cmd/de/shortcut.go:46-92 | A key that was set is what the next read returns. |
| Credentials.DeleteThenGet | cmd/de/shortcut.go:46-62 | After a delete, whether or not a key was there, a read reports the key missing without error. |
| Credentials.AuthenticateTwice | cmd/de/shortcut.go:94-107 | Once `authenticate` has stored a key, the next call returns the same key and prints nothing. |
| Scenarios.FetchedSorted | cmd/de/shortcut.go:184-186 | Any sorted permutation of the three example stories is the oldest-first order. |
| Scenarios.BranchNames | cmd/de/shortcut.go:189-190 | "Fix bug" with id 1 gives `sc-1-fix-bug`, and likewise for the other two examples. |
| Scenarios.OldestLines | cmd/de/shortcut.go:188-198 | The lines of the sorted examples, oldest first. |
| Scenarios.NewestTwo | cmd/de/shortcut.go:181-211 | A count of 2 prints the two most recently moved stories, oldest first, joined by one newline. |
| Scenarios.CountAboveLength | cmd/de/shortcut.go:200-206 | A count larger than the list prints all three stories. |
| Scenarios.PrintFetched | cmd/de/shortcut.go:181-211 | Running the listing on the array as fetched gives the two-line text. |

## Left out

- `getMentionName`, `getStories` and `myStories` (cmd/de/shortcut.go:122-179 and 213 onwards) are not modelled. They are HTTP requests and JSON decoding against the Shortcut API.
- The command-line wiring in cmd/de/main.go is not modelled. Its `shortcutStoryConfig` (main.go:10-13) is `Stories.StoryConfig`.
- The OS keyring (`go-keyring`) is replaced by the `Keyring` class. Its backend failures are chosen in advance through `Faults`, one optional message per operation.
- Credentials.Keyring.Delete: deleting an entry that is not there reports `ErrNotFound`, which is what go-keyring does. The Go code in this repository does not show that behaviour; `DeleteShortcutApiKey`'s missing-key case depends on this choice.
- Standard input is modelled as a string. The only read error modelled is end of input before a newline.
- Each `fmt.Println` is modelled as one entry of `printed` (credential flow) or as the returned `output` (listing). The newline that `Println` adds and the write to standard output are not modelled.
- Text.ToLower: `strings.ToLower` is modelled for the ASCII letters only. Other letters pass through unchanged, so titles with non-ASCII capitals are not lower-cased as Go would do it.
- Text.ReplaceAll: modelled only for a single character replaced by a single character, which is the only way the source calls it.
- Stories.SortByMovedAt: Go's `sort.Slice` is unstable and its exact output order among stories with equal `movedAt` is unspecified. The model promises only sortedness and permutation, and uses an insertion sort of its own.
- Stories.PrintStories: the always-nil `error` result of `printStories` is not modelled.
- Story ids are unbounded integers. Go's `int` is 64-bit, but `%d` of an id is the same whatever the width.
