# Manta Polls: poll page and poll form, modelled in Dafny

Manta Polls is a single-page web application. It connects a browser wallet
to a deployed on-chain polling contract, lists the polls that contract
holds, creates polls and casts votes. The contract itself is not part of the
application: the page only calls its reads (`pollCount`, `polls(id)`,
`getPollOptions`, `getPollVotes`) and writes (`createPoll`, `vote`).

This project models the two pieces of sequential logic in the page's own
code:

- `PollSync.dfy` (`src/components/project.tsx`, the `MantaPolls`
  component). It covers the poll snapshot that `loadPolls` builds by walking
  ids `1..pollCount`, the guards and write/confirm/reset/reload sequence of
  `createPoll`, `handleCreatePoll` and `castVote`, the error line that
  `handleError` formats, the `split(',')`/`trim` of the options text, the
  vote total, and `connectWallet` only in so far as it sets the handle and
  calls `loadPolls`.
  The contract is an oracle. A `ContractView` says what each read answers
  during one load: `pollCount` may throw, and for each id the title read,
  the options read and the per-option vote reads each either answer or
  throw. A `TxOutcome` says whether a write's call threw, its `tx.wait()`
  threw, or it was confirmed. The component's state is the class
  `MantaPolls`, and its handlers are methods. The loop of `loadPolls` is
  the method `CollectPolls`, proved against the function `Snapshot`.
- `PollForm.dfy` (`src/components/CreatePollForm.js`). It covers the option
  list editor: append an empty entry, remove at a position, replace at a
  position, and the validating submit. The list operations are pure
  functions. The component is the class `CreatePollForm`, whose handlers
  reassign its two fields.
- `Text.dfy` holds JavaScript's `String.prototype.trim`, which strips the
  WhiteSpace and LineTerminator code points of ECMA-262. It also holds
  `split` on a one-character separator. `Wrappers.dfy` holds `Option` and
  `Result`.

The two creation paths validate differently, and the model follows the
code. The page's own form (`createPoll`) checks only that the title and the
options text are non-empty. It sends every piece of the split text, empty
ones included. For example, `"Pizza, , "` goes out as `["Pizza", "", ""]`
(`PollSync.PizzaIsSentWithEmptyOptions`). Rejecting such input before any
network call would be the stricter reading of "a poll needs two options",
but this path does not do it. Only `CreatePollForm` requires two non-blank
options, and it refuses `["Pizza", " ", " "]` (`PollForm.PizzaOnlyIsRefused`).
`handleCreatePoll`, the callback meant for that form, is not referenced
anywhere in `project.tsx` as shown. It is modelled all the same.

## Model

| member | source | states |
|---|---|---|
| `Text.TrimStartCut` | src/components/project.tsx:263 | trim's leading cut removes only whitespace, and what remains does not start with whitespace |
| `Text.TrimEndCut` | src/components/project.tsx:263 | trim's trailing cut removes only whitespace, and what remains does not end with whitespace |
| `Text.TrimIsSlice` | src/components/project.tsx:263 | a trimmed option is a contiguous piece of the input; only whitespace is cut on each side; it neither starts nor ends with whitespace |
| `Text.TrimEmptyIff` | src/components/CreatePollForm.js:28 | `option.trim() === ''` holds exactly when the entry is all whitespace (in both directions) |
| `Text.TrimIdempotent` | src/components/project.tsx:263 | trimming an already trimmed option changes nothing |
| `Text.SplitPieces` | src/components/project.tsx:263 | `split(',')` gives one more piece than there are commas; no piece contains a comma; joining the pieces with commas gives the text back |
| `Text.SplitNoSeparator` | src/components/project.tsx:263 | a text without a comma splits into itself alone |
| `Text.SplitFirstPiece` | src/components/project.tsx:263 | the first piece runs up to the first comma, and the rest splits on its own |
| `PollSync.SplitOptions` | src/components/project.tsx:263 | the options sent number commas + 1; they are the split pieces in input order, each trimmed; empty pieces are kept |
| `PollSync.PizzaIsSentWithEmptyOptions` | src/components/project.tsx:253-263 | `"Pizza, , "` passes createPoll's guards and is sent as `["Pizza", "", ""]` |
| `PollSync.ErrorMessage` | src/components/project.tsx:153-160 | the error line is the prefix, then `": "`, then the Error's message, or "An unknown error occurred" for any other thrown value |
| `PollSync.ErrorMessageShowsCause` | src/components/project.tsx:153-160 | an error line is never empty, so the alert box always shows; with a fixed prefix, equal lines mean equal messages |
| `PollSync.ReadVotes` | src/components/project.tsx:211-215 | vote reads succeed exactly when every option's read succeeds; the counts then come one per option, index-aligned, `votes[k]` being the count read for `options[k]` |
| `PollSync.ReadPoll` | src/components/project.tsx:204-222 | a poll is read exactly when its title, options and every vote read succeed; it then carries the id, the title and options read, and index-aligned counts |
| `PollSync.SnapshotWellFormed` | src/components/project.tsx:200-226 | the loaded ids strictly ascend, lie in `1..pollCount`, so there are at most `pollCount` polls; every poll has one count per option |
| `PollSync.SnapshotExact` | src/components/project.tsx:202-226 | a poll is loaded exactly when its id is in `1..pollCount` and reading that id gave it; a failing id is dropped and later ids are still read |
| `PollSync.SnapshotHasEachReadablePoll` | src/components/project.tsx:202-226 | every id in range whose reads succeed appears exactly once, with what the contract answered |
| `PollSync.CollectPolls` | src/components/project.tsx:200-226 | the loop's `loadedPolls` is the snapshot: well formed, at most `pollCount` long, holding exactly the polls read successfully |
| `PollSync.ReduceIsSum` | src/components/project.tsx:410 | the left fold `poll.votes.reduce((a, b) => a + parseInt(b), 0)`, with `parseInt` of a count's decimal string taken as the count itself, is the starting value plus the sum of the counts |
| `PollSync.TotalBoundsEachCount` | src/components/project.tsx:390-392 | the total is the sum of the counts, no option's bar exceeds it, and it is 0 exactly when no option has votes |
| `PollSync.SumBoundsEach` | src/components/project.tsx:410 | every count is at most the sum, and the sum is 0 exactly when all counts are 0 |
| `PollSync.ContractToUse` | src/components/project.tsx:191 | an explicit contract instance takes precedence over the stored one |
| `PollSync.LoadOutcome` | src/components/project.tsx:190-237 | with no handle, polls stay and the error is "Contract is not initialized…"; if `pollCount` throws, polls stay and the error is "Failed to load polls: …"; otherwise the error is cleared and polls are exactly the successfully read ones; well-formedness is kept |
| `PollSync.LoadForgetsPrevious` | src/components/project.tsx:197-229 | a load that reaches `pollCount` does not depend on the polls shown before |
| `PollSync.CreateGuard` | src/components/project.tsx:243-256 | the transaction goes ahead exactly when the wallet, the contract, the title and the options text are all present; otherwise the first failing guard, in that order, gives its own message |
| `PollSync.MantaPolls.constructor` | src/components/project.tsx:135-144 | the page starts with no contract, no wallet, no polls, empty fields and no error |
| `PollSync.MantaPolls.EditTitle` | src/components/project.tsx:356-358 | the title input sets `newPollTitle` and nothing else |
| `PollSync.MantaPolls.EditOptions` | src/components/project.tsx:365-367 | the options textarea sets `newPollOptions` and nothing else |
| `PollSync.MantaPolls.LoadPolls` | src/components/project.tsx:190-237 | the new polls and error are `LoadOutcome` of the handle chosen by precedence, what the contract answered, and the old polls; the polls on display stay well formed |
| `PollSync.MantaPolls.ConnectWallet` | src/components/project.tsx:162-188 | without a provider, only the error changes; a failing signer changes only the error; a failing address read leaves the contract set but no wallet; on success the wallet is set and polls load through the new handle passed explicitly |
| `PollSync.MantaPolls.CreatePoll` | src/components/project.tsx:239-284 | a failing guard sets its message, sends nothing and changes nothing else; otherwise the title and split options are sent. Only a confirmed transaction resets both fields and reloads. A failed one keeps the fields and polls and sets "Failed to create poll: …" |
| `PollSync.MantaPolls.HandleCreatePoll` | src/components/project.tsx:286-308 | with no contract, it sends nothing and sets "Contract is not initialized…"; otherwise it sends what it is given; it reloads only after confirmation, and it sets "Failed to create poll: …" on failure |
| `PollSync.MantaPolls.CastVote` | src/components/project.tsx:310-321 | with no contract, it is a silent no-op and the error is unchanged; otherwise it sends the vote; it reloads only after confirmation, and it sets "Failed to cast vote: …" on failure |
| `PollForm.AddOption` | src/components/CreatePollForm.js:11-13 | exactly one `""` is appended; earlier entries are unchanged |
| `PollForm.RemoveAtDeletesOne` | src/components/CreatePollForm.js:15-18 | filtering by position removes exactly the entry at an in-range index and keeps the rest in order; an out-of-range index leaves the list unchanged |
| `PollForm.ReplaceAt` | src/components/CreatePollForm.js:20-24 | only entry `i` becomes the new value; the length and all other entries are unchanged |
| `PollForm.ValidOptionsMembers` | src/components/CreatePollForm.js:28 | a string is in `validOptions` exactly when it is an entry of the list and its trim is non-empty; entries are kept untrimmed |
| `PollForm.ValidOptionsAppend` | src/components/CreatePollForm.js:28 | the filter keeps the original order: filtering a concatenation gives the concatenation of the filtered parts |
| `PollForm.ValidOptionsAllBlank` | src/components/CreatePollForm.js:28 | entries that are all whitespace never reach `validOptions` |
| `PollForm.Submit` | src/components/CreatePollForm.js:26-36 | `onCreatePoll(title, validOptions)` is called exactly when the title is non-empty and at least two options are non-blank; the form then resets to `""` / `["", ""]`, and otherwise stays as it was |
| `PollForm.SubmittedIsValid` | src/components/CreatePollForm.js:28-30 | what reaches `onCreatePoll` has a non-empty title and at least two options; each is non-blank and is an entry of the form |
| `PollForm.PizzaOnlyIsRefused` | src/components/CreatePollForm.js:28-35 | options `"Pizza", " ", " "` are refused whatever the title |
| `PollForm.ApplyKeepsTwo` | src/components/CreatePollForm.js:57-66 | each event the rendered form offers (remove only at position 2 or later) keeps at least two entries |
| `PollForm.RunKeepsTwo` | src/components/CreatePollForm.js:50-66 | through any run of offered events, the list never has fewer than two entries |
| `PollForm.CreatePollForm.constructor` | src/components/CreatePollForm.js:8-9 | the form starts with `title == ""` and `options == ["", ""]` |
| `PollForm.CreatePollForm.SetTitle` | src/components/CreatePollForm.js:44-45 | the title input sets the title and leaves the options alone |
| `PollForm.CreatePollForm.HandleAddOption` | src/components/CreatePollForm.js:11-13 | the options become `AddOption` of the old ones; the title is unchanged; at least two entries are kept |
| `PollForm.CreatePollForm.HandleRemoveOption` | src/components/CreatePollForm.js:15-18 | exactly entry `index` is removed, or nothing when out of range; the title is unchanged; removing at position 2 or later keeps two entries |
| `PollForm.CreatePollForm.HandleOptionChange` | src/components/CreatePollForm.js:20-24 | only the entry at `index` changes; the title is unchanged; at least two entries are kept |
| `PollForm.CreatePollForm.HandleSubmit` | src/components/CreatePollForm.js:26-36 | the new state and the `onCreatePoll` call are those of `Submit`; a call carries a non-empty title and at least two non-blank options taken from the form; without a call, title and options are unchanged |

## Left out

- Wallet and provider plumbing (`BrowserProvider`, `getSigner`, `getAddress`, and the `window.ethereum` check in `useEffect`) are foreign browser and library calls. Provider presence is a constructor argument. Their outcomes are a `ConnectOutcome` argument.
- The ethers `Contract` object and the ABI are replaced by the `ContractView` and `TxOutcome` oracles. What the contract does on chain stays out: id assignment, vote counting, vote monotonicity, and whether a vote for an unknown option is rejected. So the end-to-end create-then-vote scenario and the monotonicity of counts across loads are not stated.
- Async scheduling is not modelled; each handler is one step from its start to its final state. While a write is awaited, the page briefly shows an empty error line. That intermediate state, and operations that overlap in time, are not modelled.
- `Promise.all` asks for the per-option counts concurrently. The model reads them in option order. Results are assembled by index and all reads must succeed, so the outcome is the same.
- BigInt values, `toString` and `parseInt` are plain `nat` here. So `parseInt` losing precision above 2^53 is not modelled.
- Strings are sequences of Dafny chars, which are Unicode scalar values: a character outside the BMP is one char where JavaScript has two UTF-16 code units, and lone surrogates cannot be represented. Neither changes `trim` or `split(',')`, since no whitespace code point and not ',' is a surrogate.
- The title of a poll is whatever `poll.title` gives for the result of `polls(id)`. The ABI declares a single string output for `polls`, which ethers may return unwrapped, so `poll.title` may be `undefined` in the page as written. The oracle's title read stands for that value; its type is not modelled.
- JSX rendering is left out: the `Progress` bars, the cards, the `<select>` markup (including its empty placeholder entry), the `NetworkIcon`, `alert`, `console.log`/`console.error`, and the `networkName`/`isConnecting` state, which is never updated. The `required` attribute on the form's title input is browser validation, so also left out.
- `PollForm.CreatePollForm.HandleOptionChange`: requires an index of an existing entry, because the rendered inputs only pass such indices; JavaScript would turn an index past the end into a sparse array.
- `next.config.mjs` is static-export build configuration with no logic.
