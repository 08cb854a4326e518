# qit — a model of its commit formatter, push guard and git invocations

qit is a small command-line wrapper around `git`. Its subcommands are `commit`, `log`, `push` and `undo`.

- `commit <type> [--area <area>] <message>` builds a conventional commit line, `<emoji> <type>[(<area>)]: <message>`. One of nine fixed glyphs is chosen by the commit type, and the environment variable QIT_DISABLE_EMOJIS set to `true` switches the glyph off. The line is trimmed. qit then runs `git add -A * .*` and `git commit -am <line>`.
- `log [--short]` runs `git log`, adding `--oneline` for the short form.
- `push [--force]` first counts the repository's non-ignored status entries. Without `--force` it refuses to push while that count is positive. Otherwise it runs `git push`, adding `--force` when forced.
- `undo` runs `git reset --soft HEAD~1`.

Each git invocation is spawned and then waited for. An I/O error from either step ends the subcommand with that error. The exit status of `git` itself is never examined.

The model has six modules:

- `Wrappers`: Option and Result.
- `Text`: Rust's `str::trim` over the Unicode White_Space property, which is what `char::is_whitespace` tests.
- `CommitMessage`: the commit types, their glyphs, the emoji switch and the formatted line.
- `Status`: the pending-change count of `repo_status`, over a given status listing.
- `Git`: argument lists, invocation outcomes, and a `Runner` class. The runner records each invocation in its `runs` sequence and reports the outcome scripted for it.
- `Qit`: the error kinds, one function per subcommand giving the invocations it issues and its result, the imperative handlers proved against those functions, and the properties.

Two behaviours worth noting:

- A `git add` that exits with a failing status does not stop the `git commit` that follows. Only a spawn or wait error does.
- A commit type outside the nine is a panic in the source. The model returns `UnknownCommitType` before issuing anything.

## Model

| member | source | states |
|---|---|---|
| `Text.TrimStart` | src/main.rs:158 | drops leading Unicode whitespace; its contract is `Text.TrimStartSpec` |
| `Text.TrimEnd` | src/main.rs:158 | drops trailing Unicode whitespace; its contract is `Text.TrimEndSpec` |
| `Text.Trim` | src/main.rs:158 | `str::trim`: both ends trimmed; what it leaves of a commit line is stated by `CommitMessage.TrimDraft` and `CommitMessage.FormatShape` |
| `Text.TrimStartSpec` | src/main.rs:158 | trimming the front leaves the suffix after a blank prefix, and that suffix does not start with whitespace |
| `Text.TrimEndSpec` | src/main.rs:158 | trimming the end leaves the prefix before a blank suffix, and that prefix does not end with whitespace |
| `Text.TrimStartBlankPrefix` | src/main.rs:158 | a blank prefix is dropped whole by trimming |
| `Text.TrimEndAppend` | src/main.rs:158 | trimming the end of `a + b` touches only `b` when `b` is not blank, and drops all of `b` when it is |
| `CommitMessage.Name` | src/main.rs:44-46 | each commit type is written as a non-empty lower-case word from the accepted list |
| `CommitMessage.ParseType` | src/main.rs:130-143 | a word is accepted exactly when it is one of the nine listed values, and it is accepted as the type written that way; any other word is rejected |
| `CommitMessage.ParseName` | src/main.rs:130-143 | every type is accepted back from its own word |
| `CommitMessage.Emoji` | src/main.rs:130-139 | each type has a non-empty glyph that contains no whitespace |
| `CommitMessage.EmojiInjective` | src/main.rs:130-139 | distinct types have distinct glyphs, already in their first character |
| `CommitMessage.EmojisDisabled` | src/main.rs:144-153 | the switch is on only when QIT_DISABLE_EMOJIS is set to exactly `true`; an absent or unreadable variable, or any other value, leaves the glyph on (stated through `CommitMessage.Glyph`) |
| `CommitMessage.Glyph` | src/main.rs:144-153 | the glyph is empty exactly when QIT_DISABLE_EMOJIS reads `true`; otherwise it is the type's glyph, including when the variable is absent |
| `CommitMessage.Draft` | src/main.rs:154-157 | the two `format!` arms, with and without an area; their common shape is stated by `CommitMessage.DraftParts` |
| `CommitMessage.Format` | src/main.rs:154-158 | the commit line: the draft with the switch applied to the glyph, trimmed; specified by `CommitMessage.FormatShape` and the lemmas after it |
| `CommitMessage.FormatShape` | src/main.rs:154-158 | the trimmed line is the optional glyph with a space, the type, the optional `(area)`, a colon, and then, unless the text is blank, a space and the text without its trailing whitespace |
| `CommitMessage.DraftParts` | src/main.rs:154-157 | both `format!` arms put glyph, space, type and optional scope, then `": "`, then the text |
| `CommitMessage.TrimDraft` | src/main.rs:154-158 | what trimming leaves of a draft line, for any glyph and type word that start with a non-whitespace character |
| `CommitMessage.StartsWithType` | src/main.rs:144-158 | with emojis disabled the line starts with the type word and has no leading space |
| `CommitMessage.StartsWithGlyph` | src/main.rs:144-158 | with emojis enabled the line starts with the type's glyph and one space |
| `CommitMessage.FormatKeepsText` | src/main.rs:154-158 | a text that does not end in whitespace appears whole after `<header>: ` |
| `CommitMessage.BlankMessage` | src/main.rs:154-158 | a blank text leaves only the header and the colon, with no trailing space |
| `CommitMessage.FeatureExample` | src/main.rs:36 | `feature` with `Add thing` gives `✨ feature: Add thing` whenever emojis are not disabled |
| `CommitMessage.FeatureAreaExample` | src/main.rs:37 | `feature`, area `cli`, `Improve args` gives `✨ feature(cli): Improve args` |
| `CommitMessage.ChoreExample` | src/main.rs:38 | `chore` with `Do thing` gives `🚧 chore: Do thing` |
| `CommitMessage.DeployExample` | src/main.rs:39 | `deploy`, area `api`, `Deploy to production` gives `🚀 deploy(api): Deploy to production` |
| `CommitMessage.DisabledExample` | src/main.rs:144-158 | with QIT_DISABLE_EMOJIS=`true`, `fix`, area `cli`, `Fix bug` gives exactly `fix(cli): Fix bug` |
| `CommitMessage.LeadingWordOf` | src/main.rs:154-157 | helper of `FormatDeterminesType`, a general fact about strings: a lower-case word followed by a non-letter can be read back from the front of a string |
| `CommitMessage.WordBeforeMark` | src/main.rs:154-157 | helper of `FormatDeterminesType`, a general fact about strings: equal strings whose lower-case front words are each followed by a non-letter have the same front word |
| `CommitMessage.SplitAfterType` | src/main.rs:144-158 | with emojis disabled the line is the type word followed by `(` or `:` |
| `CommitMessage.FormatDeterminesType` | src/main.rs:130-158 | equal commit lines under the same switch have the same commit type |
| `Status.CountPending` | src/main.rs:219-223 | the count of non-ignored entries is at most the number of entries; it is zero exactly when every entry is ignored, and it equals the number of entries exactly when none is |
| `Status.CountPendingAppend` | src/main.rs:219-223 | the count of a concatenation is the sum of the counts |
| `Status.RepoStatus` | src/main.rs:217-225 | a failed open or listing is passed on as that error; a successful listing gives a count no larger than the number of entries, and zero exactly when every entry is ignored |
| `Git.Runner.Run` | src/main.rs:182 | one spawn-and-wait appends its argument list to the trace and reports the scripted outcome: an I/O error, or the exit status unexamined |
| `Qit.Sequence` | src/main.rs:160-172 | steps each followed by `?` are issued in order up to and including the first that fails to spawn or wait; the result is Ok exactly when all were issued and all got through, and otherwise it is the last issued step's I/O error |
| `Qit.SequenceOne` | src/main.rs:182 | a single step is issued and its `?` is the result |
| `Qit.SequenceTwo` | src/main.rs:160-172 | the second of two steps is issued exactly when the first got through its `?` |
| `Qit.Commit` | src/main.rs:128-174 | the handler issues exactly the invocations `CommitEffect` gives and returns its result |
| `Qit.Log` | src/main.rs:176-184 | the handler builds its argument list step by step and issues exactly what `LogEffect` gives |
| `Qit.HasPendingChanges` | src/main.rs:187-191 | a status query that fails counts as no pending changes; its effect on `push` is stated by `Qit.PushGuard` |
| `Qit.Push` | src/main.rs:186-203 | the handler checks the guard, builds its argument list step by step and issues exactly what `PushEffect` gives |
| `Qit.Undo` | src/main.rs:205-213 | the handler issues exactly what `UndoEffect` gives |
| `Qit.Dispatch` | src/main.rs:94-111 | each parsed subcommand runs its own handler, with that handler's effect |
| `Qit.CommitSteps` | src/main.rs:160-172 | a known type issues `add -A * .*` and then, exactly when that got through spawn and wait, `commit -am <line>`; an exited `git add` never stops the commit, whatever its status; an unknown type issues nothing |
| `Qit.PushGuard` | src/main.rs:186-201 | push is refused with "uncommitted changes" and nothing issued exactly when the listing succeeded, has a non-ignored entry, and push is not forced; a failed listing never blocks; otherwise exactly one `push`, with `--force` exactly when forced |
| `Qit.LogSteps` | src/main.rs:177-182 | `log` issues one `log`, with `--oneline` exactly when short |
| `Qit.UndoSteps` | src/main.rs:206-211 | `undo` issues exactly `reset --soft HEAD~1` |
| `Qit.DispatchBounds` | src/main.rs:94-111 | a subcommand issues at most two invocations, and only `commit` issues two; it issues none exactly when it failed a local check, an unknown type or uncommitted changes |

## Left out

- Argument parsing with clap (src/main.rs:12-92) is a library the model cannot see. The model starts from an already parsed `Subcommand`. No subcommand is marked required, so `qit` run without one parses, `matches.subcommand()` is `None`, and the program panics in the `_ => panic!("aaaaaaa")` arm (src/main.rs:110). `Subcommand` has no "no subcommand" value, and that panic is left out as termination plumbing.
- `handle` writes the error to standard error and exits with status 1 (src/main.rs:115-124). That is output and process termination, so it is not modelled; the model stops at the handler's `Result`.
- Spawning and waiting for real processes is left out, and so is the output `git` writes. A `Runner` records each argument list, without the leading `git`, and reports a scripted outcome per invocation; invocations past the script exit with status 0.
- `Repository::open` and `statuses` of git2 (src/main.rs:218-220) are a foreign library. The status listing, or the error of obtaining it, is an input to `push`. Which files git reports, untracked ones included, is up to git.
- Reading QIT_DISABLE_EMOJIS is an input `toggle: Option<string>`. `None` stands for an unset variable and for one whose value is not valid Unicode; both keep the glyph, as in the source.
- An unknown commit type panics in the source. The model returns `Err(UnknownCommitType)` instead, before any invocation. The clap parser never lets such a type through.
