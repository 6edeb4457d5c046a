# ZFSL value types in Dafny

ZFSL (Zero Dependencies File Selection and Copy Tool) is an interactive tool for
copying files selectively. You point it at a source directory, a target directory
and a file extension, it previews each matching file, and it asks whether to copy
that file. The source built so far contains only the tool's value types:

- `Config` is an immutable record. It holds the source directory, the target
  directory and the extension. Its compact constructor rejects an extension that
  is blank after `String.trim()`. `normalizedExtension()` puts a `.` in front of
  the extension when it has none.
- `OperationResult` is a sealed union. Its variants are `Success(source, target)`,
  `Skip(source, reason)` and `Error(source, message, cause)`.
- `ProcessingState` is a record used as an accumulator. It holds four Java
  `int` counters (total, copied, skipped, errors) and an ordered list of
  results. The record's fields are final, but the list itself is a mutable
  `ArrayList` that the `results()` accessor hands out.
  `initial()` builds the empty state. `withTotalFiles` replaces the total.
  `withResult` copies the list, appends one result, and bumps the counter that
  matches the result's variant. `formatSummary()` prints the counters in a
  fixed text block.

The model is written as pure functions over datatypes, the same form the source
has:

- `wrappers.dfy`: `Option` and `Result`. A `Result` stands for a constructor that
  may throw.
- `paths.dfy`: `Path`, an opaque string.
- `java_lang.dfy`: the parts of `java.lang` the records depend on. These are the
  32-bit `int` with two's-complement wrap-around (`Int32`, `Inc32`) and
  `String.trim()`, which cuts characters up to U+0020 from both ends.
- `decimal.dfy`: the text `%d` writes for an `int`, plus a parser proved to be its
  inverse in both directions.
- `configuration.dfy`: `Config`, its constructor check and `normalizedExtension`.
- `processing.dfy`: `OperationResult`, `ProcessingState` and its operations. The
  `Consistent` invariant says each counter equals the number of results of its
  variant. `Run` replays any sequence of `withTotalFiles` and `withResult` calls
  from `initial()`.
- `summary.dfy`: `formatSummary`, plus a reader proved to recover the four
  counters from the text.

In three places the behaviour one might expect differs from what the code
does. The model follows the code in all three:

- One might expect an extension to need at least one character after the dot
  once normalised. The code rejects only a blank extension. So `"."` is
  accepted, and its normalised form `"."` is one character long
  (`DotAloneAccepted`). The stored extension is also never trimmed, so `" txt"`
  normalises to `". txt"` (`UntrimmedExtensionKept`).
- One might expect building a `Config` to fail on a bad source or target
  directory. The constructor checks only the extension. The directory checks
  are two separate boolean methods, and nothing calls them.
- The Javadoc of `withTotalFiles` (ZFSL.java:100) says it creates a state with
  an "incremented" total. The code replaces the total with its argument
  (ZFSL.java:103), and `WithTotalFiles` does the same.

## Model

| member | source | states |
|---|---|---|
| `JavaLang.Inc32` | ZFSL.java:115-119 | The counter increment is Java `int` addition. It equals `x + 1` reduced modulo 2^32 into the `int` range, and equals `x + 1` whenever `x` is below `Integer.MAX_VALUE` |
| `JavaLang.Trim` | ZFSL.java:25 | `trim()` gives the infix of the extension left after cutting characters up to U+0020 from both ends. What it cuts is all such characters, and what remains neither starts nor ends with one |
| `JavaLang.TrimEmptyIffBlank` | ZFSL.java:25 | `fileExtension.trim().isEmpty()` holds exactly when every character of the extension is at most U+0020 |
| `Configuration.NewConfig` | ZFSL.java:20-28 | Construction succeeds exactly when the extension is not blank. On success the three arguments are stored unchanged and the result satisfies `Valid`. On failure it throws `IllegalArgumentException("File extension cannot be empty")` |
| `Configuration.NormalizedExtension` | ZFSL.java:53-55 | `normalizedExtension()` starts with `.` and ends with the stored extension. It equals the stored extension exactly when that already starts with `.`, and is otherwise one character longer |
| `Configuration.NormalizedIsShortestDotted` | ZFSL.java:53-55 | No string that starts with `.` and ends with the stored extension is shorter than the normalised extension |
| `Configuration.NormalizeIdempotent` | ZFSL.java:53-55 | Normalising an already normalised extension returns it unchanged |
| `Configuration.NormalizedOfValidNotBlank` | ZFSL.java:20-55 | A `Config` passes the constructor's check exactly when its normalised extension holds a character above U+0020 in the part taken from the stored extension, not counting a `.` that normalisation put in front |
| `Configuration.DotAloneAccepted` | ZFSL.java:25-27 | The constructor accepts the extension `"."`, whose normalised form is `"."` itself |
| `Configuration.UntrimmedExtensionKept` | ZFSL.java:20-54 | An extension that starts with a blank but is not blank overall (such as `" txt"`) is accepted and stored untrimmed. It normalises to `.` followed by the whole extension, so the leading blank survives |
| `Processing.Initial` | ZFSL.java:95-97 | `initial()` has total 0, every outcome counter 0 and no results, and it is consistent |
| `Processing.WithTotalFiles` | ZFSL.java:102-104 | `withTotalFiles(n)` sets the total to `n`. It keeps the results and all three outcome counters, and it preserves consistency in both directions |
| `Processing.WithResult` | ZFSL.java:109-121 | `withResult(r)` returns the old results followed by `r`, in order. It keeps the total. It increments (with `int` wrap-around) exactly the counter matched to `r`'s variant: `Success` to copied, `Skip` to skipped, `Error` to errors. The other two counters stay the same |
| `Processing.CountsPartition` | ZFSL.java:113-120 | Every result feeds exactly one counter, so the three per-variant counts of a results list sum to its length |
| `Processing.ConsistentCountersSum` | ZFSL.java:86-91 | In a consistent state, copied + skipped + errors equals the number of results |
| `Processing.WithResultKeepsConsistent` | ZFSL.java:109-121 | Take a consistent state whose results list can still grow (fewer than `Integer.MAX_VALUE` elements). `withResult` keeps it consistent, and the matched counter grows by exactly one, with no wrap-around |
| `Processing.RunInvariant` | ZFSL.java:95-120 | Any state built from `initial()` by `withTotalFiles` and `withResult` calls holds: the recorded results in call order; the last total set, or 0; counters that each equal the number of results of their variant; and counters that sum to the number of results |
| `Decimal.Render` | ZFSL.java:135 | `%d` writes a non-empty text of ASCII digits, with a leading `-` exactly for negative values |
| `Decimal.ParseRender` | ZFSL.java:135 | Reading back the text `%d` writes gives the same integer, for every integer |
| `Decimal.Parse` | ZFSL.java:135 | The reader of `%d` text accepts exactly the canonical decimal texts: digits with no leading zero, optionally after a `-` that is not followed by `0` |
| `Decimal.RenderParse` | ZFSL.java:135 | Every text the reader accepts is what `%d` writes for the value it denotes |
| `Summary.FormatSummary` | ZFSL.java:126-136 | `formatSummary()` starts with a blank line, `Operation Summary:` and a separator line. Then come `Total files found:`, `Files copied:`, `Files skipped:` and `Files with errors:`, filled in that order from total, copied, skipped and errors. Reading the text back returns exactly those four counters |
| `Summary.ParseSummaryIffFormatSummary` | ZFSL.java:126-136 | A text reads back as a state's four counters exactly when it is that state's `formatSummary()`. So each counter is written exactly as `%d` writes it, and no other text qualifies |
| `Summary.FormatSummaryInjective` | ZFSL.java:126-136 | Two states print the same summary only if all four of their counters agree |
| `Summary.FormatSummaryIgnoresResults` | ZFSL.java:126-136 | The summary depends only on the four counters, not on the recorded results |

## Left out

- `Config.isSourceValid` and `Config.isTargetValid` (ZFSL.java:33-48) are not modelled. They only query the real filesystem (exists, is a directory, readable, writable, parent directory), and nothing in the source calls them.
- The `Objects.requireNonNull` checks (ZFSL.java:21-23) are not modelled. Dafny values cannot be null.
- The `Throwable cause` of `OperationResult.Error` is dropped. It is an opaque foreign object that no operation reads.
- Paths are plain strings. No operation in the source inspects them.
- `ProcessingState`: the model's results are an immutable sequence, so it does not capture the shared, mutable `ArrayList`. `initial()` allocates that list (ZFSL.java:96), `withTotalFiles` passes the same list object on (ZFSL.java:103), and `results()` hands it out. A caller that adds to `results()` changes the results of every state sharing the list without touching any counter, which breaks `Consistent`. `Consistent` and `RunInvariant` therefore cover only states reached through `initial`, `withTotalFiles` and `withResult`, with nobody changing `results()` from outside.
- `WithResult`: null is not modelled. `withResult(null)` appends `null` to the copy (ZFSL.java:111), and then the pattern `switch` throws `NullPointerException` (ZFSL.java:113). A state built with a `null` list throws at ZFSL.java:110.
- `main` (ZFSL.java:142-153) is not modelled. It only prints a banner. The file discovery, preview, decision prompt, copy and interactive loop it lists are not implemented in the source, so this model has no counterpart for them. That includes the loop-level property that the outcome counters never exceed the total.
- `WithResult`: a Java `ArrayList` cannot grow past `Integer.MAX_VALUE` elements, so `withResult` on such a list fails with `OutOfMemoryError`. The model's sequence has no size limit. The consistency lemmas require fewer than `Integer.MAX_VALUE` results, the limit the JVM imposes.
- `Decimal.Render`: `%d` uses the default locale. A locale with non-ASCII digits or a different minus sign would print other characters. The model assumes ASCII digits and `-`.
- The text block's line breaks are `\n`, as Java text blocks always normalise them. A platform line separator is never used.
