# Log parser model

A Dafny model of the log-parsing pipeline of the AI Log Analyzer backend
(`backend/app/log_parser.py`). It covers three pieces:

- **`parse_log_line`**: turns one text line into an entry with a line number, the raw line, an optional timestamp, an optional level and a message.
  - The first match wins. A leading date-time is tried first; after it, any word becomes the level.
  - Without a date-time, the level must be a vocabulary word (INFO, ERROR, WARN, WARNING, DEBUG, TRACE, FATAL) followed straight by a colon. Letter case does not matter.
  - Otherwise the whole line is the message.
- **`parse_log_file`**: strips every line, skips the blank ones and classifies the others under their 1-based position in the file. A read failure yields the empty list.
- **`get_log_summary`**: the entry count, the number of entries per level key, and whether any entry carries a timestamp.

The two regular expressions are written as deterministic matchers over characters:

- The timestamp regex becomes a list of single-character atoms plus an optional greedy `[Z\s]`.
- The level regexes become a `Token` record (optional `[`, the word, optional `]`, optional `:`, the whitespace run). A `GreedyMatch` predicate says what greedy matching reads.

Every quantifier after the greedy `\w+` is optional, so backtracking never changes a match. Python's character classes are approximated on ASCII; see "Left out".

Modules, one file each:

- `Optional`, `Text` (`text.dfy`): `Option`, character classes, `str.strip`, `str.upper` and the maximal word and space runs.
- `Timestamp` (`timestamp.dfy`): the timestamp recogniser.
- `LevelToken` (`level_token.dfy`): the two level-token matchers.
- `Classifier` (`classifier.dfy`): `parse_log_line`.
- `ClassifierLemmas` (`classifier_lemmas.dfy`): whole families of lines and their entries, and how the message relates to the line.
- `ClassifierExamples` (`examples_classifier.dfy`): concrete lines.
- `FileParser` (`file_parser.dfy`): `parse_log_file`.
- `Summary` (`summary.dfy`): `get_log_summary`.
- `Pipeline` (`pipeline.dfy`): what the summary of a parsed file says about the file's lines.

How the code treats two cases that are easy to misread:

- **Entries without a level.** Every entry the parser builds has a `level` key, set to `None` when no level was found (backend/app/log_parser.py:53). So `entry.get('level', 'UNKNOWN')` returns `None`, and those entries are counted under the `None` key, not under `UNKNOWN`. Level keys are therefore `Option<string>`. The key `UNKNOWN` appears only when a timestamp is followed by the word `unknown`, in any letter case (`ClassifierLemmas.UnknownLevel`, `Pipeline.UnknownKeyOfFile`).
- **The timestamp flag.** It is the truthiness of `entry.get('timestamp')`, so a present but empty timestamp would not count. Parser-built timestamps have at least 19 characters, so for parsed files the flag means "some entry has a timestamp" (`Pipeline.TimestampFlagOfFile`).

## Model

| member | source | states |
|---|---|---|
| Text.Strip | backend/app/log_parser.py:25 | the stripped line is the slice between a whitespace-only prefix and a whitespace-only suffix, and starts and ends with non-whitespace; it is empty exactly when the line is all whitespace |
| Text.StripCharacterized | backend/app/log_parser.py:25 | any split of a string into whitespace, a core with non-whitespace ends, and whitespace strips to that core, so strip is uniquely determined |
| Text.StripIdempotent | backend/app/log_parser.py:25 | stripping an already stripped string changes nothing |
| Text.StripSkipsLeadingSpace | backend/app/log_parser.py:65 | whitespace before a string does not change what it strips to |
| Text.StripKeepsEnd | backend/app/log_parser.py:84 | a string without trailing whitespace strips to one of its suffixes |
| Text.WordLen | backend/app/log_parser.py:79 | `\w+` reads a maximal run of word characters: every character of the run is a word character and the one after it is not |
| Text.WordLenIs | backend/app/log_parser.py:79 | any maximal word run at the start of a string is the one `WordLen` measures |
| Text.Upper | backend/app/log_parser.py:72 | upper-casing keeps the length, turns each lower-case letter into its capital and leaves every other character alone |
| Text.UpperIdempotent | backend/app/log_parser.py:82 | an upper-cased string is unchanged by upper-casing it again |
| Text.UpperEqualIgnoringCase | backend/app/log_parser.py:80-82 | two strings upper-case to the same string iff they have the same length and agree at every position up to ASCII letter case |
| Timestamp.MatchAtoms | backend/app/log_parser.py:59 | an atom list matches exactly when each atom accepts the character at its position |
| Timestamp.DateTimeAtoms | backend/app/log_parser.py:59 | the atom list of the regex accepts exactly the lines whose first 19 characters are `DDDD-DD-DD`, `T` or whitespace, `DD:DD:DD` |
| Timestamp.MatchTimestamp | backend/app/log_parser.py:59-60 | the match succeeds iff the line opens with the date-time shape; it ends at 19, or at 20 exactly when a `Z` or whitespace follows |
| Timestamp.TimestampText | backend/app/log_parser.py:63 | the stored timestamp is a prefix of the line of length 19, or 20 ending in `Z`; it is the 20-character prefix exactly when the 20th character is `Z` |
| LevelToken.MatchBracketed | backend/app/log_parser.py:68-69 | `^\[?(\w+)\]?:?\s*` matches iff the text opens with a word character or with `[` and a word character; the match is the greedy one: `[` taken when present, a maximal word, then `]`, `:` and whitespace each taken when present |
| LevelToken.GreedyUnique | backend/app/log_parser.py:68-69 | at most one token reading satisfies `GreedyMatch`, so the match `re.match` finds is determined |
| LevelToken.MatchBracketedComplete | backend/app/log_parser.py:68-69 | whenever a greedy reading of the text exists, the bracketed matcher returns exactly it |
| LevelToken.MatchColon | backend/app/log_parser.py:79-80 | `^(\w+):\s*` matches iff a non-empty maximal word run is followed straight by `:`; the group is that run |
| LevelToken.SpelledIsPrefix | backend/app/log_parser.py:73 | `match.end()` is the length of the consumed pieces, and they are exactly the start of the text |
| LevelToken.SplitAtMatch | backend/app/log_parser.py:73 | the text is the consumed prefix followed by the message, and stripping that message changes nothing when the text was stripped |
| Classifier.Remainder | backend/app/log_parser.py:65 | the stripped remainder after the timestamp is empty or starts and ends with non-whitespace |
| Classifier.RemainderAfterMatch | backend/app/log_parser.py:63-65 | cutting at `match.end()` gives the same stripped remainder as cutting after the stored timestamp, whether or not the match took a trailing space |
| Classifier.ParseLogLine | backend/app/log_parser.py:39-86 | the entry keeps line number and raw line; a timestamp is set iff the line opens with one and is then a prefix of it; a set level is an upper-cased word and, without a timestamp, in the vocabulary; neither is set exactly when the line has no timestamp and no vocabulary-word-colon prefix, and then the message is the line |
| Classifier.ParseStamped | backend/app/log_parser.py:62-75 | after a timestamp the level is set iff the stripped remainder opens with a word or `[` and a word; it is then that word upper-cased, with no vocabulary check, and the remainder is the consumed prefix followed by the message; otherwise the message is the remainder |
| Classifier.ParseUnstamped | backend/app/log_parser.py:77-84 | without a timestamp the level is set iff the line opens with a vocabulary word in any case followed by `:`; it is then that word upper-cased and the message is the text after the colon, stripped; otherwise the message is the line |
| Classifier.AfterColon | backend/app/log_parser.py:84 | cutting at `match.end()` after `\s*` leaves the same stripped message as cutting right after the colon |
| ClassifierLemmas.MessageIsSuffix | backend/app/log_parser.py:62-84 | on a stripped line the message is a suffix of the line: the line is the timestamp and level prefix followed by the message |
| ClassifierLemmas.VocabularyLine | backend/app/log_parser.py:79-84 | for every vocabulary word in any case, whitespace run and stripped message, `word: message` classifies to that word upper-cased and exactly the message, with no timestamp |
| ClassifierLemmas.StampedBracketLine | backend/app/log_parser.py:59-73 | for every timestamp, word and non-empty stripped message, `timestamp [word] message` classifies to that timestamp, the upper-cased word and exactly the message |
| ClassifierLemmas.UnleveledLine | backend/app/log_parser.py:49-55 | a line that does not open with a digit, and whose opening word run is empty, not followed straight by `:`, or outside the vocabulary, is kept whole with no timestamp and no level |
| ClassifierLemmas.OutsideVocabularyLevel | backend/app/log_parser.py:65-72 | a level outside the vocabulary comes only from a line that opens with a timestamp, and it is the upper-cased word the bracketed matcher reads after it |
| ClassifierLemmas.UnknownLevel | backend/app/log_parser.py:65-72 | a line gets level UNKNOWN only if it opens with a timestamp followed by a seven-letter word spelling `unknown` in any letter case |
| ClassifierLemmas.StampedPrefix | backend/app/log_parser.py:59-63 | a timestamp followed by whitespace is recognised and read back whole |
| ClassifierExamples.StampedBracketedExample | backend/app/log_parser.py:57-75 | `2024-01-01T10:00:00Z [ERROR] disk full` gives timestamp `2024-01-01T10:00:00Z`, level ERROR and message `disk full` |
| ClassifierExamples.StampedUnknownExample | backend/app/log_parser.py:65-73 | after a timestamp the word `unknown` becomes the level UNKNOWN |
| ClassifierExamples.ColonLevelExample | backend/app/log_parser.py:77-84 | `WARNING: retrying connection` gives level WARNING and message `retrying connection`, no timestamp |
| ClassifierExamples.PlainExample | backend/app/log_parser.py:49-55 | `just some text` is kept whole, with no timestamp or level |
| ClassifierExamples.LowerCaseExample | backend/app/log_parser.py:80-83 | `error: x` gives level ERROR: the vocabulary check ignores case |
| ClassifierExamples.NoColonExample | backend/app/log_parser.py:79-82 | `ERROR but no colon` gets no level |
| ClassifierExamples.SpacedColonExample | backend/app/log_parser.py:79-82 | `ERROR : x` gets no level: the colon must follow the word directly |
| ClassifierExamples.OutsideVocabularyExample | backend/app/log_parser.py:82 | `Note: hi` gets no level: the word is not in the vocabulary |
| ClassifierExamples.ImpossibleDateExample | backend/app/log_parser.py:59-75 | `2024-99-99T99:99:99` is accepted as a timestamp (no calendar check), and the empty remainder gives no level and an empty message |
| FileParser.ParseLines | backend/app/log_parser.py:24-31 | every entry is the classification of a non-blank line, stripped, under its 1-based position; line numbers strictly increase; every non-blank line has an entry |
| FileParser.ParseLogFile | backend/app/log_parser.py:20-37 | a read failure gives no entries; a read file gives the entries `ParseLines` describes |
| FileParser.ParsedCount | backend/app/log_parser.py:24-31 | each non-blank line gives exactly one entry: the entry count is the number of non-blank lines |
| FileParser.DenseWithoutBlankLines | backend/app/log_parser.py:24-31 | without blank lines every line gives an entry and the entries are numbered 1, 2, 3, ... in order |
| Summary.Tally | backend/app/log_parser.py:95-99 | the counting loop: a key is present iff some entry has that level, and its count is the number of such entries |
| Summary.AnyTimestamp | backend/app/log_parser.py:104 | true iff some entry has a present, non-empty timestamp |
| Summary.GetLogSummary | backend/app/log_parser.py:89-106 | total is the entry count; the keys are exactly the levels that occur, each with its number of entries; the flag is set iff some entry has a non-empty timestamp; no entries give `(0, {}, false)` |
| Summary.MapSumRemove | backend/app/log_parser.py:99 | the sum of the counts does not depend on the order the keys are taken |
| Summary.MapSumBump | backend/app/log_parser.py:99 | counting one more entry under a key raises the sum of the counts by one |
| Summary.CountsSumToTotal | backend/app/log_parser.py:94-99 | the per-level counts add up to the total |
| Pipeline.TotalCountsNonBlankLines | backend/app/main.py:48-49 | the total of a parsed file's summary is the number of its non-blank lines |
| Pipeline.EntryOfLine | backend/app/log_parser.py:24-31 | every non-blank line has its entry among those parsed |
| Pipeline.TimestampFlagOfFile | backend/app/log_parser.py:104 | a parsed file's timestamp flag is set iff some non-blank line, stripped, opens with a timestamp |
| Pipeline.LevelKeysOfFile | backend/app/log_parser.py:97-99 | a parsed file's level keys are `None` or upper-cased words; each key outside the vocabulary is the level of a particular non-blank line that, stripped, opens with a timestamp |
| Pipeline.UnknownKeyOfFile | backend/app/log_parser.py:97-99 | the key UNKNOWN is present only if some non-blank line, stripped, opens with a timestamp followed by a word (optionally bracketed) that upper-cases to UNKNOWN |
| Pipeline.LineCountedUnderItsLevel | backend/app/log_parser.py:97-99 | every non-blank line is counted, under the level its entry carries |
| Pipeline.UnreadableSummary | backend/app/log_parser.py:33-35 | a file that cannot be read summarises as `(0, {}, false)` |

## Left out

- `backend/app/embeddings.py` is not part of this model. It is an unfinished stub with a syntax error and an empty class, so there is no code to check a model against.
- `backend/app/main.py` is not part of this model apart from the parse-then-summarise sequence of lines 48-49 (`Pipeline`). Its HTTP routes, CORS setup, upload directory, file writing and file size are I/O plumbing.
- File reading in `parse_log_file` is not modelled: opening the file, UTF-8 decoding with `errors='ignore'`, `readlines` line splitting and the `print` on error. The model takes the lines already read, or `None` when reading raised.
- Unicode is not modelled. Python's `\d`, `\w`, `\s`, `str.strip` and `str.upper` follow Unicode rules. The model uses ASCII digits, ASCII letters, digits and `_` for word characters, the ASCII whitespace that `str.isspace` accepts, and ASCII upper-casing. Characters beyond ASCII are treated as neither digits, word characters nor whitespace, and upper-casing leaves them as they are.
- The `re.IGNORECASE` flag on the level regexes has no effect on `\w`, `:`, `[`, `]` or `\s`, so it needs no model. The case-insensitive vocabulary comparison comes from `.upper()`, which is modelled.
- Dictionary key insertion order of the summary's `levels` is not modelled. The model uses a `map`, which has no order.
- The `entry.get('level', 'UNKNOWN')` default is not modelled, because every `LogEntry` has a `level` field.
- The unused `datetime` import has no behaviour to model.
- The `if entry:` check in `parse_log_file` always passes, because the classifier never returns `None` or an empty dictionary. `FileParser.ParseLines` therefore always appends.
