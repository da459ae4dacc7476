# lineman — a verified model of its line classifier

`lineman` is a small C tool. It walks a file or directory tree and counts, for every text file, its empty lines, its comment lines and its code lines. The markers it uses come from a per-extension comment-rule table. It also keeps a histogram of file extensions and prints an aligned report. `loc.c` is a second, hard-wired variant: it knows only `//`, `/*` and `*/`.

This project models, in Dafny, the parts of both programs that decide what a line is and how a file's counters come out.

**`lineman.c`**
- `is_blank`, and the binary-file probe of `is_text_file` as a predicate on the file's bytes (module `Text`).
- The rule table, the fallback rule and `get_rule_for_file` (module `Rules`).
- `classify_line`, with the block-comment flag passed in and returned (module `Classifier`).
- The extension histogram `count_file_type`. It is a class over the fixed array `file_types` (module `FileTypes`).
- `get_dirname`, the text `print_path_column` prints, the `compute_path_column_width` clamp, base-path stripping and the trailing-slash trim of `main` (module `Layout`).
- `count_file`, as a method of a `Session` object whose fields are the former globals (module `Lineman`).

**`loc.c`**
- Its inline classifier and `count_file` (module `Loc`).

**Both**
- Module `Variants` proves how the two classifiers relate on the C-style markers. They carry the block flag identically. They differ on exactly one kind of line: one that has code and ends inside an open block. `lineman.c` counts it as a comment; `loc.c` counts it as code.

**How the C becomes Dafny**
- A file is the sequence of lines `fgets` would return. Each line is a `seq<char>` without its terminating NUL.
- A Dafny `char` stands for one C byte, so a UTF-8 path or line is its byte sequence. The C counts bytes in three places: the 15-byte extension cut (`lineman.c:221`, `lineman.c:253`), the 4095-byte cut in `get_dirname` (`lineman.c:150`) and the width test of `print_path_column` (`lineman.c:200-202`). The model counts the same units only when each character stands for one byte. The classifier compares characters one by one and is unaffected.
- Pointer out-parameters (`*in_block`, `*total`) become an input value plus a returned value.
- The character loops are `while` loops proved against recursive functions (`Classifier.Scan`, `Loc.Scan`). The per-file loops are proved against a left fold of those functions over the lines (`Lineman.Run`, `Loc.Run`).
- The histogram is a `FileTypeTable` object whose methods update an `array` in place. Its contract is stated through the ghost sequence `Histogram()` and the function `FileTypes.Record`.
- `lineman.c` bumps its counters with three independent `if`s on the line kind. The model writes them as one `if`/`else if`/`else` chain. The kinds exclude one another, so exactly one counter moves in both forms.

Three consequences of the code as written are stated rather than corrected, because they are plausible design choices:
- An argument ending in '/' (but not "/") has one '/' trimmed from `base_len`. The traversal then builds `dir//name`, so the shown path keeps a leading '/' (`Layout.StripJoinedPath`).
- A block start is tried before the line marker. So in Lua, `--[[` opens a block instead of starting a `--` comment (`Classifier.BlockStartBeforeLineMarker`).
- The extension key comes from the last '.' of the whole path (`lineman.c:215`, `lineman.c:247`). So a '.' in a directory name gives a key that holds a '/'. For example, "../proj/Makefile" has the key "/proj/makefile". It gets the fallback rule and is recorded under that key in the histogram (`Rules.DotInDirectory`).

## Model

| member | source | states |
|---|---|---|
| Text.IsBlankLine | lineman.c:121-129 | the line is blank exactly when every character is C-locale whitespace; the empty line is blank (`loc.c:36-43` is the same function) |
| Text.IsSpace | lineman.c:123 | `isspace` in the C locale: space, tab, newline, vertical tab, form feed, carriage return |
| Text.LastIndexOf | lineman.c:247 | `strrchr`: None exactly when the character is absent; otherwise a position holding it with no later occurrence |
| Text.MatchAt | lineman.c:288-289 | `strncmp(p, marker, strlen(marker)) == 0`: the marker lies wholly inside the line starting at the position |
| Text.Truncate | lineman.c:252-254 | `strncpy` into a buffer of n+1: the result is the prefix of length min(\|s\|, n) |
| Text.IsTextFile | lineman.c:131-147 | true exactly when the file opened and none of its first 512 bytes is zero (`loc.c:22-34` is the same function) |
| Text.Scannable | lineman.c:329-336 | `count_file` gets past both early returns: the probe opened the file and found no zero byte, and the second `fopen` succeeded (`loc.c:48-52` has the same returns) |
| Text.LowerKeepsNonLetter | lineman.c:256-258 | lower-casing maps a character to a given non-letter (such as '.') exactly when it is that character |
| Text.Lower | lineman.c:256-258 | `tolower` in the C locale: only 'A'..'Z' change, to the matching lower-case letter |
| Text.LowerString | lineman.c:256-258 | the buffer after the `tolower` loop: the same length, each character lower-cased (`lineman.c:224-226` is the same loop) |
| Counting.TallySnoc | lineman.c:347-349 | one more line moves exactly the counter of its own kind, by one |
| Counting.Tally | lineman.c:340-349 | the counters after the line loop: zero for no lines, then one counter bumped per line by its kind (`loc.c:54-103` counts the same way) |
| Counting.TallySum | lineman.c:340-350 | after the loop, empty + comment + code equals the number of lines read |
| Counting.TallyCountsKinds | lineman.c:347-349 | each counter equals the number of lines of its kind |
| Counting.Bump | lineman.c:347-349 | the counter of the line's kind goes up by one, the other two stay |
| Counting.Plus | lineman.c:382-384 | the total grows by each of the file's three counters |
| Rules.TableInvariants | lineman.c:83-115 | every table rule and the fallback rule has non-empty markers and a block start exactly when it has a block end; every entry names an extension |
| Rules.TableDistinct | lineman.c:83-109 | no two table entries share an extension, so the first match is the only one |
| Rules.Table | lineman.c:83-109 | the 22 rules of `rules[]`, in the table's order, with the same markers |
| Rules.Fallback | lineman.c:113-115 | `fallback_rule`: no extension, "//", "/*" and "*/" |
| Rules.ExtensionKey | lineman.c:247-258 | none when the path has no '.' or its last '.' is its first character; otherwise the text after the last '.', cut to 15 characters and lower-cased (`lineman.c:215-226` computes the same key) |
| Rules.LookupFrom | lineman.c:260-266 | the first table entry from a position whose extension is the key, else the fallback rule |
| Rules.RuleFor | lineman.c:246-267 | the rule is the fallback or a table entry whose extension is the path's key; either way it is well formed and paired |
| Rules.LookupResult | lineman.c:260-266 | the linear search from a position yields the fallback or a later table entry with that extension |
| Rules.RuleForNoExtension | lineman.c:247-250 | a path with no '.' or whose last '.' is its first character gets the fallback rule |
| Rules.RuleForKnown | lineman.c:260-263 | when the key is a table entry's extension, that entry is the rule |
| Rules.LookupSkips | lineman.c:260-263 | the search passes over non-matching entries and stops at the first matching one |
| Rules.RuleForUnknown | lineman.c:260-266 | when no table entry carries the key, the fallback rule applies |
| Rules.LookupMisses | lineman.c:260-266 | a search past every entry without a match ends at the fallback rule |
| Rules.ExtensionKeyOfLower | lineman.c:247-258 | lower-casing the whole path does not change its key |
| Rules.RuleForCaseInsensitive | lineman.c:256-258 | two paths equal up to ASCII case get the same rule |
| Rules.DotInDirectory | lineman.c:247-266 | "../proj/Makefile" has the key "/proj/makefile", taken after the '.' of "..", and gets the fallback rule |
| Rules.ExtensionOf | lineman.c:247-258 | the last '.', a copy of at most 15 characters after it and the `tolower` loop produce exactly the key (none for a missing or leading '.') |
| Rules.GetRuleForFile | lineman.c:246-267 | the table search returns exactly the rule `RuleFor` describes |
| Classifier.Scan | lineman.c:284-321 | the scan from any position never yields Empty, and a scan that leaves the block open yields Comment |
| Classifier.Classify | lineman.c:273-322 | the kind is Empty exactly for a blank line; a blank line leaves the block flag as it was; a non-blank line ending inside a block is a comment |
| Classifier.ClassifyLine | lineman.c:273-322 | the pointer loop returns exactly the kind and block flag `Classify` gives |
| Classifier.SkipToBlockEnd | lineman.c:287-296 | inside a block, everything up to the first end marker is skipped without seeing code, and scanning resumes right after the marker, outside the block |
| Classifier.StayInBlock | lineman.c:286-319 | inside a block with no end marker ahead, the line is a comment and the block stays open |
| Classifier.WholeLineInBlock | lineman.c:280-319 | a non-blank line inside an open block that holds no end marker is a comment and leaves the block open |
| Classifier.LineMarkerStops | lineman.c:305-308 | outside a block, a line marker ends the scan: code exactly when code was seen before it, the rest of the line ignored, the block closed |
| Classifier.BlockStartBeforeLineMarker | lineman.c:298-308 | outside a block, a matching block start wins over the line marker and opens the block |
| Classifier.PlainRun | lineman.c:310-314 | outside a block, a run of characters that begin no marker sets code seen exactly when it holds a non-space |
| Classifier.BlockRun | lineman.c:287-295 | inside a block, characters that cannot begin the end marker are skipped one at a time |
| Classifier.ExampleLineComment | lineman.c:305-308 | "// x" is a comment |
| Classifier.ExampleCodeThenLineComment | lineman.c:305-308 | "int x = 1; // note" is code |
| Classifier.ExampleOpenBlock | lineman.c:298-319 | "/* open" is a comment and leaves the block open |
| Classifier.ExampleClosedBlockThenCode | lineman.c:286-321 | "/* a */ int x;" is code with the block closed |
| Classifier.ExampleCodeThenOpenBlock | lineman.c:317-319 | "int x; /* open" is a comment, the block left open |
| Classifier.ExampleBlankInBlock | lineman.c:280-282 | a whitespace-only line inside a block is empty and leaves the block open |
| Classifier.ExampleLuaBlockStart | lineman.c:298-308 | with the Lua rule, "--[[ note" opens a block and is a comment |
| FileTypes.IndexOfExt | lineman.c:228-233 | the position of the first entry carrying the extension, or None exactly when no entry does |
| FileTypes.RecordWellFormed | lineman.c:214-240 | recording keeps keys unique, counts positive and at most 64 entries |
| FileTypes.IndexOfExtSameKeys | lineman.c:228-233 | the search finds nothing new among appended entries with other keys |
| FileTypes.RecordCounts | lineman.c:228-239 | recording a key adds one to its count, unless it is new and all 64 slots are used |
| FileTypes.RecordLeavesOthers | lineman.c:214-240 | recording one key leaves every other extension's count unchanged |
| FileTypes.RecordKeepsOrder | lineman.c:235-239 | entries are never moved or dropped; a new key goes at the end |
| FileTypes.Record | lineman.c:214-240 | the histogram after one `count_file_type`: unchanged without a key, the key's count bumped when present, the key appended with count 1 while fewer than 64 entries exist, otherwise unchanged |
| FileTypes.FileTypeTable.constructor | lineman.c:69-70 | the table starts with no used entries |
| FileTypes.FileTypeTable.Find | lineman.c:228-233 | the search loop returns exactly `IndexOfExt` of the used entries |
| FileTypes.FileTypeTable.Increment | lineman.c:230 | the slot's count goes up by one and nothing else changes |
| FileTypes.FileTypeTable.Append | lineman.c:235-239 | the key is appended with count 1 and the used part grows by one |
| FileTypes.FileTypeTable.CountFileType | lineman.c:214-240 | the used entries become `Record` of the old ones with the path's key: unchanged without a key, bumped when present, appended while there is room, otherwise dropped |
| Layout.DirName | lineman.c:149-159 | "." when the truncated path has no '/'; otherwise the text before its last '/' |
| Layout.TerminalWidth | lineman.c:165-173 | the reported width when the query succeeded with a positive value, else 100; so always positive |
| Layout.PathColumnWidth | lineman.c:175-197 | the width lies in 20..80 and equals the terminal width minus 37 whenever that lies there |
| Layout.PathColumnWidthIsNearest | lineman.c:186-196 | the clamped width is the admissible width nearest to the space the count columns leave |
| Layout.PathColumn | lineman.c:199-208 | exactly `width` characters: the path padded with spaces, or "..." and the path's last width-3 characters |
| Layout.TrimmedBaseLength | lineman.c:472-475 | one trailing '/' is dropped from the length, unless the argument is "/" |
| Layout.StripBase | lineman.c:356-362 | a path that does not start with the base is shown whole; otherwise the base is removed, with one '/' right after it |
| Layout.StripJoinedPath | lineman.c:356-362 | for argument + "/" + name the shown path is the name, or "/" + name when the argument ends in '/' |
| Layout.StripArgumentItself | lineman.c:356-362 | a file given directly as the argument is shown as the empty path |
| Lineman.Run | lineman.c:342-350 | folding the classifier over the first n lines yields one kind per line |
| Lineman.RunLine | lineman.c:344-345 | each line is classified with the block flag the lines before it left |
| Lineman.FileCounts | lineman.c:340-350 | one file's counters: the tally of the fold with `in_block` starting at 0 |
| Lineman.OpenBlockPersists | lineman.c:342-345 | once a block is open and no later line ends it, every non-blank line is a comment, blank lines are empty and the block stays open |
| Lineman.CountLines | lineman.c:338-350 | the counters are the tally of the fold with `in_block` starting at 0, and they add up to the number of lines |
| Lineman.Session.constructor | lineman.c:472-477 | base path and trimmed length, column width computed from the width the terminal query reported, empty histogram, no directory shown |
| Lineman.Session.CountFile | lineman.c:328-385 | a skipped file changes nothing; a scanned one adds exactly its counters to the total, records its key in the histogram and becomes the last directory shown |
| Loc.Classify | loc.c:58-104 | the kind is Empty exactly for a blank line, and a blank line leaves `in_block_comment` unchanged |
| Loc.PairAt | loc.c:71 | `p[0] == a && p[1] == b` holds exactly when the two characters at the position lie inside the line and are `a` then `b`; at the last character, where `p[1]` is the NUL, there is no match (`loc.c:80` and `loc.c:86` use the same test) |
| Loc.Scan | loc.c:69-95 | the inner `while (*p)` loop, one case per branch: "*/" leaves a block, "/*" opens one, "//" ends the scan, a non-space sets `code_seen` and clears `comment_only` |
| Loc.Decide | loc.c:97-103 | the counter for a non-blank line: comment when the block is open and only comment was seen, else code when code was seen, else comment |
| Loc.CommentOnlyIsNotCodeSeen | loc.c:66-95 | `comment_only` is always the negation of `code_seen` |
| Loc.CodeIffCodeSeen | loc.c:90-103 | a non-blank line is code exactly when a non-space character was seen outside comments, whatever the block flag |
| Loc.StayInBlock | loc.c:69-78 | inside a block, a scan meeting no "*/" sees no code and stays in the block |
| Loc.PlainRun | loc.c:86-94 | outside a block, a run of characters holding no '/' sets `code_seen` and clears `comment_only` exactly when it holds a non-space |
| Loc.WholeLineInBlock | loc.c:69-103 | a non-blank line lying wholly inside an open block is a comment and leaves it open |
| Loc.ExampleCodeThenOpenBlock | loc.c:97-103 | "int x; /* open" is code, with the block left open |
| Loc.Run | loc.c:56-104 | folding the classifier over the first n lines yields one kind per line |
| Loc.FileCounts | loc.c:54-104 | one file's counters: the tally of the fold with `in_block_comment` starting at 0 |
| Loc.ScanChars | loc.c:66-95 | the character loop ends in exactly the state the `Scan` function gives |
| Loc.ClassifyLine | loc.c:59-103 | the blank test, the character loop and the choice of counter give exactly `Classify` |
| Loc.CountLines | loc.c:54-104 | the counters are the tally of the fold with `in_block_comment` starting at 0, and they add up to the number of lines |
| Loc.CountFile | loc.c:47-124 | a skipped file leaves the total alone; a scanned one adds exactly its counters |
| Variants.MatchTwo | loc.c:71 | a two-character marker match is the `p[0]`/`p[1]` test |
| Variants.ScansAgree | loc.c:69-95 | with the C-style markers, both scans end in the same block state, and `lineman.c`'s verdict is `loc.c`'s with the block flag deciding first |
| Variants.TieBreak | loc.c:97-103 | per line: the same block flag afterwards; the kinds differ exactly when `loc.c` says code and the block is open, and then `lineman.c` says comment |
| Variants.RunsAgree | loc.c:56-104 | over a file, the block flag evolves identically, and each line keeps its kind or goes from code (`loc.c`) to comment (`lineman.c`) |
| Variants.TallyDemoted | loc.c:97-103 | turning some code lines into comments keeps the empty count and comment + code, and lowers nothing else |
| Variants.FileCountsAgree | loc.c:54-104 | on any file, both agree on empty lines and on comment + code; `lineman.c` never counts more code |
| Variants.SlashRules | lineman.c:84 | the fallback rule and the ".c" rule use exactly `loc.c`'s markers |

## Left out

- Directory traversal (`walk` in both files): it is `stat`/`opendir`/`readdir` plumbing, and its order depends on the file system.
- Opening and reading files: `fopen` is an `Option` argument (None when it fails). The file's bytes are a `seq<byte>`; the probe looks at its first 512, as `fread` into the 512-byte buffer does. The lines `fgets` returns are a `seq<string>`.
- `fgets` cuts a line longer than 4095 characters into several lines, each counted separately. The model takes the lines already split, and leaves that cut out.
- A NUL byte inside a line ends the C string early. The model's lines carry no NUL.
- All output: `printf`, `putchar`, `print_separator`, the "FILES BY TYPE" listing, and the blank line that separates directory groups. That blank line is also printed during the suppressed first pass; output is left out, so this is too.
- The two-pass re-walk in `main` (`lineman.c:481-498`), and `suppress_file_output`, which only gates output. Pass 2 runs `count_file` again on every file. That records each extension in the histogram a second time and re-threads `last_dir`, but only after the histogram was printed, and nothing prints it again. `Lineman.Session.CountFile` models one call, so a second pass is just more calls on the same `Session`.
- `get_terminal_width`'s `ioctl`: the reported width is an argument.
- Locale: `isspace` and `tolower` are modelled for the C locale only.
- `long` overflow of the counters: they are unbounded integers.
- `loc.c`'s own base-path stripping and `printf` (`loc.c:108-118`): they only affect output.
- Layout.DirName: a function of the path rather than a method writing into a caller's buffer. The buffer is a local of `count_file`.
- Layout.PathColumn: the text printed is returned as a string, and is not written to standard output.
- Rules.WellFormed: `classify_line` is only specified for rules with non-empty markers. That is what the measure `|line| - i` of `Classifier.Scan` needs: every step moves forward by one character or by a whole marker. In the C loop, an empty line marker returns at once (`lineman.c:305-308`). An empty block start or an empty block end alone makes one step that does not move, and the other branch then moves. Only a rule whose block start and block end are both empty makes the loop spin. No rule in `rules[]` or `fallback_rule` has an empty marker (`Rules.TableInvariants`).
