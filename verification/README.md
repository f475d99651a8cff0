# Episode renamer for an OpenList file service

This project models the two Python scripts that rename the episode files of
a TV series stored on an OpenList server, and proves properties of that model.

`advanced_episode_renamer.py` works out a new name for each video file of a
directory listing:

- `extract_episode_info` takes a title, a season and an episode number out of
  the file name with four regular expressions.
- `generate_standard_name` substitutes them into a naming template such as
  `S{season}E{episode:02d}_{title}`.
- The results are gathered into a dict from old to new name, which one
  batch-rename request sends to the server.

`bulk_rename_episodes.py` numbers the video files of a listing in name order
(`create_custom_episode_mapping`) and sends its mapping the same way.

The modules follow the scripts:

| file | module | models |
|---|---|---|
| `text.dfy` | `Wrappers`, `Text` | the Python string and number operations the scripts use: `strip`, `zfill`, `int()`, `format(i, '0Nd')`, `rfind`, `os.path.splitext`, `lower`, `re.sub` with a character class, and `list.sort` on strings |
| `patterns.dfy` | `Patterns` | the four regular expressions and `re.search` with `re.IGNORECASE` |
| `extraction.dfy` | `Extraction` | `extract_episode_info` |
| `naming.dfy` | `Naming` | naming templates (`str.format`) and `generate_standard_name` |
| `dicts.dfy` | `Dicts` | listing entries, insertion-ordered dicts, and the batch-rename payload |
| `advanced.dfy` | `Advanced` | the class `AdvancedEpisodeRenamer` |
| `bulk.dfy` | `Bulk` | `create_custom_episode_mapping` and the class `OpenListBulkRenamer` |

**Regular expressions.** Every pattern is `(.+?)` followed by a tail made of
five kinds of element:

- `[\s._-]*`
- an optional letter
- a letter
- `\d+`, captured or not
- `(\d{2})`

`Patterns.Run` walks a tail in the order of Python's backtracking engine:

- greedy runs are tried longest first;
- an optional letter is tried present first;
- letters are compared after ASCII lower-casing.

`Patterns.Search` tries start positions left to right. At each start it tries
ever longer titles, as the lazy group does, and `.` does not cross a newline.
The ordered search is proved to succeed exactly when a declarative reading
says some match exists. Further lemmas say which match it returns: the
shortest title, the longest separator and digit runs the rest of the tail
allows, and an optional letter taken whenever it can be. On
"Show.S02E05.mkv" the first pattern gives the title "Show", season "02" and
episode "05".

**The server.** Its answers are parameters of the class methods:

- the token a login returns;
- the listing `get_directory_contents` returns;
- whether a batch rename was accepted.

A ghost field `sent` records every batch-rename request an object sends. The
token guard and the request payload are therefore stated as changes to
`sent`.

**Python dicts.** A dict is a sequence of key/value items in insertion order.
`d[k] = v` overwrites an existing key in place, or appends a new one
(`Dicts.Put`, specified by `Dicts.PutSpec`).

**Where the model departs from the obvious reading of the code:**

- **`create_custom_episode_mapping` can raise.** `str.format` raises
  `ValueError` when a template asks for `{title:02d}`, because the title is a
  str. The mapping is `None` in that case. Under the default scheme it never
  fails (`Bulk.CustomDefaultNeverFails`).
- **Names without a '.' in the bulk script.** For such a name,
  `name[name.rfind('.'):]` is the name's last character, because index -1
  counts from the end. That character is never one of the accepted
  extensions (`Bulk.NoDotNeverSelected`).
- **Pattern 2 is dead code.** No file name is decided by the second pattern,
  because every name it matches is matched by the first pattern already
  (`Extraction.Pattern2NeverDecides`). Pattern 2 is still modelled as written.
- **Zero-padding the season or the title falls back.** In
  `generate_standard_name` the season and the title are str values. A
  template that zero-pads `{season}` or `{title}` therefore always yields the
  raw title (`Naming.GenerateFallsBack`).
- **Pattern 1 does not read the `1x01` form.** Its comment names that form,
  but the tail has no `x`. The title is the shortest prefix the tail can
  follow (`Extraction.TitleIsShortestPrefix`). For "Show 1x02.mkv" that prefix
  is "Show 1x", so the season is "0" and the episode "2". The model follows
  the pattern as written.

## Model

| member | source | states |
|---|---|---|
| Text.Strip | advanced_episode_renamer.py:154 | the stripped string neither starts nor ends with a stripped character and is no longer than its argument |
| Text.StripIsInfix | advanced_episode_renamer.py:154 | the stripped string is the infix of its argument that remains after only stripped characters are cut from the front and from the back |
| Text.LowerStr | advanced_episode_renamer.py:212 | the result has the same length, and each character is lower-cased ('A'–'Z' only) |
| Text.DotSuffix | bulk_rename_episodes.py:189 | the result is a suffix of the name: from its last '.' when it has one, holding no other '.'; otherwise its last character, or nothing for an empty name |
| Text.Sanitize | advanced_episode_renamer.py:182 | each of `<>:"/\|?*` is replaced by '_', every other character is kept, and the length is unchanged |
| Text.ZFill | advanced_episode_renamer.py:177 | the result has length max(len, width), is the input when the input is long enough, is zeros followed by the input for an unsigned short input, and keeps a leading '+' or '-' in front of the zeros for a signed short input |
| Text.NumeralParses | advanced_episode_renamer.py:178 | `int()` accepts every digit string the patterns capture, with the value of its digits |
| Text.ParseIntNeedsDigit | advanced_episode_renamer.py:178 | `int()` accepts no string without a digit: not the empty string, not blanks, not a lone sign |
| Text.NegativeParses | advanced_episode_renamer.py:178 | `int()` reads '-' followed by a digit string as the negated value of the digits |
| Text.IntToString | advanced_episode_renamer.py:184 | `str(i)` is a digit string with the value i for i >= 0, and '-' followed by a digit string with the value -i otherwise; the digits have no leading zero unless i is 0 |
| Text.DecimalCanonical | advanced_episode_renamer.py:184 | the decimal numeral of a natural number starts with '0' exactly when the number is 0 |
| Text.IntRoundTrip | advanced_episode_renamer.py:178-184 | `int(str(i)) == i` for every integer i |
| Text.ZeroPadIsZFill | advanced_episode_renamer.py:184 | `format(i, '0Nd')` equals `str(i).zfill(N)`: at least N long, with the zeros after the sign |
| Text.ZeroPadRoundTrip | bulk_rename_episodes.py:212 | `int(format(i, '0Nd')) == i` for every integer i and width N |
| Text.ZeroPadValue | bulk_rename_episodes.py:212 | `format(k, '0Nd')` of a non-negative k is a digit string whose value is k |
| Text.RFind | bulk_rename_episodes.py:200 | the result is -1 or an index holding the character, with no occurrence after it |
| Text.SplitExt | advanced_episode_renamer.py:160 | the stem followed by the extension is the path; the extension is empty or starts with its only '.' and holds no '/'; it is non-empty exactly when the part after the last '/' has a '.' after some other character, so '.mkv' has none and 'a.mkv' has '.mkv' |
| Text.Sort | bulk_rename_episodes.py:195 | the result is sorted in string order and is a permutation of the input |
| Patterns.RunFindsAMatch | advanced_episode_renamer.py:141-146 | matching a pattern's tail in backtracking order succeeds exactly when some way through the tail exists |
| Patterns.Search | advanced_episode_renamer.py:149 | a match has one group per capture of the pattern: a non-empty title without a newline, then digit strings |
| Patterns.SearchFindsAMatch | advanced_episode_renamer.py:149 | `re.search` finds a match exactly when some non-empty, newline-free title is followed by a match of the tail |
| Patterns.SearchTitleShortest | advanced_episode_renamer.py:142-149 | on a string without newlines the lazy title group is the shortest prefix after which the tail can match, and the other groups are those the tail captures from the end of that prefix |
| Patterns.TrySepsLongest | advanced_episode_renamer.py:142 | a greedy `[\s._-]*` ends at the furthest position after which the rest of the tail can match |
| Patterns.TryDigitsLongest | advanced_episode_renamer.py:142 | a greedy `(\d+)` captures the longest digit run after which the rest of the tail can match |
| Patterns.RunSepsGreedy | advanced_episode_renamer.py:142 | a tail starting with `[\s._-]*` gives the groups of its rest from the furthest separator position where that rest can match |
| Patterns.RunDigitsGreedy | advanced_episode_renamer.py:142 | a tail starting with `(\d+)` captures the longest digit run the rest can follow, then gives the rest's groups from there |
| Patterns.RunOptPresentFirst | advanced_episode_renamer.py:142 | `S?` and `E?` take their letter whenever the rest of the tail can match after it, and are skipped only otherwise |
| Patterns.SearchSeasonEpisode | advanced_episode_renamer.py:142-149 | for a name made of a plain title, one separator and `SddEdd`, the first pattern captures exactly that title, season and episode |
| Patterns.SampleSearch | advanced_episode_renamer.py:142 | the first pattern on "Show.S02E05.mkv" captures "Show", "02" and "05" |
| Patterns.Pattern2ImpliesPattern1 | advanced_episode_renamer.py:142-143 | every file name the second pattern matches is also matched by the first |
| Patterns.NoDigitNoMatch | advanced_episode_renamer.py:141-146 | a file name without digits matches none of the four patterns, since each needs a digit |
| Extraction.ExtractEpisodeInfo | advanced_episode_renamer.py:133-165 | the season and the episode are always non-empty digit strings |
| Extraction.FirstPatternDecides | advanced_episode_renamer.py:148-165 | the first pattern that matches alone decides the result; with no match the result is the stem, season "1", episode "1" |
| Extraction.MatchedShape | advanced_episode_renamer.py:150-157 | a matched title has no leading or trailing ' ._-'; pattern 1 yields its two numbers as season and episode; patterns 3 and 4 use their one number for both |
| Extraction.TitleIsShortestPrefix | advanced_episode_renamer.py:148-157 | for a name without newlines, the title is the shortest prefix the deciding pattern's tail can follow, stripped of ' ._-' |
| Extraction.SampleInfo | advanced_episode_renamer.py:148-157 | "Show.S02E05.mkv" is read as title "Show", season "02" and episode "05", decided by the first pattern |
| Extraction.Pattern2NeverDecides | advanced_episode_renamer.py:141-157 | the second pattern never decides a result |
| Extraction.NoDigitsFallsBack | advanced_episode_renamer.py:159-165 | a file name without digits yields the fallback |
| Naming.RenderFailsIff | advanced_episode_renamer.py:184 | `format` fails exactly when a field asks for zero padding of a str value |
| Naming.RenderAppend | advanced_episode_renamer.py:184 | `format` works piece by piece: a template cut in two formats as its two halves, joined, and fails if either half fails |
| Naming.GenerateStandardName | advanced_episode_renamer.py:167-187 | an episode that `int()` rejects yields the raw title |
| Naming.GenerateFallsBack | advanced_episode_renamer.py:176-187 | an episode `int()` rejects, or a template that zero-pads the season or the title, yields the raw title or "Unknown" |
| Naming.GenerateRenders | advanced_episode_renamer.py:176-184 | otherwise formatting succeeds, and the name is the template formatted with the season zfilled to 2, the episode as `int()` read it and the cleaned title |
| Naming.SmartDefaultName | advanced_episode_renamer.py:167-184 | under the default template the name is "S", the season zfilled to 2, "E", the episode padded to 2, "_", and the stripped and sanitised title |
| Naming.EpisodeByValue | advanced_episode_renamer.py:178 | two episode strings `int()` reads as the same number give the same name |
| Naming.ZeroFiveIsFive | advanced_episode_renamer.py:178 | `int()` reads "05" and "5" as 5 |
| Naming.SmartDefaultExample | advanced_episode_renamer.py:167-184 | season "1", episode "2", title "My:Show" give "S01E02_My_Show" |
| Dicts.PutSpec | advanced_episode_renamer.py:224 | `d[k] = v` adds k to the keys, makes `d.get(k)` v, leaves other keys' values alone, keeps keys distinct, appends a new key at the end, and for an existing key keeps every item in its position, changing only that key's value |
| Dicts.PutInPlace | advanced_episode_renamer.py:224 | for an existing key, the length and the order of the items are kept and only that key's item takes the new value |
| Dicts.PutKeys | advanced_episode_renamer.py:224 | `d[k] = v` adds k to the keys and no other key |
| Dicts.RenameObjectsFaithful | advanced_episode_renamer.py:99-109 | each pair of the request renames a key of the mapping to the value the mapping gives that key |
| Dicts.BuildRenameObjects | advanced_episode_renamer.py:99-104 | the loop builds one pair per mapping item, in the mapping's order |
| Advanced.SmartMappingKeys | advanced_episode_renamer.py:203-224 | the keys of the smart mapping are exactly the names of file entries whose lower-cased extension is one of the 14, each once |
| Advanced.SmartMappingValues | advanced_episode_renamer.py:212-224 | each selected name maps to its generated name followed by its lower-cased extension |
| Advanced.AdvancedEpisodeRenamer.constructor | advanced_episode_renamer.py:9-20 | a new renamer has no token and has sent nothing |
| Advanced.AdvancedEpisodeRenamer.Login | advanced_episode_renamer.py:22-48 | login succeeds exactly when the server hands out a token, which is then stored; otherwise the token is unchanged |
| Advanced.AdvancedEpisodeRenamer.GetDirectoryContents | advanced_episode_renamer.py:50-82 | without a non-empty token the result is None; otherwise it is the listing the server returns |
| Advanced.AdvancedEpisodeRenamer.BatchRename | advanced_episode_renamer.py:84-131 | without a token nothing is sent and the result is false; otherwise exactly one request for the mapping is sent and the server's verdict is returned |
| Advanced.AdvancedEpisodeRenamer.CreateSmartRenameMapping | advanced_episode_renamer.py:189-226 | the mapping is empty without a token or a listing, and is otherwise the smart mapping of the listing |
| Advanced.AdvancedEpisodeRenamer.RenameEpisodesByPattern | advanced_episode_renamer.py:228-260 | an empty mapping gives false and sends nothing; a dry run gives true and sends nothing; otherwise one request for the mapping is sent and its verdict returned |
| Advanced.AdvancedEpisodeRenamer.RenameEpisodesByCustomList | advanced_episode_renamer.py:262-289 | an empty mapping gives false; a dry run gives true without a request; otherwise batch_rename's guard and verdict apply |
| Bulk.VideoFilesSpec | bulk_rename_episodes.py:181-192 | a name is selected exactly when some file entry has it and its lower-cased suffix is one of the 10 extensions |
| Bulk.NoDotNeverSelected | bulk_rename_episodes.py:189-191 | a name without '.' is never selected |
| Bulk.SelectedHasExtension | bulk_rename_episodes.py:189-206 | a selected name contains '.', and the extension added to its new name is the suffix that selected it |
| Bulk.NumberedFailureSticks | bulk_rename_episodes.py:198-215 | once naming one file raises, the whole mapping raises |
| Bulk.CustomNewNameFails | bulk_rename_episodes.py:209-213 | naming a file fails exactly when the scheme zero-pads `{title}` |
| Bulk.CustomDefaultNeverFails | bulk_rename_episodes.py:168-213 | under the default scheme the mapping is always built |
| Bulk.NumberedMappingDistinct | bulk_rename_episodes.py:198-215 | every key of the mapping occurs once |
| Bulk.NumberedMappingKeys | bulk_rename_episodes.py:198-215 | the keys of the mapping are exactly the sorted files |
| Bulk.NumberedMappingValues | bulk_rename_episodes.py:198-215 | a file maps to the new name for its last 1-based position in the sorted list |
| Bulk.CustomMappingKeys | bulk_rename_episodes.py:168-217 | the result's keys are exactly the names of the listing's video files |
| Bulk.KeepsSuffix | bulk_rename_episodes.py:200-213 | every new name ends with the old name's suffix from its last '.', in its original case |
| Bulk.CustomDefaultName | bulk_rename_episodes.py:168-213 | under the default scheme, file k is named "S01E", k padded to 2, "_Episode_", k padded to 2, then its suffix |
| Bulk.DefaultNamesDistinct | bulk_rename_episodes.py:198-215 | under the default scheme, different positions give different new names |
| Bulk.CreateCustomEpisodeMapping | bulk_rename_episodes.py:168-217 | the result numbers the sorted video files of the listing from 1, or is None when `format` raises |
| Bulk.CollectVideoFiles | bulk_rename_episodes.py:182-192 | the loop collects the names of the video files, in listing order |
| Bulk.NumberFiles | bulk_rename_episodes.py:197-215 | the loop maps each file to its new name at its 1-based position, or stops with the error `format` raises |
| Bulk.OpenListBulkRenamer.constructor | bulk_rename_episodes.py:6-17 | a new renamer has no token and has sent nothing |
| Bulk.OpenListBulkRenamer.Login | bulk_rename_episodes.py:19-45 | login succeeds exactly when the server hands out a token, which is then stored |
| Bulk.OpenListBulkRenamer.BatchRename | bulk_rename_episodes.py:47-93 | without a token nothing is sent and the result is false; otherwise exactly one request with one pair per mapping item is sent and the server's verdict is returned |

## Left out

- HTTP is not modelled. The requests, their URLs, headers and timeouts, JSON
  decoding, and `raise_for_status` are not modelled. The server's answers are
  parameters instead: the login token, the listing, and the batch-rename
  verdict.
- Neither script's `main`, and no console output, is modelled.
- Advanced.AdvancedEpisodeRenamer.Login: does not model the exceptions that
  are not `RequestException`, such as a reply without `data.token`. These
  propagate to the caller in Python.
- Bulk.OpenListBulkRenamer.Login: the same exceptions are not modelled.
- `OpenListBulkRenamer.get_directory_contents` is not modelled. It lies
  outside the bulk script's core and behaves like the one in the advanced
  class.
- Listing entries are modelled with both `name` and `is_dir` present. The
  `.get` defaults for missing keys are not modelled, and neither is a
  non-bool `is_dir`. A listing whose `content` is JSON `null` behaves as an
  empty listing and is not modelled separately.
- Text.ParseInt: does not model CPython's limit of 4300 digits on `int()` of a
  str. Longer digit strings are accepted here, where Python raises
  `ValueError`. A file name from a listing is far shorter than that limit.
- Character classes are ASCII only.
  - `\s`, `\d` and `str.strip()` with no argument follow their ASCII members.
  - `lower()` and the IGNORECASE comparison fold only 'A'–'Z'.
  - Python also counts non-ASCII whitespace and digits in `\s` and `\d`, and
    under IGNORECASE it lets 'ſ' (long s) match the `S?` of the first
    pattern; that is not modelled.
- Naming templates are limited to literal text and the fields `{title}`,
  `{season}` and `{episode}`, each bare or with a `:0Nd` spec. Other format
  specs, unknown fields (a `KeyError`, which falls back like any other error
  in `generate_standard_name`) and escaped braces are not modelled.
- Bulk.CreateCustomEpisodeMapping: the template is given already parsed, so a
  malformed format string cannot occur.
- Bulk.CreateCustomEpisodeMapping: `list.sort` is modelled as the sorted
  permutation of the list, not as an in-place sort. Only the sorted order is
  observable afterwards, so only that is modelled.
- Advanced.AdvancedEpisodeRenamer.BatchRename: the server may apply the
  rename or not. Only the request sent and the verdict returned are stated.
- Bulk.OpenListBulkRenamer.BatchRename: the same limit applies. The
  `Bearer ` prefix of its Authorization header is not modelled.
