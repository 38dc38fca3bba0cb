# Minecraft companion bot for Discord: a verified model of its core

The bot serves Discord guilds that play on a Minecraft server. This project
models the core of its command handlers in Dafny and proves properties of
that model. The core is:

- **utils.py**: the process-wide defaults read from the environment, the
  command-prefix lookup, the per-guild connection profile resolver, and the
  guard in front of a remote-console (RCON) call.
- **config.py**: the administrator commands that write a guild's server
  record, which are `!config` / `!setserverinfo` (with their `key=value` and
  positional argument parser), `/config` / `/setserverinfo`, and
  `!prefix` / `/prefix`.
- **waypoints.py**: the per-guild waypoint registry. It covers
  `!waypointadd`, `!waypointremove`, `!waypoints` and `!waypointinfo`, their
  slash forms, and the two-button paginator for the listing.
- **stats.py**: the scoreboard commands `mcobjs`, `mcstat` and
  `mcleaderboard`. Each sends one console command and turns the reply text
  into a message.

## Layout

- `text.dfy`, module `Text`: the Python string and integer semantics the
  handlers rely on. This covers `strip`, ASCII `lower`/`title`, `split` and
  `join` on one character, `split(c, 1)`, and `int()` of decimal text
  (whitespace, one sign, single `_` between digits). It also covers
  `str()` of an integer.
- `utils.dfy`, module `Utils`:
  - the guild record has four optional keys;
  - `LoadDefaults` reads the environment;
  - `GuildConfig` and `Prefix` resolve a guild's profile and prefix;
  - `RunRconCommand` takes the RCON session as a function from the request
    to the reply text or the error text.
- `config.dfy`, module `Config`:
  - the `!config` parser is a method loop (`ScanArguments`,
    `FinishArguments`), proved equal to a fold (`ScanFrom`, `Finish`);
  - the fold is proved equal to a declarative reference (`ConfigReference`);
  - the guild configuration document is the class `ConfigStore`, whose
    command methods update `configs`. The methods that save also set
    `saved`, the last document written to disk.
- `waypoints.dfy`, module `Waypoints`:
  - a guild's waypoint dictionary is a sequence of entries with unique keys
    in insertion order, which is the order Python's `dict` keeps;
  - the document is the class `WaypointRegistry`;
  - the listing loop is the method `Paginate`;
  - the paginator is the class `Paginator`, with `Prev`/`Next`.
- `stats.dfy`, module `Stats`:
  - splitting the reply into pieces;
  - `re.search(r"(-?\d+)")` and `re.match(r"(\S+) has (-?\d+)")`;
  - the entry loop (`ParseEntries`);
  - the descending stable sort (`SortByScore`, an insertion sort);
  - the slice `entries[:count]` with Python's negative bounds;
  - the `enumerate` loop (`Rank`).

Each command's result names which message it sends: a refusal (its own
datatype constructor), or what the success message reports.

## Model

| member | source | states |
|---|---|---|
| Text.ParseIntIsParseOfIntStrip | config.py:40 | `int(s)` ignores surrounding whitespace, and only that: it equals the signed-digit parse of `s` with the ASCII `\t \n \v \f \r` and space and the non-ASCII Unicode whitespace removed from both ends |
| Text.IntStripIsStrip | config.py:40 | on text without the separator controls U+001C to U+001F, the whitespace `int()` removes is exactly what `strip()` removes |
| Text.ParseIntIsParseOfStrip | config.py:40 | on text without U+001C to U+001F, `int(s)` equals the signed-digit parse of `s.strip()` |
| Text.IntKeepsSeparatorControls | config.py:40 | `"\x1c5".strip()` is `"5"`, yet `int("\x1c5")` fails: `int()` does not count U+001C as whitespace |
| Text.ParseIntOfDigits | waypoints.py:74 | `int()` of a non-empty run of ASCII digits is the decimal value of the run |
| Text.ParseIntOfNegativeDigits | waypoints.py:74 | `int()` of `-` followed by a run of digits is the negated value |
| Text.ParseIntOfIntToString | config.py:71 | `int(str(n)) == n` for every integer `n`, so reported ports and scores read back unchanged |
| Text.SplitCount | stats.py:35 | `s.split(c)` has exactly one piece more than `s` has occurrences of `c` |
| Text.Split | stats.py:35 | `s.split(c)` is never empty and no piece contains `c` |
| Text.JoinSplit | waypoints.py:89 | joining the pieces of `s.split(c)` with `c` gives back `s` |
| Text.SplitAtFirst | config.py:34 | `a.split("=", 1)` cuts at the first `=`: the key holds no `=`, and key, `=` and value laid end to end are the argument |
| Text.LowerOfTitle | waypoints.py:151 | `title()` only changes case: lower-casing its result is lower-casing the input |
| Utils.LoadDefaultsOfEmptyEnvironment | utils.py:9-11 | with no variable set the defaults are `mc.hypixel.net`, port 25565 and an empty RCON password |
| Utils.LoadDefaultsPort | utils.py:10 | a set `MC_PORT` that `int()` refuses stops start-up; otherwise the default port is its `int()` value |
| Utils.GuildConfigOfUnknownGuild | utils.py:30-36 | a guild with no stored record resolves to exactly the three defaults |
| Utils.GuildConfigFieldwise | utils.py:31-36 | each of `ip`, `port`, `password` is the stored value when present and the default otherwise, independently of the other keys |
| Utils.GuildConfigOnlyIp | utils.py:33-35 | a record holding only `ip` resolves to that ip with the default port and password |
| Utils.GuildConfigIgnoresPrefixAndOtherGuilds | utils.py:30-36 | the stored prefix and other guilds' records never change a guild's profile |
| Utils.PrefixCases | utils.py:25-28 | `!` outside a guild; the guild's stored prefix when it has one; `!` otherwise |
| Utils.RconGuard | utils.py:40-41 | with an empty password no request is sent, whatever the server would do, and the error is "RCON password not set for this server." |
| Utils.RconForwards | utils.py:42-43 | with a password, exactly one request goes to the profile's ip, port and password with the command unchanged, and its answer is the result |
| Config.ClassifyKeyword | config.py:33-46 | `key=value` splits at the first `=`; `ip`/`host`, `port` and `pw`/`password`/`rcon` match in any ASCII case; `port` is refused when `int()` fails; any other key is an unknown parameter named as typed |
| Config.ClassifyPositional | config.py:47-48 | an argument without `=` is kept as a positional, unchanged |
| Config.ClassifyAll | config.py:32 | every argument is classified |
| Config.ScanArguments | config.py:30-48 | the `for a in args` loop computes the fold `ScanFrom` over the classified arguments: it stops at the first refused one, else yields the latest keyword values and the positionals |
| Config.FinishArguments | config.py:50-65 | the positional fallback and the ip check compute `Finish` |
| Config.ParseConfigArgs | config.py:30-65 | the whole argument handling of `!config` computes `ParseConfig` |
| Config.ScanFromReference | config.py:32-48 | the scan fails with the error of the earliest refused argument; otherwise each field is the value of its LAST keyword and the positionals keep their order |
| Config.ScanThenFinishReference | config.py:30-65 | the scan followed by the fallback is the reference decision |
| Config.ParseConfigReference | config.py:30-65 | `!config`'s decision is, in order: the first refused argument, a bad 2nd positional port, "too many arguments" (more than 3 positionals), a missing or empty ip, and else the update from the last keywords with positional fallback |
| Config.LastIpIsLatest | config.py:36-37 | a later `ip=`/`host=` overrides every earlier one |
| Config.SecondPositionalIgnoredWhenPortGiven | config.py:54-58 | when `port=` was given the 2nd positional is never parsed, cannot cause the port error, and the written port is the keyword's |
| Config.PortErrorBeforeTooMany | config.py:54-62 | a bad 2nd positional port is reported even when there are too many positionals |
| Config.KeywordsWinOverPositionals | config.py:51-60 | in a successful update, keywords win over positionals: a positional fills only a field no keyword set, and a password is taken from positionals exactly when there are three |
| Config.MissingIpWhenEmpty | config.py:64-65 | once no other refusal applies, the missing-ip reply is given exactly when the resolved ip is absent or empty |
| Config.ApplyConfigIdempotent | config.py:67-74 | writing the same update twice leaves the record as writing it once |
| Config.GuildConfigAfterUpdate | config.py:67-74 | after a write the guild resolves to the written ip, to the written port and password where supplied and else to what it resolved to before; no other guild's profile changes |
| Config.UpdateSummary | config.py:68-74 | the confirmation lists `ip=…` first, one entry per written key, and the password masked as `password=******` last |
| Config.SlashKeepsStoredPort | config.py:132-140 | `/config` with port 25565 keeps the stored port; without a password it keeps the stored password; it always writes the ip and never touches the prefix |
| Config.ConfigStore.Config | config.py:25-77 | a refused `!config` leaves only the guild's (possibly new, empty) record in memory and saves nothing; a successful one writes exactly the update into that record, saves the whole document and reports the summary |
| Config.ConfigStore.SetServerInfo | config.py:85-87 | `!setserverinfo` has exactly the effect and reply of `!config` |
| Config.ConfigStore.ConfigSlash | config.py:121-146 | `/config` writes the ip, the port unless it is 25565, the password when given; it saves and reports the summary |
| Config.ConfigStore.SetServerInfoSlash | config.py:158-168 | `/setserverinfo` has exactly the effect of `/config` |
| Config.ConfigStore.SetPrefix | config.py:99-104 | `!prefix` and `/prefix` change only the guild's `prefix` key and save |
| Waypoints.LStripDash | waypoints.py:72 | `lstrip('-')` yields a suffix of the argument that does not start with `-` |
| Waypoints.LooksLikeIntConverts | waypoints.py:72-76 | an argument passing `lstrip('-').isdigit()` converts with `int()` exactly when it has at most one leading `-` |
| Waypoints.ConvertsWithOneDash | waypoints.py:74 | an integer-looking argument with one leading `-` converts to the negated value of its digits |
| Waypoints.DoubleDashLooksLikeIntButFails | waypoints.py:72-76 | `"--5"` passes the test and then fails `int()`, so the "must be integers" reply comes from the `except` branch |
| Waypoints.ParseAddRefusals | waypoints.py:66-86 | fewer than three arguments give the usage reply; a first or second argument that does not look like an integer gives "Coordinates must be integers." |
| Waypoints.ParseAddThreeCoords | waypoints.py:72-77 | four or more arguments whose first three look like integers are `x y z name…`, and a failed conversion of any of them is an error (the two-coordinate form is not tried) |
| Waypoints.ParseAddTwoCoords | waypoints.py:78-86 | otherwise, when the first two look like integers, the arguments are `x z name…` without a y |
| Waypoints.ThreeArgumentsAreTwoCoordinates | waypoints.py:72-84 | with exactly three arguments the three-coordinate form is never tried: `1 2 3` stores x = 1, z = 2 under the name "3" |
| Waypoints.HelpFormYLastJoinsName | waypoints.py:58 | the documented form `<x> <z> <name> <y>` with a non-numeric name is read as two coordinates, and the `y` becomes part of the name |
| Waypoints.NameKeyOfTwoWords | waypoints.py:89 | two name words give the key of the words joined by one space, lower-cased |
| Waypoints.NameAlwaysPresent | waypoints.py:87-88 | the "You must provide a name." reply is unreachable: every successful coordinate parse leaves a name word |
| Waypoints.NameKeyIgnoresCase | waypoints.py:89 | names that agree up to ASCII case give the same key |
| Waypoints.SlashAndPrefixKeysAgree | waypoints.py:226 | a name typed as space-separated words gives the same key as the same name given to a slash command |
| Waypoints.FindAfterAppend | waypoints.py:90-98 | inserting a new key makes it find its record and leaves every other lookup unchanged |
| Waypoints.UniqueKeysAfterAppend | waypoints.py:90-98 | inserting a key that is not present keeps the keys unique |
| Waypoints.AddThenFind | waypoints.py:90-98 | after adding, the new key finds the new record and every other key finds what it found before |
| Waypoints.FindAfterRemove | waypoints.py:126 | after `del`, the key finds nothing and every other key finds what it found before |
| Waypoints.RemoveKeyKeepsUnique | waypoints.py:126 | `del` keeps the keys unique and adds no entry |
| Waypoints.RemoveKeyCount | waypoints.py:126 | deleting a present key removes exactly one entry |
| Waypoints.RemoveThenFind | waypoints.py:121-126 | removing a present key: one entry fewer, the key gone, every other lookup unchanged |
| Waypoints.Listing | waypoints.py:144-151 | one listing line per waypoint in dictionary order: the title-cased name and the coordinates, without `Y` when y is absent |
| Waypoints.ListLines | waypoints.py:144-151 | the loop over `wps.items()` builds exactly the listing of the dictionary |
| Waypoints.Paginate | waypoints.py:152-161 | the pages are the listing cut into consecutive pages of five, and page k's footer is "Page k+1/total" plus the requester part |
| Waypoints.PagingCovers | waypoints.py:154-156 | every page holds one to five lines, and the pages laid end to end give back the whole listing in order |
| Waypoints.PageTotalIsPageCount | waypoints.py:153 | for a non-empty listing `(n - 1) // 5 + 1` is the number of pages |
| Waypoints.Paginator.constructor | waypoints.py:9-14 | the paginator opens on the first page, holding the pages, footers and author given |
| Waypoints.Paginator.Prev | waypoints.py:22-31 | a user other than the author is refused and the page does not move; otherwise it moves back one page and shows it with its footer, and does nothing on the first page |
| Waypoints.Paginator.Next | waypoints.py:34-43 | a user other than the author is refused; otherwise it moves forward one page and shows it with its footer, and does nothing on the last page |
| Waypoints.WaypointRegistry.Insert | waypoints.py:90-99 | inserts the record at the end of the guild's dictionary exactly when the key is free, and then saves; a taken key changes nothing but the (setdefault) table |
| Waypoints.WaypointRegistry.Add | waypoints.py:64-104 | `!waypointadd`: every refusal and a taken key leave only the guild's table in place and save nothing; otherwise the record (coordinates, author, date) is appended under the key and the document saved |
| Waypoints.WaypointRegistry.AddSlash | waypoints.py:217-237 | `/waypointadd`: like `!waypointadd`, with the key the name lower-cased |
| Waypoints.WaypointRegistry.Delete | waypoints.py:120-127 | a missing key, or a caller who is neither the creator nor an administrator, changes nothing; otherwise exactly that key is deleted and the document saved |
| Waypoints.WaypointRegistry.Remove | waypoints.py:116-128 | `!waypointremove`: no name is the usage reply; otherwise it deletes the joined lower-cased name as above |
| Waypoints.WaypointRegistry.RemoveSlash | waypoints.py:241-251 | `/waypointremove`: deletes the lower-cased name as above |
| Waypoints.WaypointRegistry.Info | waypoints.py:176-183 | `!waypointinfo`: the usage reply without a name, not-found for an unknown key, else the stored record; nothing is saved |
| Waypoints.WaypointRegistry.InfoSlash | waypoints.py:281-286 | `/waypointinfo`: the record of the lower-cased name, or not-found |
| Waypoints.WaypointRegistry.List | waypoints.py:140-162 | no paginator exactly when the guild has no waypoint; otherwise a fresh paginator for the requester, on its first page, whose page k holds lines 5k to 5k+4 of the dictionary's listing, so every waypoint appears once and in order, with footers "Page k/total" |
| Stats.ReplyPiecesCount | stats.py:35 | no `:` in the reply gives no piece; otherwise one piece per `,` after the first `:`, plus one |
| Stats.ReplyPiecesJoin | stats.py:84 | the pieces joined with `,` are exactly the text after the first `:`, and no piece holds a `,` |
| Stats.ObjectiveNames | stats.py:36 | one objective name per reply piece |
| Stats.ObjectiveNameShape | stats.py:36 | a name is its stripped piece up to the first space, and holds no space |
| Stats.McObjsEmpty | stats.py:29-42 | the objective list is reported empty exactly when the reply has no `:`; an RCON error is reported as such; the requests are those of the RCON call |
| Stats.SearchSigned | stats.py:61 | `re.search(r"(-?\d+)")` finds the leftmost position where `-?\d+` can match, and the match runs to the end of that digit run |
| Stats.ExtractScoreWithoutDigits | stats.py:61-62 | a reply with no digit gives the score "0" |
| Stats.ExtractScoreWithDigits | stats.py:61-62 | a reply with a digit gives its leftmost signed digit run, unchanged and maximal, starting no later than that digit |
| Stats.McStatGuard | stats.py:53-54 | a missing or empty player or objective gives the usage reply and sends nothing |
| Stats.McStatSends | stats.py:55-63 | otherwise one request carries `scoreboard players get <player> <objective>`, and the reported score is the text extracted from its reply |
| Stats.SignedDigitsConvert | stats.py:90 | a matched score text always converts with `int()`, to its signed value |
| Stats.MatchEntryOfWellFormed | stats.py:88-90 | a piece `name has score…` with a non-empty, space-free name parses to that name and score |
| Stats.MatchEntryShape | stats.py:88 | every parsed piece starts with its space-free name, " has " and a signed digit run worth the score |
| Stats.ParseEntries | stats.py:85-90 | the `for part in parts` loop computes `Entries`: the stripped pieces that match, in reply order |
| Stats.EntriesOfConcat | stats.py:86-90 | parsing keeps reply order: the entries of two runs of pieces are the entries of the first followed by those of the second |
| Stats.EntriesMembers | stats.py:86-90 | an entry is kept exactly when some stripped piece matches to it |
| Stats.SortByScoreSortsAndPermutes | stats.py:93 | the sort gives the parsed entries highest score first, as a permutation |
| Stats.SortByScoreStable | stats.py:93 | the sort is stable: entries with equal scores keep their reply order |
| Stats.TakeLength | stats.py:99 | `entries[:count]` is a prefix of length `min(count, len)` and, for negative `count`, `len + count` clamped at 0 |
| Stats.RankedFields | stats.py:99-100 | one field per shown entry |
| Stats.Rank | stats.py:99-100 | the `enumerate(…, start=1)` loop computes `RankedFields`: "k. name" over the score, ranks from 1 |
| Stats.BoardShows | stats.py:99-100 | a board shows `min(count, len)` entries, field k titled "k+1. name" with the score as its value |
| Stats.StandingsOrder | stats.py:84-93 | the standings are the parsed entries highest score first, as a permutation, with ties in reply order |
| Stats.NoScoresWhenNothingMatches | stats.py:91-92 | "No scores" is the reply exactly when no piece of the reply matches |
| Stats.McLeaderboardSlash | stats.py:157-189 | `/mcleaderboard` sends `scoreboard players list <objective>`; it reports the RCON error, or "No scores" when nothing parses, or the first `count` (default 5) standings ranked from 1 |
| Stats.McLeaderboard | stats.py:75-103 | `!mcleaderboard`: a missing or empty objective gives the usage reply and sends nothing; otherwise it behaves as the slash form |

## Differences between the help text and the code

The help text of `!waypointadd` (waypoints.py:58) documents
`<x> <z> <name> <y>`. The usage reply (waypoints.py:68) and the code
(waypoints.py:72-77) instead read `<x> <y> <z> <name…>`. The model follows
the code. `Waypoints.HelpFormYLastJoinsName` states what the documented form
actually does: the `y` is stored as the last word of the name. By the same
code, `Waypoints.ThreeArgumentsAreTwoCoordinates` shows that three numbers
are read as x, z and a name.

## Left out

- I/O: Discord messages, embeds, colours, emoji and the `ephemeral` flag are not modelled. Each command's result is a datatype naming the reply, and only the texts the logic computes are modelled: the update summary, footers, listing lines and leaderboard fields.
- `load_json` and `save_json` (utils.py:17-23): the files are not modelled. The document is loaded as the constructor's argument, and a save copies the in-memory document into the `saved` field.
- The RCON library and the network: the session is a function parameter from the request to its reply or its exception text. The executor thread, `asyncio` and any concurrency are not modelled.
- The clock: `datetime.now().strftime("%m/%d/%y")` is the `now` parameter of the add methods.
- Discord identities: the author and users are integer ids, and "is an administrator" is a boolean parameter. Display names are string parameters, and the `get_member` lookup of `!waypointinfo` is not modelled.
- `!waypointinfo`'s embed is left out: its layout (coordinate bullets, "Added by", date footer) is not modelled. Only the lookup and its refusals are.
- Paginator timeout: the 120-second timeout and `on_timeout` (waypoints.py:16-19), which disables the buttons, are Discord UI behaviour and are not modelled.
- `set_footer`: the embed mutation is not modelled; `Nav.Shown` carries the page and its footer.
- Permission decorators: `has_permissions(administrator=True)` on the config commands is a gate that Discord applies before the handler. The model starts inside the handler.
- Argument converters: the prefix commands' converters for `new_prefix: str` and `count: int` run before the handler. Their failures are not modelled; `count` arrives as an optional integer.
- Exceptions other than the RCON outcome, such as a reply with an unexpected layout raising inside the handler, are not modelled. The parsing functions are total on every reply text.
- Character classes: `lower()`, `title()`, `isdigit()` and `\d` are modelled over ASCII. Python applies them to all of Unicode, so non-ASCII letters and digits are not modelled.
- `int()` accepts the ASCII digits with single `_` separators, one sign, and surrounding whitespace: the ASCII `\t \n \v \f \r` and space and the non-ASCII Unicode whitespace, but not U+001C to U+001F. Non-ASCII digits are not modelled.
- The JSON document's values are assumed to have the types the bot writes: text ip, password and prefix, and integer port and coordinates. Values of other types read from a hand-edited file are not modelled.
- `entries.sort` sorts in place. It is modelled as the pure stable insertion sort `SortByScore`, because only its result matters and Python's sort is stable.
- bot.py, help_command.py and server_info.py are not part of this model.
