# EZproxy audit log parser — a verified model of its parsing core

The EZproxy audit log visualiser reads the plain-text audit report of an
EZproxy server. The report is made of free-text headers, each followed by a
fixed-column table: logins, per-user login summaries, logins from several
geographies, content-provider accesses, kb usage per user and SPU usage. The
visualiser turns these tables into named datasets for display. This project
models the part that does the parsing, in `ezproxyvisualiser.py`:

- `split_into_sections` cuts the text at header lines into an ordered dict
  from header to body (`sections.dfy`, module `Sections`).
- `_parse_table_with_regex` is the line-by-line table driver, and the six
  table parsers build on it (`tables.dfy`, module `Tables`).
- The dispatch loop of `main` sends each section to a parser under a dataset
  name (`router.dfy`, module `Router`).

Two support modules hold the Python built-ins the core relies on:

- `text.dfy`, module `Text`: `str.strip`, `str.splitlines`, `str.lower`,
  `str.split` and `" ".join`, plus the `\S+\s+` field steps of the row
  regexes.
- `ordered_dict.dfy`, module `OrderedDict`: Python's insertion-ordered
  `dict`, as a sequence of entries. An assignment to a key already present
  keeps that key's position and replaces its value.

Strings are `seq<char>`. A `kb` figure is kept as the digit strings on
either side of its point (`Decimal`). Counts are `nat`.

Points where the code is easy to misread:

- Header pattern. It is compiled with `re.VERBOSE`, which drops the
  unescaped space in `Audit Report.*`. That alternative therefore matches
  lines starting `AuditReport`, and a line starting `Audit Report` is not a
  header (`Sections.HeaderPrefix`).
- "No items found" alternative. It has no trailing `.*`, so only those 14
  characters are the header. The rest of the line starts the section body
  (`Sections.HeaderLength`).
- Routing order. The code loops over the rules and stops at the first
  matching section for each rule, so one section can serve several rules.
  The keyword of the plain provider rule is a prefix of the keyword of the
  kb-sorted provider rule. So a kb-sorted provider section is also parsed as
  `ProviderAccess` when no other provider section comes before it
  (`Router.ProviderRulesOverlap`).
- Stopping rule. A rule stops at its first matching section even when that
  section's table is empty. So at most one `KBUsage_…` dataset is ever
  stored (`Router.AtMostOneKbUsage`).
- Geographies skip. The skip test of the geographies parser is
  `line.lower().startswith("user ")`. It also drops data rows written
  `user <name> …` with a plain space. Only rows whose `user` is followed by
  a tab or another non-space whitespace character survive
  (`Tables.GeoRowsNeedOtherSpace`, `Tables.GeoRoundTrip`).

## Model

| member | source | states |
|---|---|---|
| Sections.HeaderPrefix | ezproxyvisualiser.py:18-32 | each of the ten header alternatives, as `re.VERBOSE` reads it, starts with a capital letter |
| Sections.HeaderLength | ezproxyvisualiser.py:18-33 | the header match at the start of a line: positive exactly on header lines; the matched part is itself a header line starting with a capital; a line starting "No items found" is cut after those 14 characters, and every other header line is taken whole |
| Sections.HeaderFromCapital | ezproxyvisualiser.py:18-32 | every line the header pattern matches starts with a capital letter |
| Sections.HeaderLengths | ezproxyvisualiser.py:31-33 | definition, used by the lemmas below: the header match of every line, position by position (`re.MULTILINE`: the pattern is tried at each line start) |
| Sections.Flatten | ezproxyvisualiser.py:33 | the list `re.split` returns has odd length: the preamble at 0, then header `2k+1` and body `2k+2` for each header |
| Sections.LinesSplit | ezproxyvisualiser.py:33 | every header captured by `re.split` is non-empty and starts with a capital letter |
| Sections.LinesSplitConcat | ezproxyvisualiser.py:33 | the pieces of the split, joined again, are the lines joined by newlines |
| Sections.SplitLosesNothing | ezproxyvisualiser.py:33 | `"".join(re.split(pattern, text)) == text`: splitting loses and adds no character |
| Sections.HeadersInOrder | ezproxyvisualiser.py:33-44 | the headers of the sections are exactly the stripped header matches of the header lines, in line order |
| Sections.NoHeaderNoSplit | ezproxyvisualiser.py:33 | text without a header line is returned whole as the preamble, with no pairs |
| Sections.Entries | ezproxyvisualiser.py:41-44 | definition, used by SplitIntoSections: the loop assigns, for each header in turn, the stripped header to the stripped body |
| Sections.HeaderKeys | ezproxyvisualiser.py:42 | definition, used by HeadersInOrder: the keys the loop assigns are the stripped headers, in order |
| Sections.HeaderNotPreambleKey | ezproxyvisualiser.py:36-44 | no header, once stripped, equals the key "(pre-file text)": the preamble entry is never overwritten |
| Sections.SplitIntoSections | ezproxyvisualiser.py:8-46 | the dict holds the preamble entry first when the preamble is not blank, then each header assigned in order, where a repeated header keeps its first position and takes its last body; text without header lines gives nothing (blank text) or the stripped text under "(pre-file text)" |
| Sections.SectionsStart | ezproxyvisualiser.py:36-38 | before the loop the dict holds only the preamble entry, if any |
| Sections.SectionStep | ezproxyvisualiser.py:41-44 | one turn of the loop assigns the next header and keeps the ordering invariant |
| Sections.NoHeaderSections | ezproxyvisualiser.py:33-44 | text without header lines yields at most the preamble entry |
| OrderedDict.Find | ezproxyvisualiser.py:44 | the position of a key in the dict: its first occurrence, or the length when absent |
| OrderedDict.Assign | ezproxyvisualiser.py:44 | `d[k] = v`: a present key keeps its place in the key order, a new key goes last; `(k, v)` is in the result; every other entry stays where it was; distinct keys stay distinct |
| OrderedDict.AssignNewKey | ezproxyvisualiser.py:340 | assigning a key not yet present appends exactly one entry |
| OrderedDict.AssignKeepsOthers | ezproxyvisualiser.py:44 | assigning one key keeps the entries of all other keys |
| OrderedDict.Dedup | ezproxyvisualiser.py:44 | the key order of a dict filled in turn: each key once, at its first assignment, and nothing else |
| OrderedDict.FirstIndex | ezproxyvisualiser.py:44 | the first position of a key among the assignments, or their number when it was never assigned |
| OrderedDict.DedupFirstOrder | ezproxyvisualiser.py:44 | the keys of a dict filled in turn come in the order of their first assignment |
| OrderedDict.DedupHas | ezproxyvisualiser.py:44 | the key order holds exactly the keys assigned |
| OrderedDict.AssignNext | ezproxyvisualiser.py:41-44 | assigning the next entry keeps "each key holds the value of its last assignment, in first-assignment order" |
| Text.Strip | ezproxyvisualiser.py:62 | `str.strip`: the result has no whitespace at either end, and it is empty exactly when the line is blank |
| Text.StripMargins | ezproxyvisualiser.py:62 | the stripped line is a slice of the line with only whitespace cut away on both sides |
| Text.SplitLines | ezproxyvisualiser.py:61 | the lines of a text hold no newline |
| Text.JoinSplitLines | ezproxyvisualiser.py:61 | joining the lines again with newlines gives back the text |
| Text.SplitJoinLines | ezproxyvisualiser.py:61 | splitting newline-joined lines without newlines gives those lines back |
| Text.Lower | ezproxyvisualiser.py:336 | `str.lower` maps each character on its own and keeps the length |
| Text.TakeFields | ezproxyvisualiser.py:76-82 | n `\S+\s+` steps: when they match, they take n non-empty fields without whitespace |
| Text.TakeFieldsTokens | ezproxyvisualiser.py:76-83 | n `\S+\s+` steps match a stripped line exactly when `line.split()` has more than n tokens, and then they take the first n tokens |
| Text.TokensUnwords | ezproxyvisualiser.py:76-83 | `" ".join` of words is stripped, and `split()` gives the words back |
| Text.TakeFieldsUnwords | ezproxyvisualiser.py:76-83 | n `\S+\s+` steps over n words and a stripped remainder joined by spaces give back the words and the remainder |
| Tables.Outcomes | ezproxyvisualiser.py:61-67 | definition, used by ExtractKept and ParseTable: each line's outcome: nothing when the stripped line is empty or skipped, otherwise the row grammar's match |
| Tables.HitsAreRecords | ezproxyvisualiser.py:60-68 | the matched line positions are in range, increasing, and exactly the lines with a match |
| Tables.RecordsAtHits | ezproxyvisualiser.py:60-68 | there are as many rows as matched lines, and the k-th row is the match of the k-th matched line |
| Tables.ExtractKept | ezproxyvisualiser.py:60-68 | the driver's rows come in line order, one per kept line, and a line is kept exactly when its stripped form is non-empty, not skipped and matched |
| Tables.ParseTable | ezproxyvisualiser.py:48-68 | `_parse_table_with_regex`: the loop collects exactly the rows of the specification `Extract` |
| Tables.DigitRun | ezproxyvisualiser.py:137 | the length of the leading `\d` run: all digits, followed by a non-digit or the end |
| Tables.DecimalRoundTrip | ezproxyvisualiser.py:137 | `\d+\.\d+` reads back every written decimal |
| Tables.ParseDecimalShows | ezproxyvisualiser.py:137 | whatever `\d+\.\d+` accepts is a valid decimal written out |
| Tables.DecimalNoSpace | ezproxyvisualiser.py:137 | a decimal field is a single non-empty token |
| Tables.LastField | ezproxyvisualiser.py:136-139 | when the remainder after n fields has no whitespace, the line has n + 1 tokens and the remainder is the last |
| Tables.LastToken | ezproxyvisualiser.py:159 | a stripped line of n + 1 tokens gives the n first tokens and the last as remainder |
| Tables.LoginRowTokens | ezproxyvisualiser.py:74-86 | a stripped line is a logins row exactly when it has more than seven tokens, the first a `\d{4}-\d{2}-\d{2}` date and the second a `\d{2}:\d{2}:\d{2}` time; the fields are the first seven tokens, and geography is the rest of the line |
| Tables.LoginRoundTrip | ezproxyvisualiser.py:74-86 | a written logins row is read back as its record |
| Tables.ParseLogins | ezproxyvisualiser.py:70-92 | `parse_logins_table`: the driver with its skip test and row grammar |
| Tables.SummaryRowTokens | ezproxyvisualiser.py:98-104 | a stripped line is a summary row exactly when it has three tokens and the last two are digits; the counts are their values |
| Tables.SummaryRoundTrip | ezproxyvisualiser.py:98-113 | a written summary row is read back with both counts as integers |
| Tables.ParseSummary | ezproxyvisualiser.py:94-114 | `parse_login_summary_table`: the driver with its skip test and row grammar, with counts converted |
| Tables.GeoRowTokens | ezproxyvisualiser.py:120-123 | a stripped line is a geographies row exactly when it has more than three tokens, the first "user" and the third digits; the count stays text |
| Tables.LowerKeepsPrefix | ezproxyvisualiser.py:127 | lower-casing keeps a prefix that has no capital letters |
| Tables.GeoSkipSeparator | ezproxyvisualiser.py:127 | a line "user" + whitespace is skipped exactly when that whitespace is a plain space |
| Tables.GeoRowsNeedOtherSpace | ezproxyvisualiser.py:120-128 | every geographies row that survives the skip test has a non-space whitespace character right after "user" |
| Tables.ThreeFieldsAfterWord | ezproxyvisualiser.py:121 | a word, a whitespace character, then two words and a stripped remainder give those three fields and the remainder |
| Tables.GeoRowOfShow | ezproxyvisualiser.py:120-123 | a written geographies row is read back as its record, whatever whitespace follows "user" |
| Tables.GeoRoundTrip | ezproxyvisualiser.py:120-128 | a written geographies row is read back as its record, and it is skipped exactly when "user" is followed by a plain space |
| Tables.ParseGeographies | ezproxyvisualiser.py:116-129 | `parse_multiple_geographies_table`: the driver with its skip test and row grammar |
| Tables.ProviderRowTokens | ezproxyvisualiser.py:135-141 | a stripped line is a provider row exactly when it has four tokens: a decimal second, digits third and fourth |
| Tables.ProviderRoundTrip | ezproxyvisualiser.py:135-151 | a written provider row is read back as its record |
| Tables.ParseProviders | ezproxyvisualiser.py:131-152 | `parse_provider_access_table`: the driver with its skip test and row grammar |
| Tables.KbRowTokens | ezproxyvisualiser.py:158-161 | a stripped line is a kb row exactly when it has two tokens, the second a decimal |
| Tables.KbRoundTrip | ezproxyvisualiser.py:158-170 | a written kb usage row is read back as its record |
| Tables.ParseKbUsage | ezproxyvisualiser.py:154-170 | `parse_kb_usage_by_user`: the driver with its skip test and row grammar |
| Tables.SpuRowTokens | ezproxyvisualiser.py:182 | a stripped line is an SPU row exactly when it has three tokens, the last two digits; the counts are their values |
| Tables.SpuRoundTrip | ezproxyvisualiser.py:182-199 | a written SPU row is read back with both counts as integers |
| Tables.LoginExample | ezproxyvisualiser.py:74-86 | the row `2024-01-05 09:15:00 2024-01-05 10:00:00 bob s1 10.0.0.1 Leeds, UK` is read with the geography `Leeds, UK`, the rest of the line |
| Tables.SummaryExample | ezproxyvisualiser.py:98-113 | the row `bob 12 3` is read as bob with 12 successful logins and 3 failures |
| Tables.GeoExample | ezproxyvisualiser.py:120-128 | `user`, a tab, then `bob 2 UK, FR` is read and kept; the same row with a plain space after `user` is skipped |
| Tables.ProviderExample | ezproxyvisualiser.py:135-141 | the row `jstor 1024.50 0 17` is read as provider jstor, kb 1024.50, 0 errors and 17 accesses |
| Tables.KbExample | ezproxyvisualiser.py:158-161 | the row `bob 12.5` is read as bob with kb 12.5 |
| Tables.SpuExample | ezproxyvisualiser.py:182 | the row `www.jstor.org 42 1` is read as 42 accesses and 1 unknown access |
| Tables.InsertByAccesses | ezproxyvisualiser.py:201 | inserting into rows ordered by accesses, descending, keeps them ordered, adds one row and brings in nothing else |
| Tables.InsertPermutes | ezproxyvisualiser.py:201 | inserting adds exactly the one row, as a multiset |
| Tables.SortByAccesses | ezproxyvisualiser.py:201 | the sort's result is ordered by accesses, descending, and is a permutation of its input |
| Tables.InsertKeepsTies | ezproxyvisualiser.py:201 | inserting puts the row ahead of the rows it ties with, keeping their order |
| Tables.SortIsStable | ezproxyvisualiser.py:201 | `kind="mergesort"` is stable: for each number of accesses, the rows with that number keep their input order |
| Tables.ParseSpuSummary | ezproxyvisualiser.py:172-202 | `parse_spu_summary_usage`: the driver's rows, stably sorted by accesses, descending |
| Router.ParseSection | ezproxyvisualiser.py:337 | calling a rule's parser on a section body gives the table of that shape |
| Router.Rules | ezproxyvisualiser.py:323-331 | definition: the seven rules of parser_mapping, in order; their names are stated by RuleNames and RulesNamesApart |
| Router.RuleNames | ezproxyvisualiser.py:323-331 | the dataset name of each rule, with the kb usage rule alone taking its name from the header |
| Router.RulesNamesApart | ezproxyvisualiser.py:323-331 | no two rules of parser_mapping can store under the same name, and no fixed name starts "KBUsage_" |
| Router.KeysApart | ezproxyvisualiser.py:339 | rules whose names are apart give different dataset keys, whatever the headers |
| Router.FirstMatch | ezproxyvisualiser.py:335-341 | the section a rule stops at holds the keyword in its lower-cased header, and no earlier section does; with no such section, none does |
| Router.FirstMatchAt | ezproxyvisualiser.py:335-341 | a section holding the keyword after none that does is the first match |
| Router.NoMatchAfterAll | ezproxyvisualiser.py:335-341 | a rule for which no section holds the keyword finds none |
| Router.RuleOutcomes | ezproxyvisualiser.py:334-341 | definition, used by Route and RoutedInRuleOrder: one outcome per rule, in rule order |
| Router.AssignAllDistinct | ezproxyvisualiser.py:333-340 | when no two outcomes share a key, no assignment overwrites another, and the dict is the stored datasets in order |
| Router.OutcomeKeysDistinct | ezproxyvisualiser.py:339-340 | rules whose names are apart never store twice under one key |
| Router.RoutedInRuleOrder | ezproxyvisualiser.py:333-341 | `df_dict` holds one dataset for each rule whose first matching section has rows, in rule order; the k-th dataset is what the k-th such rule stored |
| Router.Route | ezproxyvisualiser.py:333-341 | the nested loop with `break` builds exactly `Collected`: each rule stops at its first matching section, even when that section's table is empty |
| Router.AtMostOneKbUsage | ezproxyvisualiser.py:329-341 | no two stored datasets both have names starting "KBUsage_" |
| Router.NoKeywordNoDatasets | ezproxyvisualiser.py:334-341 | when no header holds any keyword, no dataset is stored |
| Router.NoOutcomesNothingAssigned | ezproxyvisualiser.py:333-340 | with no stored outcome, the dict stays empty |
| Router.ProviderKeywordsNest | ezproxyvisualiser.py:327-328 | a header holding the kb-sorted provider keyword also holds the plain one |
| Router.ProviderRulesOverlap | ezproxyvisualiser.py:327-341 | whenever the kb-sorted provider rule finds a section, the plain provider rule finds one too, no later in dict order |
| Router.KeywordsOutgrowPreambleKey | ezproxyvisualiser.py:323-331 | every keyword is longer than "(pre-file text)", so the preamble entry is never routed |
| Router.PreambleOnlyNoDatasets | ezproxyvisualiser.py:319-341 | a dict holding only the preamble entry yields no dataset |
| Router.ParseAuditLog | ezproxyvisualiser.py:319-344 | split then route: the sections are those of `split_into_sections`, the datasets those of the loop, and text without header lines yields no dataset (the "No recognised data tables" case) |

## Left out

- User interface, file upload and decoding, plotting, `display_dataframe` and
  the visualisation helpers of `main` are not part of this model: they do
  I/O and drawing, not parsing.
- pandas is not modelled. A table is the sequence of its row records, and a
  DataFrame is empty when there are no rows. `reset_index` is omitted
  because it only renumbers the index.
- Tables.ParseProviders, Tables.ParseKbUsage: `pd.to_numeric` turns the `kb`
  figure into a float. The model keeps the figure as its digit strings
  (`Decimal`), which the row grammar guarantees. Floating-point rounding is
  not modelled.
- Tables.ParseSummary, Tables.ParseSpuSummary, Tables.ParseProviders: counts
  are unbounded `nat`s, converted per row as the row is read. pandas holds
  them in 64 bits. On a digit run too wide for 64 bits, `astype(int)`
  (lines 112-113) raises instead of returning a table. `to_numeric` (lines
  150-151 and 198-199) falls back to floating point there, so such counts
  lose precision. The SPU sort then compares the converted values, not the
  exact ones.
- Tables.ParseGeographies: `count` is kept as its digit text, as in the code.
- The regex engine itself is not modelled. Each row pattern is a function
  that does what the pattern does on a stripped line. Lemmas tie each one to
  `str.split()` tokens, and round trips tie it to a writer of rows.
- Unicode: `\d` is modelled as ASCII digits, and `lower()` as ASCII
  lower-casing. Whitespace is the set `str.strip` and `\s` share, as listed
  in `Text.IsSpace`.
- Text.SplitLines: lines are cut at `\n` only. `str.splitlines` also cuts at
  `\r`, `\x0b`, `\x0c`, `\x1c`-`\x1e`, `\x85` and the Unicode separators.
- Text.SplitLines returns `[""]` for the empty text where `str.splitlines`
  returns `[]`. Blank lines are dropped by the driver, so the rows are the
  same.
- The split into sections is modelled on `\n`-separated lines, which is where
  `re.MULTILINE` lets `^` match.
- Worked examples are single table rows (`Tables.LoginExample` and the
  others). There is no worked example of a whole log.
