# linkedin-jobs-notifier: a verified model of the filtering, dedup and ledger logic

This project models the logic that sits between the notifier's browser scrapers and its Discord bot:

- **scraper.py (module `Scraper`).** The LinkedIn scraper:
  - loading of the keyword and URL lists from the environment;
  - the include/exclude keyword filter;
  - the stop-marker lookup in `config.json`;
  - the card loop of `parse_job_listings`;
  - the page loop of `scrape_url`;
  - `get_recent_roles`, which scrapes every configured search and records each URL's first job link as its next stop marker.
- **wuzzuf_scraper.py (module `Wuzzuf`).** The Wuzzuf scraper:
  - the fixed .NET keyword list and its check, which returns context snippets;
  - the skill-link filter of `get_job_skills`;
  - card acceptance in `parse_wuzzuf_jobs`: a card is accepted by its title, or else by the skills on its detail page.
- **bot.py (module `Bot`).** The bot:
  - `get_config` defaulting;
  - the notified-jobs ledger of `clean_old_jobs`: legacy migration, pruning by age, and the rebuilt `posted` list;
  - the per-cycle dedup, blacklist and record steps of `send_new_roles`;
  - the `!blacklist` / `!unblacklist` commands and their confirmation messages.

Shared modules model Python built-ins the code relies on:

- `Text`: `strip`, `splitlines`, `find`, `in`, `split('#', 1)`, `replace`, `join` and `lower`.
- `Keywords`: case-insensitive keyword matching in list order.
- `Json`: `config.json` as an insertion-ordered object.
- `Seqs`: order-preserving filters.
- `Wrappers`: `Option` and `Result`.

The browser is abstracted away. A LinkedIn page is the list of job cards already read from it: each card is a record of optional strings, one per selector. A Wuzzuf card is similar, and a Wuzzuf detail page is what each skill selector returned. The clock is an integer parameter, in microseconds: `now` for cleaning and a separate `currentTime` for recording the new jobs. The config file is a value: missing, malformed, or a decoded object.

The in-memory bot config is the class `Bot.Config`. Its fields are the blacklist (a set), `posted`, whether `posted_with_timestamps` is present, and the ledger itself. The ledger is an ordered list of (job key, timestamp) pairs with distinct keys, because a Python dict keeps insertion order and `posted` is rebuilt from its keys. Each state-changing handler is a method proved against functions of the old state. Those functions carry the properties: the pruning rule, dedup by `company - title` key, blacklist exclusion, and one timestamp per cycle.

A behaviour of the code worth knowing is stated as `Bot.LegacyConfigDropsPosted`. `get_config` always inserts an empty `posted_with_timestamps` into a file that lacks one (bot.py:316-317). So when a config comes through that path, the migration in `clean_old_jobs` (bot.py:138-147) never runs, and the legacy `posted` jobs are dropped, not migrated. The model keeps both functions as they are written.

## Model

| member | source | states |
|---|---|---|
| Scraper.LoadKeywords | scraper.py:24-29 | definition of `load_keywords_from_env` on the variable's value; what it guarantees is stated by LoadKeywordsClean and LoadKeywordsRoundTrip |
| Scraper.LoadKeywordsClean | scraper.py:24-29 | every keyword loaded from the environment is non-empty, stripped and has no line break |
| Scraper.LoadKeywordsRoundTrip | scraper.py:24-29 | clean keywords written one per line load back as exactly the same list |
| Scraper.ParseLine | scraper.py:42-52 | definition of one line's step of `parse_multiline_urls`; characterised by ParseLineShape and ParseLineWellFormed |
| Scraper.ParseLineShape | scraper.py:42-52 | a line is skipped exactly when it is blank or starts with '#' once stripped; otherwise its url is the stripped text before the first '#', and it has a note exactly when it has a '#', the stripped rest |
| Scraper.ParseLineWellFormed | scraper.py:43-52 | an entry read from a one-line string has a non-empty stripped url without '#' and a stripped note |
| Scraper.EntriesOfWellFormed | scraper.py:41-54 | every entry read from break-free lines is well formed |
| Scraper.ParseMultilineUrls | scraper.py:35-54 | the loop returns the entries of the lines in order, nothing for blank input, and only well-formed entries |
| Scraper.ParseFormattedLine | scraper.py:43-52 | the line written for a well-formed entry parses back to that entry |
| Scraper.EntriesOfFormatted | scraper.py:41-54 | formatted well-formed entries parse back one for one |
| Scraper.ParseMultilineUrlsRoundTrip | scraper.py:35-54 | writing well-formed entries one per line and parsing the text gives them back in order |
| Scraper.CheckKeywordsInText | scraper.py:76-102 | empty text fails with empty lists; excluded hits are reported in list order and then nothing is found; otherwise the found list is the job keywords present in list order, and found means it is non-empty |
| Scraper.Passes | scraper.py:76-102 | definition of the boolean answer of `check_keywords_in_text`; characterised by PassesIff |
| Scraper.KeywordText | scraper.py:250-253 | definition of the text the card filter checks: "title company", plus " insight" when the card has one |
| Scraper.PassesIff | scraper.py:78-102 | a text passes exactly when it is non-empty, no excluded keyword occurs and some job keyword occurs; an excluded hit always rejects; an empty include list rejects every text |
| Scraper.DefaultConfig | scraper.py:116-121 | definition of the default config: empty `posted` and `last_job_per_source` objects; GetConfig returns it for a missing or invalid file |
| Scraper.GetConfig | scraper.py:104-121 | a missing or invalid file gives the default; a read file keeps every key it has and gains `last_job_per_source` and `posted` as empty objects when absent |
| Scraper.GetConfigIdempotent | scraper.py:111-114 | filling in defaults twice changes nothing |
| Scraper.GetStopMarker | scraper.py:123-136 | the lookup raises exactly when `last_job_per_source` is an object whose entry for the URL is not an object, a list holding the URL, a string containing it, or a value `in` cannot search; a URL without an entry gives no marker; a returned marker is always truthy |
| Scraper.StopMarkerOfRecordedLink | scraper.py:128-136 | for an entry that is an object: any truthy `job_link`, string or not, is returned unchanged; a falsy or missing one gives no marker; a string link is returned exactly when it is non-empty |
| Scraper.NoStopMarkerWithoutEntry | scraper.py:126-129 | a URL without an entry, or a default config, gives no marker |
| Scraper.CardLink | scraper.py:202-209 | a card has a link exactly when its job link element has an `href` |
| Scraper.CardLinkNoQuery | scraper.py:205 | a job link never contains '?', and an `href` without a query is kept whole |
| Scraper.StopIndex | scraper.py:217-224 | the position at which the card loop breaks on the stop marker, never past the last card; characterised by StopIndexFirst |
| Scraper.StopIndexFirst | scraper.py:217-224 | no card before the stop index has the stop-marker link, and the card at it does |
| Scraper.RolesOf | scraper.py:244-288 | definition of the roles the card loop appends, card by card; characterised by RolesOfMember and RolesOfSound |
| Scraper.RolesOfMember | scraper.py:244-288 | a role is returned exactly when it comes from a linked card that is kept by the keyword filter (when on) |
| Scraper.RolesOfSound | scraper.py:201-288 | every returned link has no query string, and with checking on its card's "title company [insight]" text passes the filter |
| Scraper.CardRoleAttributes | scraper.py:236-288 | a role's picture and posted time are `None` exactly when the image or time element is there without `src` or `datetime`, the placeholder or "N/A" exactly when the element is missing, and the attribute otherwise |
| Scraper.FirstLink | scraper.py:201-215 | definition of `first_job_link_on_page`; characterised by FirstLinkNone, FirstLinkIsFirst and FirstLinkSettled |
| Scraper.FirstLinkNone | scraper.py:201-215 | there is no first link exactly when no card has a link |
| Scraper.FirstLinkIsFirst | scraper.py:213-215 | the first link is that of the first linked card, wherever it is |
| Scraper.FirstLinkSettled | scraper.py:213-215 | once a first link is taken, later cards do not change it |
| Scraper.BuildRole | scraper.py:226-288 | the rest of one card iteration yields the role of a kept card and nothing otherwise |
| Scraper.ParseJobListings | scraper.py:138-308 | the roles are the kept cards before the first stop-marker card; `hit_stop_marker` holds exactly when there is such a card; the first link is taken from all cards, before the stop and keyword checks |
| Scraper.LastPageFrom | scraper.py:336-445 | the last page parsed lies between the first and page 10 |
| Scraper.LastPageFromStops | scraper.py:421-445 | the loop goes on after every page before the last, and the last page stops it unless it is page 10 |
| Scraper.ScrapePage | scraper.py:407-445 | one page iteration adds that page's roles, keeps the first truthy link of page 1 only, and stops on a marker hit, a short page or a disabled next button |
| Scraper.ScrapePages | scraper.py:336-457 | the page loop returns the roles of pages 1..last in page order and the first job link of page 1 |
| Scraper.PageLoopStep | scraper.py:407-445 | one parsed page extends the accumulated roles and moves the last page as the stop rules say |
| Scraper.NextPage | scraper.py:407-445 | one page-loop iteration gives the roles of pages 1..n and the page-1 first link, and says truly whether page n is the last |
| Scraper.FirstJobLinkFromPageOne | scraper.py:411-413 | the future stop marker is the non-empty first link of page 1, and there is none when page 1 has no linked card |
| Scraper.PageLoopBounds | scraper.py:336-432 | at most 10 pages are visited, every page before the last was full and unstopped, and a marker hit on page 1 ends the loop there |
| Scraper.ScrapeOf | scraper.py:310-457 | definition of `scrape_url`'s result: stop-marker lookup, auth-wall check, then the page loop; ScrapeUrl is proved equal to it |
| Scraper.ScrapeUrl | scraper.py:310-457 | `scrape_url` fails exactly when the stop-marker lookup raises; otherwise it returns the page loop's result |
| Scraper.IsAuthWall | scraper.py:331 | definition of the redirect test: the lowered landing URL contains "login" or "authwall"; used by AuthWallYieldsNothing |
| Scraper.AuthWallYieldsNothing | scraper.py:331-334 | a login or authwall redirect yields no roles and no marker |
| Scraper.HarvestOf | scraper.py:471-489 | definition of the URL loop of `get_recent_roles` as a fold that stops at the first failing scrape; ScrapeAll is proved equal to it |
| Scraper.ScrapeAll | scraper.py:471-479 | the loop over one URL list scrapes each entry in order and extends the roles and markers |
| Scraper.HarvestFailSticks | scraper.py:472-477 | once a scrape fails, the whole run fails with the same error |
| Scraper.GetRecentRoles | scraper.py:459-496 | the unfiltered list is scraped without keyword checks, then the filtered list with them, continuing from the first harvest |
| Scraper.HarvestRoles | scraper.py:474-487 | the harvest's roles equal the starting roles followed by each entry's scraped roles, concatenated in entry order; so a role is in it exactly when it started there or some entry's scrape gave it |
| Scraper.ScrapedRoles | scraper.py:474-487 | definition of the entries' scraped roles concatenated front to back, the reference HarvestRoles compares the fold with |
| Scraper.HarvestAppend | scraper.py:471-489 | harvesting two URL lists one after the other is harvesting the second from where the first ended, or the first's failure |
| Scraper.HarvestMarkers | scraper.py:476-489 | a URL has a marker afterwards exactly when it had one before or one of its scrapes found a first link |
| Scraper.HarvestMarkerValues | scraper.py:471-489 | after a harvest, a URL some entry of which found a first link maps to that link; any other URL keeps the marker it started with, or stays without one |
| Scraper.LastEntryWins | scraper.py:476-477 | a final entry whose scrape found a first link sets its URL's marker to that link, overriding any earlier marker |
| Keywords.Matching | scraper.py:93-96 | definition of the keywords of a list found in the text, ignoring case, in list order (also the loop at wuzzuf_scraper.py:53-56); characterised by MatchingMember, MatchingAppend and MatchingEmptyIff |
| Keywords.MatchingMember | scraper.py:93-96 | a keyword is reported exactly when it is listed and occurs in the text, ignoring case |
| Keywords.MatchingAppend | scraper.py:93-96 | matching keeps list order: it distributes over concatenation of keyword lists |
| Keywords.MatchingEmptyIff | scraper.py:98 | nothing is reported exactly when no listed keyword occurs |
| Keywords.MatchingRepeat | wuzzuf_scraper.py:22 | a keyword listed twice in a row that occurs is reported twice in a row |
| Text.Strip | scraper.py:43 | `strip()` never lengthens its argument; StripStripped states that no whitespace is left at either end |
| Text.StripStripped | scraper.py:43 | `strip()` leaves no whitespace at either end |
| Text.SplitLines | scraper.py:29 | `splitlines()` gives lines without line breaks, and no lines exactly for the empty string |
| Text.SplitLinesOfJoin | bot.py:114-118 | `splitlines` of lines joined by line breaks gives the lines back |
| Text.Lower | scraper.py:81 | `lower()` keeps the length of the text |
| Text.SplitOnce | scraper.py:47 | definition of `split('#', 1)`: the text before the first separator, and the rest after it when there is one |
| Text.SplitOnceParts | scraper.py:47 | the first part holds no separator; there is no rest exactly when the separator does not occur, and then the first part is the whole text; otherwise first part, separator and rest rebuild the text |
| Text.Find | wuzzuf_scraper.py:57 | `find` is -1 exactly when the text does not occur; otherwise it is the first position where it occurs |
| Text.RemoveAll | wuzzuf_scraper.py:152 | `replace(pat, "")` never lengthens; it is the identity when the pattern does not occur and strictly shortens otherwise |
| Json.Put | bot.py:316-317 | setting a key makes it map to the new value; a new key is appended to the key order and an existing one keeps its place |
| Json.GetPutOther | bot.py:316-317 | setting one key leaves every other key's value unchanged |
| Bot.DefaultBotConfig | bot.py:303-307 | definition of the default bot config: empty blacklist, empty `posted`, empty `posted_with_timestamps`; GetBotConfig returns it for a missing file |
| Bot.GetBotConfig | bot.py:298-319 | only a malformed file fails; a missing file gives the default config; a read file keeps every value it has and gains an empty `posted_with_timestamps` when absent |
| Bot.GetBotConfigIdempotent | bot.py:316-317 | loading an already defaulted config changes nothing |
| Bot.Config.Default | bot.py:303-307 | the default config has an empty blacklist, nothing posted and an empty ledger |
| Bot.SetStamp | bot.py:247 | definition of the dict store `ledger[job] = at`; characterised by SetStampJobs and SetStampNew |
| Bot.StampAll | bot.py:144-145 | definition of storing a list of jobs at one time, in order; characterised by StampAllDistinct, StampAllJobs, StampAllAt and StampAllFresh |
| Bot.SetStampJobs | bot.py:247 | assigning a timestamp to a job adds it to the ledger's keys once, at the end, only when it is new |
| Bot.SetStampNew | bot.py:247 | a new job's timestamp is appended to the ledger |
| Bot.StampAllDistinct | bot.py:144-145 | writing timestamps for a list of jobs keeps the ledger's keys distinct |
| Bot.StampAllJobs | bot.py:144-145 | after writing, a job is in the ledger exactly when it was before or was written |
| Bot.StampAllAt | bot.py:144-145 | every entry after writing was there before or carries the write time |
| Bot.StampAllFresh | bot.py:246-247 | writing distinct new jobs appends them, in order, with the write time |
| Bot.Pruned | bot.py:150-158 | definition of the dict comprehension that keeps entries later than the cutoff; characterised by PrunedKeeps, PrunedInOrder and NothingPrunedIff |
| Bot.Migrated | bot.py:138-147 | definition of the ledger `clean_old_jobs` prunes: the existing one, or every legacy job stamped now; characterised by MigrationSurvives |
| Bot.Cleaned | bot.py:136-161 | definition of the ledger `clean_old_jobs` leaves; CleanOldJobs is proved equal to it |
| Bot.Cutoff | bot.py:150 | definition of the cutoff: `now` minus `daysToKeep` days in microseconds; PrunedKeeps states how it is used |
| Bot.PrunedKeeps | bot.py:150-158 | an entry survives pruning exactly when it was there and its timestamp is strictly later than the cutoff; survivors keep their timestamps |
| Bot.PrunedInOrder | bot.py:154-158 | the survivors are a subsequence of the ledger in its order, and distinct keys stay distinct |
| Bot.NothingPrunedIff | bot.py:153-161 | nothing is removed exactly when every timestamp is after the cutoff, and then the ledger is unchanged |
| Bot.MigrationSurvives | bot.py:138-158 | a migrated legacy list has distinct keys; with a positive retention every legacy job survives the first clean, and with none every one is removed |
| Bot.LegacyConfigDropsPosted | bot.py:316-317 | a legacy file is loaded with an empty ledger, so cleaning drops its posted jobs, where the migration would have kept them |
| Bot.MigrateJobs | bot.py:138-147 | the migration loop gives every legacy job the current time, with distinct keys |
| Bot.Config.CleanOldJobs | bot.py:136-169 | the ledger becomes the migrated ledger with old entries pruned, `posted` becomes exactly its keys, and the result is the number of entries removed; the blacklist is unchanged |
| Bot.UniqueRoles | bot.py:219-230 | definition of the dedup result; characterised by UniqueKeys, UniqueSound, UniqueComplete and UniqueMember |
| Bot.KeyOf | bot.py:224 | definition of the job key `f"{company} - {title}"`, the same string bot.py:238 records; the dedup and record lemmas are stated over it |
| Bot.UniqueKeys | bot.py:219-230 | a key survives dedup exactly when some role has it and it was not posted |
| Bot.UniqueDistinct | bot.py:222-230 | the unique roles have distinct keys, none of them posted |
| Bot.UniqueInOrder | bot.py:222-230 | the unique roles are a subsequence of the scraped roles, in order |
| Bot.UniqueSound | bot.py:226-230 | every unique role is the first scraped role with its key, and its key was not posted |
| Bot.UniqueComplete | bot.py:226-230 | the first scraped role with an unposted key is kept |
| Bot.UniqueMember | bot.py:219-230 | a role is kept exactly when it is the first with its key and the key was not posted |
| Bot.Deduplicate | bot.py:219-230 | the dedup loop with its `seen_jobs` set computes the unique roles |
| Bot.Recorded | bot.py:236-243 | definition of the unique roles that pass the blacklist; characterised by RecordedMember and RecordedInOrder |
| Bot.RecordedMember | bot.py:236-243 | a unique role is recorded exactly when its company is not in the blacklist |
| Bot.RecordedInOrder | bot.py:236-249 | the recorded roles keep their order and their distinct keys |
| Bot.SourceLabel | bot.py:251 | the source is "Wuzzuf" exactly when the link contains "wuzzuf.net", and "LinkedIn" otherwise |
| Bot.Classify | bot.py:232-251 | the record loop appends each recorded key to `posted` and the ledger with one time. `companies` is the set of recorded companies, the count is the number of recorded roles, and one notification is made per recorded role, with its source |
| Bot.CycleExtendsLedger | bot.py:219-249 | with a ledger of distinct keys, recording a cycle's roles appends their keys with the cycle's time, and the keys stay distinct |
| Bot.Config.RecordNewRoles | bot.py:232-249 | the config's `posted` and ledger grow by the recorded keys, stamped at the record time; the ledger's keys stay distinct and the blacklist is unchanged |
| Bot.Config.SendNewRoles | bot.py:187-266 | one cycle cleans, dedups against the posted keys and records. The config is saved after cleaning exactly when jobs were removed, and after posting exactly when some company was recorded. `posted` stays the ledger's keys, distinct, and grows by the recorded keys. Cleaning uses the clock read before the scrape, and the new jobs are stamped with the one read after it |
| Bot.AddAll | bot.py:75-78 | the add loop gives the union of the blacklist and the command's names |
| Bot.DiscardAll | bot.py:94-97 | the discard loop gives the blacklist without the command's names |
| Bot.ListCompanies | bot.py:80-82 | the confirmation loop lists every reported company once, each followed by ", " |
| Bot.ListingJoin | bot.py:80-86 | the listing is the names joined by ", " plus a trailing ", ", which `[:-2]` removes |
| Bot.ConfirmationText | bot.py:80-86 | no names give the "No companies…" message; otherwise it is the lead, the joined names and the tail |
| Bot.ReportsNothingIff | bot.py:83-86 | a confirmation is the "nothing" message exactly when the reported set is empty |
| Bot.CommandsReportNothingIff | bot.py:80-105 | both commands' messages are their "No companies were …" text exactly when nothing changed |
| Bot.Config.AddToBlacklist | bot.py:73-90 | the blacklist becomes old ∪ names, and the message reports exactly new \ old with the "Added … to the blacklist!" framing; nothing else changes |
| Bot.Config.RemoveFromBlacklist | bot.py:92-109 | the blacklist becomes old \ names, and the message reports exactly old \ new with the "Removed … from the blacklist!" framing; nothing else changes |
| Bot.CommandOf | bot.py:111-118 | a bot author's message is ignored; the only failure is an empty message from a person, which has no first line (the `[0]` IndexError) |
| Bot.CommandRoundTrip | bot.py:114-118 | a message whose first line is exactly the command word, followed by one company per line, yields that command with exactly those lines, unstripped |
| Bot.Config.OnMessage | bot.py:111-118 | the message dispatches as its command says, changing only the blacklist, and an empty message raises |
| Wuzzuf.DotnetKeywordsShape | wuzzuf_scraper.py:15-28 | helper for AspNetCoreTwice: a fact about the constant list, 39 entries with "asp.net core" at positions 20 and 21 |
| Wuzzuf.AspNetCoreTwice | wuzzuf_scraper.py:22 | a text mentioning "asp.net core" has it twice in a row among the matched keywords, but a single location entry |
| Wuzzuf.Snippet | wuzzuf_scraper.py:57-60 | definition of the context slice of 40 characters either side of the first match; characterised by SnippetAroundMatch |
| Wuzzuf.SnippetAroundMatch | wuzzuf_scraper.py:57-60 | a snippet is a piece of the text, between len(kw) and len(kw)+80 long, that contains the keyword ignoring case |
| Wuzzuf.Locations | wuzzuf_scraper.py:53-60 | definition of the `search_locations` dict built in list order; characterised by LocationsSpec |
| Wuzzuf.LocationsSpec | wuzzuf_scraper.py:53-60 | the locations have distinct keys, one exactly for each listed keyword that occurs, holding that keyword's snippet |
| Wuzzuf.MatchKeyword | wuzzuf_scraper.py:54-60 | one keyword step records the keyword and its snippet exactly when it occurs, extending the matched list and locations by that keyword |
| Wuzzuf.MatchKeywords | wuzzuf_scraper.py:49-60 | the keyword loop's matched list and locations are the matching keywords in list order and their snippets |
| Wuzzuf.CheckKeywordsInText | wuzzuf_scraper.py:42-66 | empty text gives (False, [], {}); otherwise found means some keyword matched, with the matched list and locations above |
| Wuzzuf.CheckKeywords | wuzzuf_scraper.py:62-66 | the boolean mode is the first component of the detail mode |
| Wuzzuf.HasKeywordsIff | wuzzuf_scraper.py:42-62 | a text has keywords exactly when it is non-empty and some listed keyword occurs in it ignoring case |
| Wuzzuf.SkillOfIff | wuzzuf_scraper.py:92-96 | an element names a skill exactly when its stripped text is non-empty and its `href` contains '/a/' and '-Jobs-in-' |
| Wuzzuf.Skills | wuzzuf_scraper.py:87-97 | definition of the skills collected over the elements; characterised by SkillsDistinct, SkillsMember and SkillsFirstSeen |
| Wuzzuf.SkillsDistinct | wuzzuf_scraper.py:91-97 | collected skills are distinct, non-empty and stripped |
| Wuzzuf.SkillsMember | wuzzuf_scraper.py:91-97 | a text is collected exactly when some visited element names it as a skill |
| Wuzzuf.SkillsFirstSeen | wuzzuf_scraper.py:87-97 | visiting more elements only appends skills, so they stay in first-seen order |
| Wuzzuf.AddSkill | wuzzuf_scraper.py:92-97 | one element step appends its stripped text exactly when it is new, non-empty and the element is a skill link |
| Wuzzuf.CollectSkills | wuzzuf_scraper.py:91-97 | the element loop for one selector continues the skill list as the filter says |
| Wuzzuf.GetJobSkills | wuzzuf_scraper.py:68-111 | the selector loop skips failed selectors and returns the skills joined by single spaces, or "" when the page cannot be opened |
| Wuzzuf.NormalizeCompany | wuzzuf_scraper.py:152 | a normalised company name is never longer than the stripped text |
| Wuzzuf.CompanyOf | wuzzuf_scraper.py:148-159 | definition of the company of a card: its element, else the alternative element, normalised, else "Unknown Company"; characterised by CompanyOfSpec |
| Wuzzuf.CompanyOfSpec | wuzzuf_scraper.py:148-159 | without a company element the name is "Unknown Company"; the primary selector wins over the alternative; for either selector, a name without " -" is just its stripped text, and one with " -" gets strictly shorter |
| Wuzzuf.Decide | wuzzuf_scraper.py:135-200 | definition of one card's outcome; JudgeCard is proved equal to it |
| Wuzzuf.AcceptedRoles | wuzzuf_scraper.py:130-207 | definition of the accepted roles in card order; characterised by AcceptedMember and AcceptedRolesAppend |
| Wuzzuf.AcceptedMember | wuzzuf_scraper.py:175-197 | a role is returned exactly when it comes from a card with a title and link whose title matches, or whose title does not match and whose skills do |
| Wuzzuf.TitleMatchIgnoresSkills | wuzzuf_scraper.py:176-187 | a card whose title matches is accepted whatever its detail page says, and the page is not opened |
| Wuzzuf.SkillChecksMember | wuzzuf_scraper.py:182-199 | a detail page is opened exactly for the usable cards whose title has no keyword |
| Wuzzuf.AcceptedRolesAppend | wuzzuf_scraper.py:130-207 | accepted roles and opened pages follow card order: both distribute over concatenation of the card list |
| Wuzzuf.JudgeCard | wuzzuf_scraper.py:135-200 | one card is skipped without a title or link, accepted by title, or else accepted by skills after opening its page |
| Wuzzuf.ParseWuzzufJobs | wuzzuf_scraper.py:113-207 | a listing that did not load gives nothing; otherwise the roles are the accepted cards' (company, title, link, picture) in card order, and the pages opened are those of the cards that needed skills |

## Left out

- Browser mechanics are not modelled:
  - the driver, waits, scrolling, sleeps and navigation (scraper.py:56-74 and 328-402; wuzzuf_scraper.py:30-40);
  - the Wuzzuf entry points `scrape_wuzzuf` and `get_wuzzuf_roles`.

  Instead, cards, pages, element lists and detail pages are inputs. A Wuzzuf detail page is a lookup by link, so opening the same link twice gives the same page, and `driver.back()` has no effect.
- Selenium errors other than a missing element are not modelled: an element that vanishes mid-loop, `get_attribute` raising, and the per-card `except` clauses. The scraper's keyword check cannot raise on a string, so its error branch (scraper.py:273-278) is never taken.
- `actual_jobs_on_page` (scraper.py:401-402) is taken to be the number of cards the card loop sees.
- Discord plumbing is left out: the client, the events, the embeds, `safe_send` and its retries, and the companies-list message. The notifications of a cycle are modelled as values. The 20-minute asyncio loop (bot.py:277-296) is scheduling and not part of this model.
- File I/O is not modelled. `config.json` is a value, and saving is a flag in the cycle's result. `save_config` rewrites the file in place, and the model makes no claim of atomic persistence.
- The URL builders `get_levels_url` and `get_google_url` depend on `urllib.parse.quote_plus` and are not part of this model.
- Time:
  - Timestamps are integer microseconds.
  - ISO strings are not parsed.
  - `DAYS_TO_KEEP_JOBS` is the parameter `daysToKeep`.
  - `clean_old_jobs` reads the clock twice (bot.py:141 and 150); the model uses one `now` for both.
  - `send_new_roles` reads `current_time` after the scrape (bot.py:234); the model takes it as the separate parameter `currentTime`, which need not be later than `now`.
- `lower()` is ASCII case mapping, which keeps lengths. The Wuzzuf snippet relies on that, because it indexes the lowered text and slices the original.
- The cross-module glue is inconsistent, so each piece is modelled separately and no end-to-end property is claimed:
  - bot.py:207 treats `get_recent_roles()` as a list, but the function returns a pair.
  - bot.py:223 unpacks four fields, but scraper.py:288 builds five.
  - Nothing writes `last_job_per_source`.
  - scraper.py:114 defaults `posted` to an object.
- The KeyError at bot.py:147 for a legacy config without `posted` is not modelled: the bot config always has a `posted` list.
- The KeyError for a config without "blacklist" (bot.py:75, 94 and 196) is not modelled: `Bot.Config` always holds a blacklist, and no function maps the document `Bot.GetBotConfig` returns to a `Bot.Config`.
- A top-level document that is not an object (`[]`, `5`, `null`) makes both `get_config` functions raise TypeError (scraper.py:111-113, bot.py:316-317). The config file value cannot express such a document, so that error is not modelled.
- A document with a duplicate key: `json.load` keeps the last value, but `Json.Get` returns the first. A document with duplicate keys is therefore not read as Python reads it.
- Bot.Config.SendNewRoles: one `Bot.Config` object stands for both the cycle's dict, loaded once at bot.py:187, and `config.json`. The cycle filters with the blacklist it read at bot.py:196 and saves its dict at bot.py:192 and 266. A cycle that saves nothing leaves the file unchanged. So a legacy config migrated in memory is migrated again, at a fresh time, on the next cycle. The model's object instead keeps the migrated ledger.
- Bot.Config.OnMessage: the handlers re-read the file (bot.py:74 and 93) and save it (bot.py:89 and 108). The same holds for Bot.Config.AddToBlacklist and Bot.Config.RemoveFromBlacklist. The model runs a command on the shared object, not on the file. It therefore does not capture the lost update when a command handled during one of the cycle's awaits (bot.py:193, 202, 206, 213, 258) is overwritten by the cycle's save at bot.py:266.
- Scraper.LastEntryWins: a scrape is a function of the URL, so repeated visits of one URL are taken to show the same page. The rule that a later occurrence of a URL overwrites its marker (scraper.py:476-477 and 488-489) therefore cannot be told apart from "first wins". The model proves the marker's value (Scraper.HarvestMarkerValues), not which visit wrote it.
- Bot.Config.AddToBlacklist: the confirmation lists the companies in set-iteration order, which Python does not fix. The contract states that the message lists each reported company exactly once in some order, not which order.
- Bot.Config.RemoveFromBlacklist: same as AddToBlacklist, the order of the listed companies is left open.
- Wuzzuf.CompanyOfSpec: the contract characterises a multi-dash name only by its length. `replace` is a single left-to-right pass, so a name such as "a  --b" can still contain " -" afterwards, and `Text.RemoveAll` defines that pass exactly.
