/**
 * scraper.py: the LinkedIn side of the notifier. The browser is abstracted away: a page is
 * the list of job cards already read from it, and environment variables and the config file
 * are passed in as values.
 */
module Scraper {
  import opened Wrappers
  import opened Seqs
  import opened Text
  import opened Keywords
  import opened Json

  // ---------------------------------------------------------------------------
  // load_keywords_from_env

  /** The stripped form of every line that is not blank, in order. */
  function NonBlankStripped(lines: seq<string>): seq<string>
  {
    if lines == [] then []
    else (if Strip(lines[0]) != [] then [Strip(lines[0])] else []) + NonBlankStripped(lines[1..])
  }

  /** `load_keywords_from_env`, given the variable's value ("" when it is unset). */
  function LoadKeywords(value: string): seq<string>
  {
    if value == [] then [] else NonBlankStripped(SplitLines(Strip(value)))
  }

  /** What a loaded keyword looks like: non-empty, stripped, on one line. */
  predicate IsKeyword(k: string) {
    k != [] && IsStripped(k) && NoLineBreak(k)
  }

  lemma {:induction false} NonBlankStrippedClean(lines: seq<string>)
    requires forall i :: 0 <= i < |lines| ==> NoLineBreak(lines[i])
    ensures forall i :: 0 <= i < |NonBlankStripped(lines)| ==> IsKeyword(NonBlankStripped(lines)[i])
  {
    if lines != [] {
      StripKeeps(lines[0], '#');
      NonBlankStrippedClean(lines[1..]);
    }
  }

  /** Every keyword loaded from the environment is non-empty, stripped and free of line breaks. */
  lemma LoadKeywordsClean(value: string)
    ensures forall i :: 0 <= i < |LoadKeywords(value)| ==> IsKeyword(LoadKeywords(value)[i])
  {
    if value != [] {
      var lines := SplitLines(Strip(value));
      assert forall i :: 0 <= i < |lines| ==> lines[i] in lines;
      NonBlankStrippedClean(lines);
    }
  }

  lemma {:induction false} NonBlankStrippedOfKeywords(keywords: seq<string>)
    requires forall i :: 0 <= i < |keywords| ==> IsKeyword(keywords[i])
    ensures NonBlankStripped(keywords) == keywords
  {
    if keywords != [] {
      StripIdentity(keywords[0]);
      NonBlankStrippedOfKeywords(keywords[1..]);
      assert keywords == [keywords[0]] + keywords[1..];
    }
  }

  /** Writing keywords one per line and loading them back gives the same list. */
  lemma LoadKeywordsRoundTrip(keywords: seq<string>)
    requires forall i :: 0 <= i < |keywords| ==> IsKeyword(keywords[i])
    ensures LoadKeywords(Join(keywords, "\n")) == keywords
  {
    var value := Join(keywords, "\n");
    if keywords != [] {
      JoinEnds(keywords, "\n");
      JoinOfStrippedIsStripped(keywords, "\n");
      StripIdentity(value);
      SplitLinesOfJoin(keywords);
      NonBlankStrippedOfKeywords(keywords);
    }
  }

  // ---------------------------------------------------------------------------
  // parse_multiline_urls

  /** One configured search: its URL and the note written after '#' on its line. */
  datatype UrlEntry = UrlEntry(url: string, note: Option<string>)

  /** What one line of a URL list contributes, if anything. */
  function ParseLine(raw: string): Option<UrlEntry>
  {
    var line := Strip(raw);
    if line == [] || line[0] == '#' then None
    else
      var parts := SplitOnce(line, '#');
      var url := Strip(parts.0);
      var note := if parts.1.Some? then Some(Strip(parts.1.value)) else None;
      if url != [] then Some(UrlEntry(url, note)) else None
  }

  /** The entries of a sequence of lines, line by line. */
  function EntriesOf(lines: seq<string>): seq<UrlEntry>
  {
    Collect(lines, ParseLine)
  }

  /** The entries `parse_multiline_urls` returns for `value`. */
  function ParsedUrls(value: string): seq<UrlEntry>
  {
    if value == [] || Strip(value) == [] then [] else EntriesOf(SplitLines(Strip(value)))
  }

  /** A well-formed entry: a non-empty stripped URL without '#', and a stripped note, all on one line. */
  predicate WellFormed(e: UrlEntry) {
    && e.url != [] && IsStripped(e.url) && '#' !in e.url && NoLineBreak(e.url)
    && (e.note.Some? ==> IsStripped(e.note.value) && NoLineBreak(e.note.value))
  }

  /**
   * A line is skipped exactly when it is blank or a comment; otherwise its URL is the
   * stripped text before the first '#', and it has a note exactly when it has a '#': the
   * stripped text after the first '#', further '#'s included.
   */
  lemma ParseLineShape(raw: string)
    ensures ParseLine(raw).None? <==> (Strip(raw) == [] || Strip(raw)[0] == '#')
    ensures ParseLine(raw).Some? ==>
      && ParseLine(raw).value.url == Strip(SplitOnce(Strip(raw), '#').0)
      && (ParseLine(raw).value.note.None? <==> '#' !in Strip(raw))
    ensures ParseLine(raw).Some? && ParseLine(raw).value.note.Some? ==>
      && SplitOnce(Strip(raw), '#').1.Some?
      && ParseLine(raw).value.note.value == Strip(SplitOnce(Strip(raw), '#').1.value)
  {
    var line := Strip(raw);
    if line != [] && line[0] != '#' {
      var parts := SplitOnce(line, '#');
      var i := IndexOf(line, '#');
      IndexOfFirst(line, '#');
      StripStripped(raw);
      assert 0 < i;
      assert parts.0[0] == line[0];
      assert !IsSpace(parts.0[0]);
      StripEmptyIff(parts.0);
    }
  }

  /** A line without break characters yields a well-formed entry, if any. */
  lemma ParseLineWellFormed(raw: string)
    requires NoLineBreak(raw)
    ensures ParseLine(raw).Some? ==> WellFormed(ParseLine(raw).value)
  {
    var line := Strip(raw);
    if line != [] && line[0] != '#' {
      var parts := SplitOnce(line, '#');
      SplitOnceParts(line, '#');
      StripKeeps(raw, '#');
      if parts.1.Some? {
        NoLineBreakConcat(parts.0 + ['#'], parts.1.value);
        NoLineBreakConcat(parts.0, ['#']);
        StripKeeps(parts.1.value, '#');
      }
      StripKeeps(parts.0, '#');
    }
  }

  /** Lines without break characters yield only well-formed entries. */
  lemma EntriesOfWellFormed(lines: seq<string>)
    requires forall i :: 0 <= i < |lines| ==> NoLineBreak(lines[i])
    ensures forall e :: e in EntriesOf(lines) ==> WellFormed(e)
  {
    forall e | e in EntriesOf(lines)
      ensures WellFormed(e)
    {
      CollectFrom(lines, ParseLine, e);
      var k :| 0 <= k < |lines| && ParseLine(lines[k]) == Some(e);
      ParseLineWellFormed(lines[k]);
    }
  }

  /** `parse_multiline_urls`: a loop over the stripped value's lines that appends each entry. */
  method ParseMultilineUrls(value: string) returns (parsedUrls: seq<UrlEntry>)
    ensures parsedUrls == ParsedUrls(value)
    ensures AllSpace(value) ==> parsedUrls == []
    ensures forall e :: e in parsedUrls ==> WellFormed(e)
  {
    parsedUrls := [];
    StripEmptyIff(value);
    if value == [] || Strip(value) == [] {
      return;
    }
    var lines := SplitLines(Strip(value));
    for i := 0 to |lines|
      invariant parsedUrls == EntriesOf(lines[..i])
    {
      CollectSnoc(lines, i, ParseLine);
      var line := Strip(lines[i]);
      if line == [] || line[0] == '#' {
        continue;
      }
      var parts := SplitOnce(line, '#');
      var url := Strip(parts.0);
      var note := if parts.1.Some? then Some(Strip(parts.1.value)) else None;
      if url != [] {
        parsedUrls := parsedUrls + [UrlEntry(url, note)];
      }
    }
    assert forall i :: 0 <= i < |lines| ==> lines[i] in lines;
    EntriesOfWellFormed(lines);
    assert lines[..|lines|] == lines;
  }

  /** A configuration line that `parse_multiline_urls` reads back as `e`. */
  function FormatEntry(e: UrlEntry): string
  {
    match e.note
    case None => e.url
    case Some(n) => if n == [] then e.url + " #" else e.url + " # " + n
  }

  /** `ParseLine` on a line that is already stripped and not a comment. */
  lemma ParseStrippedLine(line: string, url: string, note: Option<string>)
    requires line != [] && IsStripped(line) && line[0] != '#'
    requires url == Strip(SplitOnce(line, '#').0) && url != []
    requires note == (if SplitOnce(line, '#').1.Some? then Some(Strip(SplitOnce(line, '#').1.value)) else None)
    ensures ParseLine(line) == Some(UrlEntry(url, note))
  {
    StripIdentity(line);
  }

  lemma ParseFormattedNoNote(e: UrlEntry)
    requires WellFormed(e) && e.note.None?
    ensures ParseLine(FormatEntry(e)) == Some(e)
    ensures FormatEntry(e) != [] && IsStripped(FormatEntry(e)) && NoLineBreak(FormatEntry(e))
  {
    assert FormatEntry(e) == e.url;
    assert e.url[0] in e.url;
    StripIdentity(e.url);
    SplitOnceParts(e.url, '#');
    ParseStrippedLine(e.url, e.url, None);
  }

  /** A line `url # tail` parses to `url` with the stripped tail as its note. */
  lemma ParseNoteLine(url: string, tail: string, note: string)
    requires url != [] && IsStripped(url) && '#' !in url
    requires Strip(tail) == note
    requires tail == [] || !IsSpace(tail[|tail| - 1])
    ensures ParseLine(url + " " + ['#'] + tail) == Some(UrlEntry(url, Some(note)))
  {
    var line := url + " " + ['#'] + tail;
    assert line[0] == url[0];
    assert url[0] in url;
    assert IsStripped(line);
    assert '#' !in url + " ";
    SplitOnceAt(url + " ", '#', tail);
    StripFrame([], url, " ");
    assert [] + url + " " == url + " ";
    ParseStrippedLine(line, url, Some(note));
  }

  lemma ParseFormattedWithNote(e: UrlEntry)
    requires WellFormed(e) && e.note.Some?
    ensures ParseLine(FormatEntry(e)) == Some(e)
  {
    var n := e.note.value;
    if n == [] {
      assert FormatEntry(e) == e.url + " " + ['#'] + [];
      StripIdentity([]);
      ParseNoteLine(e.url, [], n);
    } else {
      assert FormatEntry(e) == e.url + " " + ['#'] + (" " + n);
      StripFrame(" ", n, []);
      assert " " + n + [] == " " + n;
      ParseNoteLine(e.url, " " + n, n);
    }
  }

  lemma FormattedWithNoteClean(e: UrlEntry)
    requires WellFormed(e) && e.note.Some?
    ensures FormatEntry(e) != [] && IsStripped(FormatEntry(e)) && NoLineBreak(FormatEntry(e))
  {
    var n := e.note.value;
    var tail := if n == [] then [] else " " + n;
    var line := (e.url + " ") + ['#'] + tail;
    assert FormatEntry(e) == line;
    assert line[0] == e.url[0];
    NoLineBreakConcat(e.url + " " + ['#'], tail);
    NoLineBreakConcat(e.url, " ");
    NoLineBreakConcat(e.url + " ", ['#']);
    NoLineBreakConcat(" ", n);
  }

  /** The line written for a well-formed entry parses back to that entry. */
  lemma ParseFormattedLine(e: UrlEntry)
    requires WellFormed(e)
    ensures ParseLine(FormatEntry(e)) == Some(e)
    ensures FormatEntry(e) != [] && IsStripped(FormatEntry(e)) && NoLineBreak(FormatEntry(e))
  {
    if e.note.None? {
      ParseFormattedNoNote(e);
    } else {
      ParseFormattedWithNote(e);
      FormattedWithNoteClean(e);
    }
  }

  /** The lines of a URL list, one per entry. */
  function FormatEntries(entries: seq<UrlEntry>): (lines: seq<string>)
    ensures |lines| == |entries|
  {
    seq(|entries|, i requires 0 <= i < |entries| => FormatEntry(entries[i]))
  }

  /** Formatted well-formed entries parse back one for one. */
  lemma EntriesOfFormatted(entries: seq<UrlEntry>)
    requires forall i :: 0 <= i < |entries| ==> WellFormed(entries[i])
    ensures EntriesOf(FormatEntries(entries)) == entries
  {
    var lines := FormatEntries(entries);
    forall k | 0 <= k < |lines|
      ensures ParseLine(lines[k]) == Some(entries[k])
    {
      ParseFormattedLine(entries[k]);
    }
    CollectEvery(lines, ParseLine, entries);
  }

  /** Writing well-formed entries one per line and parsing the text gives them back, in order. */
  lemma ParseMultilineUrlsRoundTrip(entries: seq<UrlEntry>)
    requires forall i :: 0 <= i < |entries| ==> WellFormed(entries[i])
    ensures ParsedUrls(Join(FormatEntries(entries), "\n")) == entries
  {
    var lines := FormatEntries(entries);
    var value := Join(lines, "\n");
    forall i | 0 <= i < |lines|
      ensures lines[i] != [] && IsStripped(lines[i]) && NoLineBreak(lines[i])
    {
      ParseFormattedLine(entries[i]);
    }
    if entries != [] {
      JoinEnds(lines, "\n");
      JoinOfStrippedIsStripped(lines, "\n");
      StripIdentity(value);
      SplitLinesOfJoin(lines);
      EntriesOfFormatted(entries);
    }
  }

  // ---------------------------------------------------------------------------
  // check_keywords_in_text

  /** The boolean answer of `check_keywords_in_text` for the given JOB_KEYWORDS and EXCLUDED_KEYWORDS. */
  predicate Passes(text: string, jobKeywords: seq<string>, excludedKeywords: seq<string>) {
    text != [] && Matching(excludedKeywords, text) == [] && Matching(jobKeywords, text) != []
  }

  /**
   * `check_keywords_in_text(text, return_details=True)`; the boolean mode returns `found`.
   * The two lists are the module globals JOB_KEYWORDS and EXCLUDED_KEYWORDS.
   */
  method CheckKeywordsInText(text: string, jobKeywords: seq<string>, excludedKeywords: seq<string>)
    returns (found: bool, keywordsFound: seq<string>, excludedFound: seq<string>)
    ensures found == Passes(text, jobKeywords, excludedKeywords)
    ensures found <==> keywordsFound != []
    ensures text == [] ==> keywordsFound == [] && excludedFound == []
    ensures text != [] ==> excludedFound == Matching(excludedKeywords, text)
    ensures excludedFound != [] ==> keywordsFound == []
    ensures text != [] && excludedFound == [] ==> keywordsFound == Matching(jobKeywords, text)
  {
    if text == [] {
      return false, [], [];
    }
    var textLower := Lower(text);
    excludedFound := [];
    for i := 0 to |excludedKeywords|
      invariant excludedFound == Matching(excludedKeywords[..i], text)
    {
      var keyword := excludedKeywords[i];
      MatchingSnoc(excludedKeywords, i, text);
      if Contains(textLower, Lower(keyword)) {
        excludedFound := excludedFound + [keyword];
      }
    }
    assert excludedKeywords[..|excludedKeywords|] == excludedKeywords;
    if excludedFound != [] {
      return false, [], excludedFound;
    }
    keywordsFound := [];
    for i := 0 to |jobKeywords|
      invariant keywordsFound == Matching(jobKeywords[..i], text)
    {
      var keyword := jobKeywords[i];
      MatchingSnoc(jobKeywords, i, text);
      if Contains(textLower, Lower(keyword)) {
        keywordsFound := keywordsFound + [keyword];
      }
    }
    assert jobKeywords[..|jobKeywords|] == jobKeywords;
    found := |keywordsFound| > 0;
  }

  /**
   * The filter in plain terms: a non-empty text passes exactly when no excluded keyword
   * occurs and some job keyword occurs (ignoring case). So an excluded hit always wins,
   * and an empty JOB_KEYWORDS list rejects every text.
   */
  lemma PassesIff(text: string, jobKeywords: seq<string>, excludedKeywords: seq<string>)
    ensures Passes(text, jobKeywords, excludedKeywords) <==>
      && text != []
      && (forall k :: k in excludedKeywords ==> !ContainsIgnoreCase(text, k))
      && (exists k :: k in jobKeywords && ContainsIgnoreCase(text, k))
    ensures (exists k :: k in excludedKeywords && ContainsIgnoreCase(text, k)) ==> !Passes(text, jobKeywords, excludedKeywords)
    ensures jobKeywords == [] ==> !Passes(text, jobKeywords, excludedKeywords)
  {
    MatchingEmptyIff(excludedKeywords, text);
    MatchingEmptyIff(jobKeywords, text);
  }

  // ---------------------------------------------------------------------------
  // get_config and get_stop_marker

  /** The configuration scraper.py writes when none can be read. */
  function DefaultConfig(): seq<Member> {
    [Member("posted", JObject([])), Member("last_job_per_source", JObject([]))]
  }

  /** `get_config` of scraper.py: an absent or unreadable file gives the default. */
  function GetConfig(file: ConfigFile): (config: seq<Member>)
    ensures HasKey(config, "last_job_per_source") && HasKey(config, "posted")
    ensures !file.Parsed? ==> config == DefaultConfig()
    ensures file.Parsed? ==> forall k :: HasKey(file.doc, k) ==> Get(config, k) == Get(file.doc, k)
    ensures file.Parsed? && !HasKey(file.doc, "last_job_per_source") ==>
      Get(config, "last_job_per_source") == Some(JObject([]))
    ensures file.Parsed? && !HasKey(file.doc, "posted") ==> Get(config, "posted") == Some(JObject([]))
  {
    match file
    case Parsed(doc) =>
      var withMarkers := if HasKey(doc, "last_job_per_source") then doc else Put(doc, "last_job_per_source", JObject([]));
      var config := if HasKey(withMarkers, "posted") then withMarkers else Put(withMarkers, "posted", JObject([]));
      assert forall k :: HasKey(doc, k) ==> Get(config, k) == Get(doc, k) by {
        forall k | HasKey(doc, k) ensures Get(config, k) == Get(doc, k) {
          if !HasKey(doc, "last_job_per_source") { GetPutOther(doc, "last_job_per_source", JObject([]), k); }
          if !HasKey(withMarkers, "posted") { GetPutOther(withMarkers, "posted", JObject([]), k); }
        }
      }
      assert !HasKey(doc, "last_job_per_source") ==> Get(config, "last_job_per_source") == Some(JObject([])) by {
        if !HasKey(doc, "last_job_per_source") && !HasKey(withMarkers, "posted") {
          GetPutOther(withMarkers, "posted", JObject([]), "last_job_per_source");
        }
      }
      config
    case _ => DefaultConfig()
  }

  /** Filling in defaults a second time changes nothing. */
  lemma GetConfigIdempotent(file: ConfigFile)
    ensures GetConfig(Parsed(GetConfig(file))) == GetConfig(file)
  {
  }

  /** `config.get("last_job_per_source", {})`. */
  function MarkerSources(config: seq<Member>): Json {
    match Get(config, "last_job_per_source")
    case Some(v) => v
    case None => JObject([])
  }

  /**
   * When `get_stop_marker` raises: the sources are an object whose entry for `url` is not an
   * object (no `.get`), a list holding `url` or a string containing it (indexed by a string),
   * or a value `in` cannot search.
   */
  predicate StopMarkerRaises(sources: Json, url: string) {
    match sources
    case JObject(entries) => HasKey(entries, url) && !Get(entries, url).value.JObject?
    case JArray(items) => JString(url) in items
    case JString(s) => Contains(s, url)
    case _ => true
  }

  /**
   * `get_stop_marker(url)` on a config as `get_config` returned it: the `job_link` stored for
   * `url` when it is truthy. `Fail` is the TypeError or AttributeError Python raises.
   */
  function GetStopMarker(config: seq<Member>, url: string): (marker: Result<Option<Json>>)
    ensures marker.Fail? <==> StopMarkerRaises(MarkerSources(config), url)
    ensures marker.Ok? && marker.value.Some? ==> Truthy(marker.value.value)
    ensures MarkerSources(config).JObject? && !HasKey(MarkerSources(config).members, url) ==> marker == Ok(None)
  {
    match MarkerSources(config)
    case JObject(sources) =>
      if !HasKey(sources, url) then Ok(None)
      else
        (match Get(sources, url).value
         case JObject(markerData) =>
           var link := Get(markerData, "job_link");
           if link.Some? && Truthy(link.value) then Ok(Some(link.value)) else Ok(None)
         case _ => Fail("marker entry has no attribute 'get'"))
    case JArray(items) => if JString(url) in items then Fail("list indices must be integers") else Ok(None)
    case JString(s) => if Contains(s, url) then Fail("string indices must be integers") else Ok(None)
    case _ => Fail("argument of type is not iterable")
  }

  /**
   * A stored marker is found again: whatever truthy value is recorded as `job_link` comes
   * back unchanged, and a falsy or missing one gives no marker.
   */
  lemma StopMarkerOfRecordedLink(config: seq<Member>, url: string, markerData: seq<Member>)
    requires MarkerSources(config).JObject?
    requires Get(MarkerSources(config).members, url) == Some(JObject(markerData))
    ensures !HasKey(markerData, "job_link") ==> GetStopMarker(config, url) == Ok(None)
    ensures forall v :: Get(markerData, "job_link") == Some(v) && Truthy(v) ==> GetStopMarker(config, url) == Ok(Some(v))
    ensures forall v :: Get(markerData, "job_link") == Some(v) && !Truthy(v) ==> GetStopMarker(config, url) == Ok(None)
    ensures forall link :: Get(markerData, "job_link") == Some(JString(link)) ==>
      GetStopMarker(config, url) == (if link != [] then Ok(Some(JString(link))) else Ok(None))
  {
  }

  /** A config without markers, and a URL without an entry, give no marker. */
  lemma NoStopMarkerWithoutEntry(config: seq<Member>, url: string)
    requires MarkerSources(config).JObject?
    requires !HasKey(MarkerSources(config).members, url)
    ensures GetStopMarker(config, url) == Ok(None)
    ensures GetStopMarker(GetConfig(Missing), url) == Ok(None)
  {
  }

  // ---------------------------------------------------------------------------
  // parse_job_listings: the card loop

  /** The text used for a field the card does not show. */
  function NotAvailable(): string { "N/A" }

  /** The picture used when the card has no image. */
  function PlaceholderPicture(): string { "https://via.placeholder.com/100" }

  /**
   * What one `li.occludable-update` card offers: the text of each company selector that
   * matched, the `href` of its job link, the title text, the `datetime` of its time element,
   * the insight text and the image `src`. `None` is an element that is not there; for the
   * time element and the image, `Some(None)` is an element without that attribute, for which
   * `get_attribute` gives `None`.
   */
  datatype Card = Card(
    subtitle: Option<string>,
    primaryDescription: Option<string>,
    href: Option<string>,
    title: Option<string>,
    postedTime: Option<Option<string>>,
    insight: Option<string>,
    picture: Option<Option<string>>)

  /** A scraped job: (company, title, link, picture, posted_time); `None` is Python's `None`. */
  datatype Role = Role(company: string, title: string, link: string, picture: Option<string>, postedTime: Option<string>)

  /** The job link with its query string cut off, when the card has one. */
  function CardLink(card: Card): (link: Option<string>)
    ensures link.Some? <==> card.href.Some?
  {
    if card.href.Some? then Some(SplitOnce(card.href.value, '?').0) else None
  }

  /** A job link has no query string, and a link without one is kept whole. */
  lemma CardLinkNoQuery(card: Card)
    requires card.href.Some?
    ensures '?' !in CardLink(card).value
    ensures '?' !in card.href.value ==> CardLink(card).value == card.href.value
  {
    SplitOnceParts(card.href.value, '?');
  }

  function CardCompany(card: Card): string {
    if card.subtitle.Some? then Strip(card.subtitle.value)
    else if card.primaryDescription.Some? then Strip(card.primaryDescription.value)
    else NotAvailable()
  }

  function CardTitle(card: Card): string {
    if card.title.Some? then Strip(card.title.value) else NotAvailable()
  }

  /** The text the keyword filter reads: "title company", plus " insight" when there is one. */
  function KeywordText(card: Card): string {
    CardTitle(card) + " " + CardCompany(card) + (if card.insight.Some? then " " + card.insight.value else "")
  }

  /** The image `src`, the placeholder without an image, `None` for an image without `src`. */
  function CardPicture(card: Card): Option<string> {
    if card.picture.Some? then card.picture.value else Some(PlaceholderPicture())
  }

  /** The `datetime` of the time element, "N/A" without one, `None` for one without the attribute. */
  function CardPostedTime(card: Card): Option<string> {
    if card.postedTime.Some? then card.postedTime.value else Some(NotAvailable())
  }

  function CardRole(card: Card): Role
    requires card.href.Some?
  {
    Role(CardCompany(card), CardTitle(card), CardLink(card).value, CardPicture(card), CardPostedTime(card))
  }

  /**
   * The picture and posted time of a role: `None` exactly when the element is there without
   * the attribute, the default exactly when the element is missing, the attribute otherwise.
   */
  lemma CardRoleAttributes(card: Card)
    requires card.href.Some?
    ensures CardRole(card).picture.None? <==> card.picture == Some(None)
    ensures CardRole(card).postedTime.None? <==> card.postedTime == Some(None)
    ensures card.picture.None? ==> CardRole(card).picture == Some(PlaceholderPicture())
    ensures card.postedTime.None? ==> CardRole(card).postedTime == Some(NotAvailable())
    ensures forall src :: card.picture == Some(Some(src)) ==> CardRole(card).picture == Some(src)
    ensures forall time :: card.postedTime == Some(Some(time)) ==> CardRole(card).postedTime == Some(time)
  {
  }

  /** `stop_marker and link == stop_marker`. */
  predicate IsStopMarker(stopMarker: Option<Json>, link: string) {
    stopMarker.Some? && Truthy(stopMarker.value) && stopMarker.value == JString(link)
  }

  predicate HitsStop(card: Card, stopMarker: Option<Json>) {
    CardLink(card).Some? && IsStopMarker(stopMarker, CardLink(card).value)
  }

  /** The index of the first card whose link is the stop marker, or the number of cards. */
  function StopIndex(cards: seq<Card>, stopMarker: Option<Json>): (i: nat)
    ensures i <= |cards|
  {
    if cards == [] then 0
    else if HitsStop(cards[0], stopMarker) then 0
    else 1 + StopIndex(cards[1..], stopMarker)
  }

  /** `StopIndex` is the position of the first card that hits the stop marker. */
  lemma {:induction false} StopIndexFirst(cards: seq<Card>, stopMarker: Option<Json>)
    ensures forall k :: 0 <= k < StopIndex(cards, stopMarker) ==> !HitsStop(cards[k], stopMarker)
    ensures StopIndex(cards, stopMarker) < |cards| ==> HitsStop(cards[StopIndex(cards, stopMarker)], stopMarker)
  {
    if cards != [] && !HitsStop(cards[0], stopMarker) {
      StopIndexFirst(cards[1..], stopMarker);
      assert forall k :: 1 <= k < |cards| ==> cards[k] == cards[1..][k - 1];
    }
  }

  /** A card becomes a role: it has a link and, when checking is on, passes the filter. */
  predicate Kept(card: Card, checkKeywords: bool, jobKeywords: seq<string>, excludedKeywords: seq<string>) {
    card.href.Some? && (checkKeywords ==> Passes(KeywordText(card), jobKeywords, excludedKeywords))
  }

  /** What one card contributes: its role when it is kept, nothing otherwise. */
  function CardToRole(card: Card, checkKeywords: bool, jobKeywords: seq<string>, excludedKeywords: seq<string>): Option<Role>
  {
    if Kept(card, checkKeywords, jobKeywords, excludedKeywords) then Some(CardRole(card)) else None
  }

  /** `CardToRole` for one filtering mode, as a function of the card. */
  function Keeper(checkKeywords: bool, jobKeywords: seq<string>, excludedKeywords: seq<string>): Card -> Option<Role>
  {
    card => CardToRole(card, checkKeywords, jobKeywords, excludedKeywords)
  }

  /** The roles of a run of cards none of which is the stop marker, card by card. */
  function RolesOf(cards: seq<Card>, checkKeywords: bool, jobKeywords: seq<string>, excludedKeywords: seq<string>): seq<Role>
  {
    Collect(cards, Keeper(checkKeywords, jobKeywords, excludedKeywords))
  }

  /** Every role comes from a kept card, and every kept card gives its role. */
  lemma RolesOfMember(cards: seq<Card>, checkKeywords: bool, jobKeywords: seq<string>, excludedKeywords: seq<string>, role: Role)
    ensures role in RolesOf(cards, checkKeywords, jobKeywords, excludedKeywords) <==>
      exists k :: 0 <= k < |cards| && Kept(cards[k], checkKeywords, jobKeywords, excludedKeywords) && role == CardRole(cards[k])
  {
    var keep := Keeper(checkKeywords, jobKeywords, excludedKeywords);
    CollectMember(cards, keep, role);
    assert forall k :: 0 <= k < |cards| ==> (keep(cards[k]) == Some(role) <==>
      Kept(cards[k], checkKeywords, jobKeywords, excludedKeywords) && role == CardRole(cards[k]));
  }

  /**
   * What a returned role guarantees: its link has no query string, and with checking on
   * the card it came from passes `check_keywords_in_text`.
   */
  lemma RolesOfSound(cards: seq<Card>, checkKeywords: bool, jobKeywords: seq<string>, excludedKeywords: seq<string>, role: Role)
    requires role in RolesOf(cards, checkKeywords, jobKeywords, excludedKeywords)
    ensures '?' !in role.link
    ensures exists k :: (0 <= k < |cards| && cards[k].href.Some? && CardRole(cards[k]) == role
                         && (checkKeywords ==> Passes(KeywordText(cards[k]), jobKeywords, excludedKeywords)))
  {
    RolesOfMember(cards, checkKeywords, jobKeywords, excludedKeywords, role);
    var k :| 0 <= k < |cards| && Kept(cards[k], checkKeywords, jobKeywords, excludedKeywords) && role == CardRole(cards[k]);
    CardLinkNoQuery(cards[k]);
  }

  /** The link of the first card that has one. */
  function FirstLink(cards: seq<Card>): Option<string>
  {
    if cards == [] then None
    else if cards[0].href.Some? then CardLink(cards[0])
    else FirstLink(cards[1..])
  }

  /** There is no first link exactly when no card has a link. */
  lemma {:induction false} FirstLinkNone(cards: seq<Card>)
    ensures FirstLink(cards).None? <==> forall k :: 0 <= k < |cards| ==> cards[k].href.None?
  {
    if cards != [] && cards[0].href.None? {
      FirstLinkNone(cards[1..]);
      assert forall k :: 1 <= k < |cards| ==> cards[k] == cards[1..][k - 1];
    }
  }

  /** The first link is the link of the first card that has one, however late it comes. */
  lemma {:induction false} FirstLinkIsFirst(cards: seq<Card>, k: nat)
    requires k < |cards| && cards[k].href.Some?
    requires forall j :: 0 <= j < k ==> cards[j].href.None?
    ensures FirstLink(cards) == CardLink(cards[k])
  {
    if k > 0 {
      assert cards[1..][k - 1] == cards[k];
      assert forall j :: 0 <= j < k - 1 ==> cards[1..][j] == cards[j + 1];
      FirstLinkIsFirst(cards[1..], k - 1);
    }
  }

  lemma {:induction false} FirstLinkSnoc(cards: seq<Card>, i: nat)
    requires i < |cards|
    ensures FirstLink(cards[..i + 1]) == if FirstLink(cards[..i]).Some? then FirstLink(cards[..i]) else CardLink(cards[i])
  {
    if i > 0 {
      assert cards[..i + 1][0] == cards[0];
      assert cards[..i + 1][1..] == cards[1..][..i];
      assert cards[..i][1..] == cards[1..][..i - 1];
      FirstLinkSnoc(cards[1..], i - 1);
    }
  }

  lemma {:induction false} FirstLinkSettled(cards: seq<Card>, i: nat)
    requires i <= |cards| && FirstLink(cards[..i]).Some?
    ensures FirstLink(cards) == FirstLink(cards[..i])
  {
    assert i > 0;
    assert cards[..i][0] == cards[0];
    if cards[0].href.None? {
      assert cards[..i][1..] == cards[1..][..i - 1];
      FirstLinkSettled(cards[1..], i - 1);
    }
  }

  /**
   * The rest of one iteration of the card loop, once the link is read and is not the stop
   * marker: read the title, posted time and picture, and apply the keyword filter.
   */
  method BuildRole(card: Card, link: string, checkKeywords: bool, jobKeywords: seq<string>, excludedKeywords: seq<string>)
    returns (role: Option<Role>)
    requires CardLink(card) == Some(link)
    ensures role == CardToRole(card, checkKeywords, jobKeywords, excludedKeywords)
  {
    var title := if card.title.Some? then Strip(card.title.value) else NotAvailable();
    var postedTime := if card.postedTime.Some? then card.postedTime.value else Some(NotAvailable());
    var company := CardCompany(card);
    if checkKeywords {
      var fullText := title + " " + company;
      if card.insight.Some? {
        fullText := fullText + " " + card.insight.value;
      }
      assert fullText == KeywordText(card);
      var found, keywordsFound, excludedFound := CheckKeywordsInText(fullText, jobKeywords, excludedKeywords);
      if !found {
        return None;
      }
    }
    var picture := if card.picture.Some? then card.picture.value else Some(PlaceholderPicture());
    assert Role(company, title, link, picture, postedTime) == CardRole(card);
    return Some(Role(company, title, link, picture, postedTime));
  }

  /**
   * The card loop of `parse_job_listings` over the cards already read from the page.
   * `roles` are the kept cards before the first stop-marker card, `hitStopMarker` says
   * whether there is such a card, and `firstJobLinkOnPage` is the first link on the page,
   * taken before the stop and keyword checks.
   */
  method ParseJobListings(cards: seq<Card>, checkKeywords: bool, jobKeywords: seq<string>, excludedKeywords: seq<string>, stopMarker: Option<Json>)
    returns (roles: seq<Role>, hitStopMarker: bool, firstJobLinkOnPage: Option<string>)
    ensures roles == RolesOf(cards[..StopIndex(cards, stopMarker)], checkKeywords, jobKeywords, excludedKeywords)
    ensures hitStopMarker <==> StopIndex(cards, stopMarker) < |cards|
    ensures firstJobLinkOnPage == FirstLink(cards)
  {
    roles := [];
    hitStopMarker := false;
    firstJobLinkOnPage := None;
    StopIndexFirst(cards, stopMarker);
    var i := 0;
    while i < |cards|
      invariant i <= StopIndex(cards, stopMarker)
      invariant roles == RolesOf(cards[..i], checkKeywords, jobKeywords, excludedKeywords)
      invariant firstJobLinkOnPage == FirstLink(cards[..i])
    {
      var card := cards[i];
      FirstLinkSnoc(cards, i);
      CollectSnoc(cards, i, Keeper(checkKeywords, jobKeywords, excludedKeywords));
      if card.href.None? {
        i := i + 1;
        continue;
      }
      var link := SplitOnce(card.href.value, '?').0;
      assert CardLink(card) == Some(link);
      if firstJobLinkOnPage.None? {
        firstJobLinkOnPage := Some(link);
      }
      if stopMarker.Some? && Truthy(stopMarker.value) && stopMarker.value == JString(link) {
        hitStopMarker := true;
        assert HitsStop(card, stopMarker);
        FirstLinkSettled(cards, i + 1);
        return;
      }
      assert !HitsStop(card, stopMarker);
      var role := BuildRole(card, link, checkKeywords, jobKeywords, excludedKeywords);
      if role.Some? {
        roles := roles + [role.value];
      }
      i := i + 1;
    }
    assert cards[..i] == cards;
  }

  // ---------------------------------------------------------------------------
  // scrape_url: the page loop

  const JobsPerPage: nat := 25
  const MaxPages: nat := 10

  /** The state of the "next page" button: usable, disabled, or not found. */
  datatype NextButton = NextEnabled | NextDisabled | NextMissing

  datatype Page = Page(cards: seq<Card>, next: NextButton)

  /**
   * A search as the browser would show it: the URL it lands on after loading the search
   * URL, and the page served for each value of the `start` query parameter.
   */
  datatype Site = Site(landingUrl: string, pageAt: nat -> Page)

  /** The `start` offset of page `n` (counted from 1). */
  function PageStart(n: nat): nat
    requires n >= 1
  {
    (n - 1) * JobsPerPage
  }

  /** The redirect that means the browser profile is not logged in. */
  predicate IsAuthWall(landingUrl: string) {
    Contains(Lower(landingUrl), "login") || Contains(Lower(landingUrl), "authwall")
  }

  /** After parsing this page the loop goes on: no stop marker, a full page, and a next button. */
  predicate ContinuesAfter(page: Page, stopMarker: Option<Json>) {
    StopIndex(page.cards, stopMarker) == |page.cards| && |page.cards| >= JobsPerPage && page.next != NextDisabled
  }

  /** The number of the last page the loop parses, starting from page `n`. */
  function LastPageFrom(site: Site, stopMarker: Option<Json>, n: nat): (last: nat)
    requires 1 <= n <= MaxPages
    ensures n <= last <= MaxPages
    decreases MaxPages - n
  {
    if n == MaxPages || !ContinuesAfter(site.pageAt(PageStart(n)), stopMarker) then n
    else LastPageFrom(site, stopMarker, n + 1)
  }

  /** The loop goes on after every page before the last one, and stops after the last unless it is page 10. */
  lemma {:induction false} LastPageFromStops(site: Site, stopMarker: Option<Json>, n: nat)
    requires 1 <= n <= MaxPages
    ensures forall k :: n <= k < LastPageFrom(site, stopMarker, n) ==> ContinuesAfter(site.pageAt(PageStart(k)), stopMarker)
    ensures LastPageFrom(site, stopMarker, n) < MaxPages ==> !ContinuesAfter(site.pageAt(PageStart(LastPageFrom(site, stopMarker, n))), stopMarker)
    decreases MaxPages - n
  {
    if n < MaxPages && ContinuesAfter(site.pageAt(PageStart(n)), stopMarker) {
      LastPageFromStops(site, stopMarker, n + 1);
    }
  }

  /** The roles of one page: its kept cards before the stop marker. */
  function PageRoles(page: Page, checkKeywords: bool, jobKeywords: seq<string>, excludedKeywords: seq<string>, stopMarker: Option<Json>): seq<Role>
  {
    RolesOf(page.cards[..StopIndex(page.cards, stopMarker)], checkKeywords, jobKeywords, excludedKeywords)
  }

  /** The roles of pages 1 to `n`, in page order. */
  function RolesOfPages(site: Site, checkKeywords: bool, jobKeywords: seq<string>, excludedKeywords: seq<string>, stopMarker: Option<Json>, n: nat): seq<Role>
  {
    if n == 0 then []
    else
      RolesOfPages(site, checkKeywords, jobKeywords, excludedKeywords, stopMarker, n - 1)
      + PageRoles(site.pageAt(PageStart(n)), checkKeywords, jobKeywords, excludedKeywords, stopMarker)
  }

  /** A link kept only when Python would find it truthy, i.e. when it is a non-empty string. */
  function TruthyLink(link: Option<string>): Option<string>
  {
    if link.Some? && link.value != [] then link else None
  }

  /** The future stop marker: the first link of page 1, when it is a non-empty string. */
  function FirstJobLink(site: Site): Option<string>
  {
    TruthyLink(FirstLink(site.pageAt(PageStart(1)).cards))
  }

  /**
   * The future stop marker comes from page 1 only: it is the first link there, and there is
   * none when no card of page 1 has a link.
   */
  lemma FirstJobLinkFromPageOne(site: Site)
    ensures FirstJobLink(site).Some? ==> FirstJobLink(site) == FirstLink(site.pageAt(0).cards) && FirstJobLink(site).value != []
    ensures (forall k :: 0 <= k < |site.pageAt(0).cards| ==> site.pageAt(0).cards[k].href.None?) ==> FirstJobLink(site).None?
  {
    FirstLinkNone(site.pageAt(0).cards);
  }

  /** What one scrape yields: the roles and the link to store as the next stop marker. */
  datatype Scrape = Scrape(roles: seq<Role>, firstJobLink: Option<string>)

  /** What `scrape_url` returns for a search, as a function of the site and the config. */
  function ScrapeOf(url: string, config: seq<Member>, site: Site, checkKeywords: bool, jobKeywords: seq<string>, excludedKeywords: seq<string>): Result<Scrape>
  {
    match GetStopMarker(config, url)
    case Fail(e) => Fail(e)
    case Ok(stopMarker) =>
      if IsAuthWall(site.landingUrl) then Ok(Scrape([], None))
      else Ok(Scrape(RolesOfPages(site, checkKeywords, jobKeywords, excludedKeywords, stopMarker, LastPageFrom(site, stopMarker, 1)),
                     FirstJobLink(site)))
  }

  /**
   * The body of one iteration of the page loop: parse the page's cards, remember the first
   * link of page 1 when it is truthy and none is remembered yet, and decide whether the loop
   * stops after this page (stop marker hit, fewer than 25 cards, next button disabled).
   */
  method ScrapePage(page: Page, pageNumber: nat, firstJobLink: Option<string>, checkKeywords: bool, jobKeywords: seq<string>, excludedKeywords: seq<string>, stopMarker: Option<Json>)
    returns (rolesOnPage: seq<Role>, stop: bool, newFirstJobLink: Option<string>)
    ensures rolesOnPage == PageRoles(page, checkKeywords, jobKeywords, excludedKeywords, stopMarker)
    ensures stop <==> !ContinuesAfter(page, stopMarker)
    ensures newFirstJobLink == if pageNumber == 1 && firstJobLink.None? then TruthyLink(FirstLink(page.cards)) else firstJobLink
  {
    var actualJobsOnPage := |page.cards|;
    var hitStopMarker, firstLinkOnPage;
    rolesOnPage, hitStopMarker, firstLinkOnPage := ParseJobListings(page.cards, checkKeywords, jobKeywords, excludedKeywords, stopMarker);
    newFirstJobLink := firstJobLink;
    if pageNumber == 1 && firstLinkOnPage.Some? && firstLinkOnPage.value != [] && firstJobLink.None? {
      newFirstJobLink := firstLinkOnPage;
    }
    stop := hitStopMarker || actualJobsOnPage < JobsPerPage || page.next == NextDisabled;
  }

  /**
   * The page loop of `scrape_url`: page `n` is the one served at `start=(n-1)*25`; the loop
   * ends after page 10, on a stop-marker hit, on a page of fewer than 25 cards, or when the
   * next button is disabled. The first link of page 1, when non-empty, is kept as the future
   * stop marker.
   */
  method ScrapePages(site: Site, checkKeywords: bool, jobKeywords: seq<string>, excludedKeywords: seq<string>, stopMarker: Option<Json>)
    returns (allRoles: seq<Role>, firstJobLink: Option<string>)
    ensures allRoles == RolesOfPages(site, checkKeywords, jobKeywords, excludedKeywords, stopMarker, LastPageFrom(site, stopMarker, 1))
    ensures firstJobLink == FirstJobLink(site)
  {
    allRoles := [];
    firstJobLink := None;
    var pageNumber := 1;
    ghost var last := LastPageFrom(site, stopMarker, 1);
    while pageNumber <= MaxPages
      invariant 1 <= pageNumber <= MaxPages + 1
      invariant last == if pageNumber <= MaxPages then LastPageFrom(site, stopMarker, pageNumber) else MaxPages
      invariant allRoles == RolesOfPages(site, checkKeywords, jobKeywords, excludedKeywords, stopMarker, pageNumber - 1)
      invariant firstJobLink == if pageNumber == 1 then None else FirstJobLink(site)
      decreases MaxPages - pageNumber
    {
      var stop;
      allRoles, stop, firstJobLink := NextPage(site, pageNumber, allRoles, firstJobLink, checkKeywords, jobKeywords, excludedKeywords, stopMarker);
      if stop {
        return;
      }
      pageNumber := pageNumber + 1;
    }
  }

  /**
   * One iteration of the page loop: parse page `pageNumber`, extend the roles of the pages
   * before it, and say whether the loop stops here.
   */
  method NextPage(site: Site, pageNumber: nat, allRoles: seq<Role>, firstJobLink: Option<string>,
                  checkKeywords: bool, jobKeywords: seq<string>, excludedKeywords: seq<string>, stopMarker: Option<Json>)
    returns (newRoles: seq<Role>, stop: bool, newFirstJobLink: Option<string>)
    requires 1 <= pageNumber <= MaxPages
    requires allRoles == RolesOfPages(site, checkKeywords, jobKeywords, excludedKeywords, stopMarker, pageNumber - 1)
    requires firstJobLink == if pageNumber == 1 then None else FirstJobLink(site)
    ensures newRoles == RolesOfPages(site, checkKeywords, jobKeywords, excludedKeywords, stopMarker, pageNumber)
    ensures newFirstJobLink == FirstJobLink(site)
    ensures stop ==> LastPageFrom(site, stopMarker, pageNumber) == pageNumber
    ensures !stop ==> (LastPageFrom(site, stopMarker, pageNumber) ==
      if pageNumber + 1 <= MaxPages then LastPageFrom(site, stopMarker, pageNumber + 1) else MaxPages)
  {
    var page := site.pageAt(PageStart(pageNumber));
    var rolesOnPage;
    rolesOnPage, stop, newFirstJobLink := ScrapePage(page, pageNumber, firstJobLink, checkKeywords, jobKeywords, excludedKeywords, stopMarker);
    PageLoopStep(site, checkKeywords, jobKeywords, excludedKeywords, stopMarker, pageNumber, allRoles, rolesOnPage);
    newRoles := allRoles + rolesOnPage;
  }

  /** What one parsed page adds to the page loop's roles, and how it moves the last page. */
  lemma PageLoopStep(site: Site, checkKeywords: bool, jobKeywords: seq<string>, excludedKeywords: seq<string>, stopMarker: Option<Json>,
                     n: nat, allRoles: seq<Role>, rolesOnPage: seq<Role>)
    requires 1 <= n <= MaxPages
    requires allRoles == RolesOfPages(site, checkKeywords, jobKeywords, excludedKeywords, stopMarker, n - 1)
    requires rolesOnPage == PageRoles(site.pageAt(PageStart(n)), checkKeywords, jobKeywords, excludedKeywords, stopMarker)
    ensures allRoles + rolesOnPage == RolesOfPages(site, checkKeywords, jobKeywords, excludedKeywords, stopMarker, n)
    ensures !ContinuesAfter(site.pageAt(PageStart(n)), stopMarker) ==> LastPageFrom(site, stopMarker, n) == n
    ensures ContinuesAfter(site.pageAt(PageStart(n)), stopMarker) ==>
      LastPageFrom(site, stopMarker, n) == if n + 1 <= MaxPages then LastPageFrom(site, stopMarker, n + 1) else MaxPages
  {
  }

  /**
   * `scrape_url`: `Fail` is the error `get_stop_marker` raises before scraping; an auth-wall
   * redirect yields nothing; otherwise the page loop runs.
   */
  method ScrapeUrl(url: string, config: seq<Member>, site: Site, checkKeywords: bool, jobKeywords: seq<string>, excludedKeywords: seq<string>)
    returns (outcome: Result<Scrape>)
    ensures outcome == ScrapeOf(url, config, site, checkKeywords, jobKeywords, excludedKeywords)
    ensures outcome.Fail? <==> GetStopMarker(config, url).Fail?
  {
    var marker := GetStopMarker(config, url);
    if marker.Fail? {
      return Fail(marker.reason);
    }
    var stopMarker := marker.value;
    if IsAuthWall(site.landingUrl) {
      return Ok(Scrape([], None));
    }
    var allRoles, firstJobLink := ScrapePages(site, checkKeywords, jobKeywords, excludedKeywords, stopMarker);
    return Ok(Scrape(allRoles, firstJobLink));
  }

  /** The loop visits at most 10 pages, and every page before the last one it visits was full and unstopped. */
  lemma PageLoopBounds(site: Site, stopMarker: Option<Json>)
    ensures 1 <= LastPageFrom(site, stopMarker, 1) <= MaxPages
    ensures forall k :: 1 <= k < LastPageFrom(site, stopMarker, 1) ==>
      |site.pageAt(PageStart(k)).cards| >= JobsPerPage && StopIndex(site.pageAt(PageStart(k)).cards, stopMarker) == |site.pageAt(PageStart(k)).cards|
    ensures StopIndex(site.pageAt(0).cards, stopMarker) < |site.pageAt(0).cards| ==> LastPageFrom(site, stopMarker, 1) == 1
  {
    LastPageFromStops(site, stopMarker, 1);
  }

  /** An auth-wall redirect yields no roles and no marker. */
  lemma AuthWallYieldsNothing(url: string, config: seq<Member>, site: Site, checkKeywords: bool, jobKeywords: seq<string>, excludedKeywords: seq<string>)
    requires GetStopMarker(config, url).Ok? && IsAuthWall(site.landingUrl)
    ensures ScrapeOf(url, config, site, checkKeywords, jobKeywords, excludedKeywords) == Ok(Scrape([], None))
  {
  }

  // ---------------------------------------------------------------------------
  // get_recent_roles

  /** The roles gathered so far and the URL -> first job link map. */
  datatype Harvest = Harvest(roles: seq<Role>, stopMarkers: map<string, string>)

  /** Adding one search's scrape to the harvest. */
  function AddScrape(h: Harvest, url: string, s: Scrape): Harvest {
    Harvest(h.roles + s.roles, if s.firstJobLink.Some? then h.stopMarkers[url := s.firstJobLink.value] else h.stopMarkers)
  }

  /** `scrape_url` as a function of the search URL, for one config, browser and filtering mode. */
  function Searcher(config: seq<Member>, browse: string -> Site, checkKeywords: bool, jobKeywords: seq<string>, excludedKeywords: seq<string>): string -> Result<Scrape>
  {
    url => ScrapeOf(url, config, browse(url), checkKeywords, jobKeywords, excludedKeywords)
  }

  /** Scraping each entry in order with `scrape`, starting from `start`; the first failure ends it. */
  function HarvestOf(entries: seq<UrlEntry>, scrape: string -> Result<Scrape>, start: Harvest): Result<Harvest>
  {
    if entries == [] then Ok(start)
    else
      var url := entries[|entries| - 1].url;
      match HarvestOf(entries[..|entries| - 1], scrape, start)
      case Fail(e) => Fail(e)
      case Ok(h) =>
        match scrape(url)
        case Fail(e) => Fail(e)
        case Ok(s) => Ok(AddScrape(h, url, s))
  }

  /** `scrape_url` on every entry of one URL list, extending the harvest. */
  method ScrapeAll(entries: seq<UrlEntry>, checkKeywords: bool, jobKeywords: seq<string>, excludedKeywords: seq<string>,
                   config: seq<Member>, browse: string -> Site, start: Harvest)
    returns (outcome: Result<Harvest>)
    ensures outcome == HarvestOf(entries, Searcher(config, browse, checkKeywords, jobKeywords, excludedKeywords), start)
  {
    ghost var scrape := Searcher(config, browse, checkKeywords, jobKeywords, excludedKeywords);
    var allRoles := start.roles;
    var stopMarkers := start.stopMarkers;
    for i := 0 to |entries|
      invariant HarvestOf(entries[..i], scrape, start) == Ok(Harvest(allRoles, stopMarkers))
    {
      assert entries[..i + 1][..i] == entries[..i];
      var url := entries[i].url;
      var scraped := ScrapeUrl(url, config, browse(url), checkKeywords, jobKeywords, excludedKeywords);
      assert scraped == scrape(url);
      if scraped.Fail? {
        HarvestFailSticks(entries, i + 1, scrape, start, scraped.reason);
        return Fail(scraped.reason);
      }
      allRoles := allRoles + scraped.value.roles;
      if scraped.value.firstJobLink.Some? {
        stopMarkers := stopMarkers[url := scraped.value.firstJobLink.value];
      }
    }
    assert entries[..|entries|] == entries;
    return Ok(Harvest(allRoles, stopMarkers));
  }

  /** Once a prefix of the entries has failed, the whole run fails with the same reason. */
  lemma {:induction false} HarvestFailSticks(entries: seq<UrlEntry>, i: nat, scrape: string -> Result<Scrape>, start: Harvest, reason: string)
    requires i <= |entries|
    requires HarvestOf(entries[..i], scrape, start) == Fail(reason)
    ensures HarvestOf(entries, scrape, start) == Fail(reason)
    decreases |entries| - i
  {
    if i < |entries| {
      assert entries[..i + 1][..i] == entries[..i];
      HarvestFailSticks(entries, i + 1, scrape, start, reason);
    } else {
      assert entries[..i] == entries;
    }
  }

  /**
   * `get_recent_roles`: the unfiltered searches without keyword checks, then the filtered
   * searches with them, their roles concatenated in that order and their first links
   * collected per URL.
   */
  method GetRecentRoles(unfilteredUrls: string, filteredUrls: string, jobKeywords: seq<string>, excludedKeywords: seq<string>,
                        config: seq<Member>, browse: string -> Site)
    returns (outcome: Result<Harvest>)
    ensures outcome == match HarvestOf(ParsedUrls(unfilteredUrls), Searcher(config, browse, false, jobKeywords, excludedKeywords), Harvest([], map[]))
      case Fail(e) => Fail(e)
      case Ok(h) => HarvestOf(ParsedUrls(filteredUrls), Searcher(config, browse, true, jobKeywords, excludedKeywords), h)
  {
    var unfiltered := ParseMultilineUrls(unfilteredUrls);
    var first := ScrapeAll(unfiltered, false, jobKeywords, excludedKeywords, config, browse, Harvest([], map[]));
    if first.Fail? {
      return first;
    }
    var filtered := ParseMultilineUrls(filteredUrls);
    outcome := ScrapeAll(filtered, true, jobKeywords, excludedKeywords, config, browse, first.value);
  }

  /** The roles each entry's scrape gives, concatenated in entry order (nothing for a failed scrape). */
  function ScrapedRoles(entries: seq<UrlEntry>, scrape: string -> Result<Scrape>): seq<Role> {
    if entries == [] then []
    else (match scrape(entries[0].url) case Ok(s) => s.roles case Fail(_) => []) + ScrapedRoles(entries[1..], scrape)
  }

  lemma {:induction false} ScrapedRolesSnoc(entries: seq<UrlEntry>, e: UrlEntry, scrape: string -> Result<Scrape>)
    ensures ScrapedRoles(entries + [e], scrape) ==
      ScrapedRoles(entries, scrape) + (match scrape(e.url) case Ok(s) => s.roles case Fail(_) => [])
  {
    if entries != [] {
      assert (entries + [e])[1..] == entries[1..] + [e];
      ScrapedRolesSnoc(entries[1..], e, scrape);
    }
  }

  /** The roles of a harvest are the starting roles followed by each scrape's roles, in entry order. */
  lemma {:induction false} HarvestRoles(entries: seq<UrlEntry>, scrape: string -> Result<Scrape>, start: Harvest, role: Role)
    requires HarvestOf(entries, scrape, start).Ok?
    ensures forall k :: 0 <= k < |entries| ==> scrape(entries[k].url).Ok?
    ensures HarvestOf(entries, scrape, start).value.roles == start.roles + ScrapedRoles(entries, scrape)
    ensures role in HarvestOf(entries, scrape, start).value.roles <==>
      (role in start.roles || exists k :: 0 <= k < |entries| && role in scrape(entries[k].url).value.roles)
  {
    if entries != [] {
      var n := |entries|;
      var init := entries[..n - 1];
      assert forall k :: 0 <= k < n - 1 ==> init[k] == entries[k];
      HarvestRoles(init, scrape, start, role);
      assert init + [entries[n - 1]] == entries;
      ScrapedRolesSnoc(init, entries[n - 1], scrape);
    }
  }

  /** Harvesting two runs of entries is harvesting the second from where the first ended. */
  lemma {:induction false} HarvestAppend(a: seq<UrlEntry>, b: seq<UrlEntry>, scrape: string -> Result<Scrape>, start: Harvest)
    ensures HarvestOf(a + b, scrape, start) ==
      match HarvestOf(a, scrape, start)
      case Fail(e) => Fail(e)
      case Ok(h) => HarvestOf(b, scrape, h)
  {
    if b == [] {
      assert a + b == a;
    } else {
      var n := |b|;
      assert (a + b)[..|a + b| - 1] == a + b[..n - 1];
      assert (a + b)[|a + b| - 1] == b[n - 1];
      HarvestAppend(a, b[..n - 1], scrape, start);
    }
  }

  /**
   * A URL has a stop marker afterwards exactly when it had one before or one of its scrapes
   * found a first link.
   */
  lemma {:induction false} HarvestMarkers(entries: seq<UrlEntry>, scrape: string -> Result<Scrape>, start: Harvest, url: string)
    requires HarvestOf(entries, scrape, start).Ok?
    ensures url in HarvestOf(entries, scrape, start).value.stopMarkers <==>
      (url in start.stopMarkers || exists k :: 0 <= k < |entries| && entries[k].url == url && scrape(url).Ok? && scrape(url).value.firstJobLink.Some?)
  {
    if entries != [] {
      var n := |entries|;
      var init := entries[..n - 1];
      assert forall k :: 0 <= k < n - 1 ==> init[k] == entries[k];
      HarvestMarkers(init, scrape, start, url);
    }
  }

  /** Some entry for `url` was scraped and found a first link. */
  predicate FoundLinkFor(entries: seq<UrlEntry>, scrape: string -> Result<Scrape>, url: string) {
    exists k :: 0 <= k < |entries| && entries[k].url == url && scrape(url).Ok? && scrape(url).value.firstJobLink.Some?
  }

  /**
   * The value of each marker after a harvest: the first link its scrape found when some
   * entry for the URL found one, and otherwise the marker `start` had.
   */
  lemma {:induction false} HarvestMarkerValues(entries: seq<UrlEntry>, scrape: string -> Result<Scrape>, start: Harvest, url: string)
    requires HarvestOf(entries, scrape, start).Ok?
    ensures FoundLinkFor(entries, scrape, url) ==>
      url in HarvestOf(entries, scrape, start).value.stopMarkers &&
      HarvestOf(entries, scrape, start).value.stopMarkers[url] == scrape(url).value.firstJobLink.value
    ensures !FoundLinkFor(entries, scrape, url) ==>
      (url in HarvestOf(entries, scrape, start).value.stopMarkers <==> url in start.stopMarkers) &&
      (url in start.stopMarkers ==> HarvestOf(entries, scrape, start).value.stopMarkers[url] == start.stopMarkers[url])
  {
    if entries != [] {
      var n := |entries|;
      var init := entries[..n - 1];
      assert forall k :: 0 <= k < n - 1 ==> init[k] == entries[k];
      HarvestMarkerValues(init, scrape, start, url);
      if FoundLinkFor(init, scrape, url) {
        assert FoundLinkFor(entries, scrape, url);
      } else if FoundLinkFor(entries, scrape, url) {
        assert entries[n - 1].url == url;
      }
    }
  }

  /**
   * The last entry for a URL whose scrape found a first link decides that URL's marker.
   * A scrape is a function of the URL, so two entries for one URL scrape alike and "last
   * wins" cannot be told from "first wins" here: the lemma shows that a scraped link
   * overrides the marker `start` had.
   */
  lemma LastEntryWins(entries: seq<UrlEntry>, scrape: string -> Result<Scrape>, start: Harvest, e: UrlEntry, link: string)
    requires HarvestOf(entries + [e], scrape, start).Ok?
    requires scrape(e.url).Ok? && scrape(e.url).value.firstJobLink == Some(link)
    ensures HarvestOf(entries + [e], scrape, start).value.stopMarkers[e.url] == link
  {
    assert (entries + [e])[..|entries|] == entries;
  }
}
