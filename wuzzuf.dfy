/**
 * The Wuzzuf scraper's filtering (wuzzuf_scraper.py): the fixed .NET keyword list and its
 * check with context snippets, the skill links collected from a job's detail page, and
 * the acceptance of job cards by title, then by skills. Cards, skill elements and detail
 * pages are inputs; opening a detail page is a lookup by link.
 */
module Wuzzuf {
  import opened Wrappers
  import opened Seqs
  import opened Text
  import opened Keywords
  import opened Json

  // ---------------------------------------------------------------------------
  // DOTNET_KEYWORDS and check_keywords_in_text

  /** `DOTNET_KEYWORDS`, in list order; "asp.net core" is listed twice. */
  function DotnetKeywords(): seq<string> {
    [ ".net", "dotnet", "dot net", ". net",
      ".net core", "dotnet core", "dot net core",
      ".net framework", "dotnet framework",
      ".net 6", ".net 7", ".net 8", ".net 9",
      "dotnet6", "dotnet7", "dotnet8",
      "asp.net", "asp dotnet", "aspdotnet", "asp net",
      "asp.net core", "asp.net core", "aspnetcore",
      "asp.net mvc", "asp.net web api",
      "c#", "c sharp", "csharp", "c #",
      "entity framework", "ef core",
      "blazor", "razor", "wcf", "wpf", "xamarin", "maui",
      "visual studio", "nuget" ]
  }

  function AspNetCore(): string { "asp.net core" }

  lemma DotnetKeywordsShape()
    ensures |DotnetKeywords()| == 39
    ensures DotnetKeywords()[20] == AspNetCore() && DotnetKeywords()[21] == AspNetCore()
  {
  }

  function Max(a: int, b: int): int { if a < b then b else a }

  function Min(a: int, b: int): int { if a < b then a else b }

  /**
   * The context stored for a keyword found in `text`: up to 40 characters on either side
   * of its first case-insensitive occurrence, cut at the ends of `text`.
   */
  function Snippet(text: string, keyword: string): string
    requires ContainsIgnoreCase(text, keyword)
  {
    var index := Find(Lower(text), Lower(keyword));
    var contextStart := Max(0, index - 40);
    var contextEnd := Min(|text|, index + |keyword| + 40);
    text[contextStart..contextEnd]
  }

  /**
   * A snippet is a piece of the text at most 80 characters longer than its keyword, and it
   * holds the keyword itself, ignoring case.
   */
  lemma SnippetAroundMatch(text: string, keyword: string)
    requires ContainsIgnoreCase(text, keyword)
    ensures |keyword| <= |Snippet(text, keyword)| <= |keyword| + 80
    ensures Contains(text, Snippet(text, keyword))
    ensures ContainsIgnoreCase(Snippet(text, keyword), keyword)
  {
    var lowerText, lowerKeyword := Lower(text), Lower(keyword);
    var index := Find(lowerText, lowerKeyword);
    assert OccursAt(lowerText, lowerKeyword, index);
    var contextStart := Max(0, index - 40);
    var contextEnd := Min(|text|, index + |keyword| + 40);
    var snippet := text[contextStart..contextEnd];
    assert snippet == Snippet(text, keyword);
    assert OccursAt(text, snippet, contextStart);
    LowerSlice(text, contextStart, contextEnd);
    var at := index - contextStart;
    SliceOfSlice(lowerText, contextStart, contextEnd, at, at + |keyword|);
    assert OccursAt(Lower(snippet), lowerKeyword, at);
  }

  lemma SliceOfSlice(s: string, i: nat, j: nat, a: nat, b: nat)
    requires i <= j <= |s| && a <= b <= j - i
    ensures s[i..j][a..b] == s[i + a..i + b]
  {
    forall k | 0 <= k < b - a
      ensures s[i..j][a..b][k] == s[i + a..i + b][k]
    {
    }
  }

  /**
   * `search_locations` after the keyword loop over `keywords`: one entry per keyword found,
   * in the order first found, holding its snippet; a keyword listed twice is stored once.
   */
  function Locations(keywords: seq<string>, text: string): seq<Member>
  {
    if keywords == [] then []
    else
      var locations := Locations(keywords[..|keywords| - 1], text);
      var keyword := keywords[|keywords| - 1];
      if ContainsIgnoreCase(text, keyword) then Put(locations, keyword, JString(Snippet(text, keyword)))
      else locations
  }

  /** Each found keyword has one entry, holding its snippet, and no other keyword has one. */
  lemma {:induction false} LocationsSpec(keywords: seq<string>, text: string, keyword: string)
    ensures Distinct(Keys(Locations(keywords, text)))
    ensures HasKey(Locations(keywords, text), keyword) <==> keyword in keywords && ContainsIgnoreCase(text, keyword)
    ensures HasKey(Locations(keywords, text), keyword) ==>
      ContainsIgnoreCase(text, keyword) && Get(Locations(keywords, text), keyword) == Some(JString(Snippet(text, keyword)))
  {
    if keywords != [] {
      var n := |keywords|;
      var init, last := keywords[..n - 1], keywords[n - 1];
      var before := Locations(init, text);
      LocationsSpec(init, text, keyword);
      assert keywords == init + [last];
      if ContainsIgnoreCase(text, last) {
        if !HasKey(before, last) {
          DistinctSnoc(Keys(before), last);
        }
        if keyword != last {
          GetPutOther(before, last, JString(Snippet(text, last)), keyword);
        }
      }
    }
  }

  /** One keyword of the loop in check_keywords_in_text: record it and its snippet when it occurs. */
  method MatchKeyword(matchedKeywords: seq<string>, searchLocations: seq<Member>, ghost done: seq<string>,
                      keyword: string, text: string, textLower: string)
    returns (matched: seq<string>, locations: seq<Member>)
    requires textLower == Lower(text)
    requires matchedKeywords == Matching(done, text) && searchLocations == Locations(done, text)
    ensures matched == Matching(done + [keyword], text) && locations == Locations(done + [keyword], text)
  {
    MatchingAppend(done, [keyword], text);
    assert (done + [keyword])[..|done|] == done;
    matched, locations := matchedKeywords, searchLocations;
    var keywordLower := Lower(keyword);
    if Contains(textLower, keywordLower) {
      assert ContainsIgnoreCase(text, keyword);
      matched := matchedKeywords + [keyword];
      var index := Find(textLower, keywordLower);
      var contextStart := Max(0, index - 40);
      var contextEnd := Min(|text|, index + |keyword| + 40);
      assert text[contextStart..contextEnd] == Snippet(text, keyword);
      locations := Put(searchLocations, keyword, JString(text[contextStart..contextEnd]));
    } else {
      assert !ContainsIgnoreCase(text, keyword);
    }
  }

  /** The keyword loop of check_keywords_in_text over `keywords`. */
  method MatchKeywords(keywords: seq<string>, text: string)
    returns (matchedKeywords: seq<string>, searchLocations: seq<Member>)
    ensures matchedKeywords == Matching(keywords, text)
    ensures searchLocations == Locations(keywords, text)
  {
    var textLower := Lower(text);
    matchedKeywords, searchLocations := [], [];
    for i := 0 to |keywords|
      invariant matchedKeywords == Matching(keywords[..i], text)
      invariant searchLocations == Locations(keywords[..i], text)
    {
      matchedKeywords, searchLocations := MatchKeyword(matchedKeywords, searchLocations, keywords[..i], keywords[i], text, textLower);
      assert keywords[..i + 1] == keywords[..i] + [keywords[i]];
    }
    assert keywords[..|keywords|] == keywords;
  }

  /** The boolean answer of check_keywords_in_text. */
  predicate HasKeywords(text: string) {
    text != [] && Matching(DotnetKeywords(), text) != []
  }

  /** Some listed keyword occurs in a non-empty text, ignoring case. */
  lemma HasKeywordsIff(text: string)
    ensures HasKeywords(text) <==> text != [] && exists k :: k in DotnetKeywords() && ContainsIgnoreCase(text, k)
  {
    MatchingEmptyIff(DotnetKeywords(), text);
  }

  /**
   * `check_keywords_in_text(text, return_details=True)`; the boolean mode returns the first
   * component. An empty text matches nothing.
   */
  method CheckKeywordsInText(text: string)
    returns (found: bool, matchedKeywords: seq<string>, searchLocations: seq<Member>)
    ensures found == HasKeywords(text)
    ensures text == [] ==> matchedKeywords == [] && searchLocations == []
    ensures text != [] ==> matchedKeywords == Matching(DotnetKeywords(), text)
    ensures text != [] ==> searchLocations == Locations(DotnetKeywords(), text)
  {
    if text == [] {
      return false, [], [];
    }
    matchedKeywords, searchLocations := MatchKeywords(DotnetKeywords(), text);
    found := |matchedKeywords| > 0;
  }

  /** `check_keywords_in_text(text)`: the boolean mode, which drops the details. */
  method CheckKeywords(text: string) returns (found: bool)
    ensures found == HasKeywords(text)
  {
    var matchedKeywords, searchLocations;
    found, matchedKeywords, searchLocations := CheckKeywordsInText(text);
  }

  /**
   * A text mentioning "asp.net core" reports it twice in a row among the matched keywords,
   * yet it has a single entry among the locations.
   */
  lemma AspNetCoreTwice(text: string) returns (i: nat)
    requires ContainsIgnoreCase(text, AspNetCore())
    ensures i + 1 < |Matching(DotnetKeywords(), text)|
    ensures Matching(DotnetKeywords(), text)[i] == AspNetCore() && Matching(DotnetKeywords(), text)[i + 1] == AspNetCore()
    ensures HasKey(Locations(DotnetKeywords(), text), AspNetCore())
    ensures Distinct(Keys(Locations(DotnetKeywords(), text)))
  {
    DotnetKeywordsShape();
    i := MatchingRepeat(DotnetKeywords(), 20, text);
    LocationsSpec(DotnetKeywords(), text, AspNetCore());
  }

  // ---------------------------------------------------------------------------
  // The skill filter of get_job_skills

  /** A link element of a detail page: its text and its `href`, if it has one. */
  datatype SkillLink = SkillLink(text: string, href: Option<string>)

  /**
   * What one selector's lookup gave: an error before any element was visited (`Failed`,
   * the selector is skipped), or the elements visited. A loop that raises partway is
   * `Found` of the elements visited before the error, since the skills already added stay.
   */
  datatype Lookup = Failed | Found(elements: seq<SkillLink>)

  /** The elements the selector loop visits, selector by selector. */
  function Elements(lookups: seq<Lookup>): seq<SkillLink>
  {
    if lookups == [] then []
    else
      var last := lookups[|lookups| - 1];
      Elements(lookups[..|lookups| - 1]) + (if last.Found? then last.elements else [])
  }

  function SkillPath(): string { "/a/" }

  function JobsPath(): string { "-Jobs-in-" }

  /** An element whose link leads to a skill's job listing. */
  predicate IsSkillLink(element: SkillLink) {
    element.href.Some? && element.href.value != []
    && Contains(element.href.value, SkillPath()) && Contains(element.href.value, JobsPath())
  }

  /** The skill an element names: its stripped text, when non-empty and the element is a skill link. */
  function SkillOf(element: SkillLink): Option<string> {
    var skillText := Strip(element.text);
    if skillText != [] && IsSkillLink(element) then Some(skillText) else None
  }

  /** The skills collected from `elements`: the skills they name, first seen first, once each. */
  function Skills(elements: seq<SkillLink>): seq<string>
  {
    if elements == [] then []
    else
      var skills := Skills(elements[..|elements| - 1]);
      var skill := SkillOf(elements[|elements| - 1]);
      if skill.Some? && skill.value !in skills then skills + [skill.value] else skills
  }

  lemma SkillsSnoc(elements: seq<SkillLink>, element: SkillLink)
    ensures var skill := SkillOf(element);
      Skills(elements + [element])
        == if skill.Some? && skill.value !in Skills(elements) then Skills(elements) + [skill.value] else Skills(elements)
  {
    assert (elements + [element])[..|elements|] == elements;
  }

  /** What get_job_skills returns for a detail page: the skills joined by spaces, or "" when the page failed. */
  function SkillsText(page: Option<seq<Lookup>>): string {
    match page
    case None => ""
    case Some(lookups) => Join(Skills(Elements(lookups)), " ")
  }

  /** No skill is collected twice, and each is non-empty and stripped. */
  lemma {:induction false} SkillsDistinct(elements: seq<SkillLink>)
    ensures Distinct(Skills(elements))
    ensures forall s :: s in Skills(elements) ==> s != [] && IsStripped(s)
  {
    if elements != [] {
      var init := elements[..|elements| - 1];
      SkillsDistinct(init);
      var skill := SkillOf(elements[|elements| - 1]);
      StripStripped(elements[|elements| - 1].text);
      if skill.Some? && skill.value !in Skills(init) {
        DistinctSnoc(Skills(init), skill.value);
      }
    }
  }

  /** A text is collected exactly when some skill link carries it, stripped and non-empty. */
  lemma {:induction false} SkillsMember(elements: seq<SkillLink>, skill: string)
    ensures skill in Skills(elements) <==> exists k :: 0 <= k < |elements| && SkillOf(elements[k]) == Some(skill)
  {
    if elements != [] {
      var n := |elements|;
      var init := elements[..n - 1];
      SkillsMember(init, skill);
      SkillsSnoc(init, elements[n - 1]);
      assert init + [elements[n - 1]] == elements;
      if skill in Skills(elements) && skill !in Skills(init) {
        assert SkillOf(elements[n - 1]) == Some(skill);
      }
      if k :| 0 <= k < n && SkillOf(elements[k]) == Some(skill) {
        if k < n - 1 {
          assert init[k] == elements[k];
        }
      }
    }
  }

  /** An element names a skill exactly when it is a skill link with non-blank text. */
  lemma SkillOfIff(element: SkillLink, skill: string)
    ensures SkillOf(element) == Some(skill) <==> skill != [] && IsSkillLink(element) && Strip(element.text) == skill
  {
  }

  /** Visiting one more element only appends to the skills. */
  lemma SkillsGrow(elements: seq<SkillLink>, element: SkillLink)
    ensures Skills(elements) <= Skills(elements + [element])
  {
    SkillsSnoc(elements, element);
  }

  /** Skills keep the order they were first seen in: visiting more elements only appends. */
  lemma {:induction false} SkillsFirstSeen(elements: seq<SkillLink>, k: nat)
    requires k <= |elements|
    ensures Skills(elements[..k]) <= Skills(elements)
    decreases |elements| - k
  {
    if k == |elements| {
      assert elements[..k] == elements;
    } else {
      var n := |elements|;
      var init, last := elements[..n - 1], elements[n - 1];
      assert init[..k] == elements[..k];
      SkillsFirstSeen(init, k);
      SkillsGrow(init, last);
      assert init + [last] == elements;
      PrefixTrans(Skills(elements[..k]), Skills(init), Skills(elements));
    }
  }

  lemma ElementsSnoc(lookups: seq<Lookup>, i: nat)
    requires i < |lookups|
    ensures Elements(lookups[..i + 1]) == Elements(lookups[..i]) + (if lookups[i].Found? then lookups[i].elements else [])
  {
    assert lookups[..i + 1][..i] == lookups[..i];
  }

  /** One element of the loop in get_job_skills: keep its stripped text when new and the element is a skill link. */
  method AddSkill(skills: seq<string>, ghost visited: seq<SkillLink>, elem: SkillLink) returns (collected: seq<string>)
    requires skills == Skills(visited)
    ensures collected == Skills(visited + [elem])
  {
    SkillsSnoc(visited, elem);
    collected := skills;
    var skillText := Strip(elem.text);
    if skillText != [] && skillText !in skills {
      var href := elem.href;
      if href.Some? && href.value != [] && Contains(href.value, SkillPath()) && Contains(href.value, JobsPath()) {
        collected := skills + [skillText];
      }
    }
  }

  /** The element loop of get_job_skills for one selector, continuing from the skills of `visited`. */
  method CollectSkills(skills: seq<string>, ghost visited: seq<SkillLink>, skillElements: seq<SkillLink>)
    returns (collected: seq<string>)
    requires skills == Skills(visited)
    ensures collected == Skills(visited + skillElements)
  {
    collected := skills;
    ghost var seen := visited;
    for e := 0 to |skillElements|
      invariant seen == visited + skillElements[..e]
      invariant collected == Skills(seen)
    {
      collected := AddSkill(collected, seen, skillElements[e]);
      assert skillElements[..e + 1] == skillElements[..e] + [skillElements[e]];
      seen := seen + [skillElements[e]];
    }
    assert skillElements[..|skillElements|] == skillElements;
  }

  /** The selector loop of get_job_skills; `None` stands for a detail page that could not be opened. */
  method GetJobSkills(page: Option<seq<Lookup>>) returns (skillsText: string)
    ensures skillsText == SkillsText(page)
  {
    if page.None? {
      return "";
    }
    var lookups := page.value;
    var skills: seq<string> := [];
    for s := 0 to |lookups|
      invariant skills == Skills(Elements(lookups[..s]))
    {
      ElementsSnoc(lookups, s);
      if lookups[s].Found? {
        skills := CollectSkills(skills, Elements(lookups[..s]), lookups[s].elements);
      } else {
        assert Elements(lookups[..s + 1]) == Elements(lookups[..s]) + [] == Elements(lookups[..s]);
      }
    }
    assert lookups[..|lookups|] == lookups;
    skillsText := Join(skills, " ");
  }

  // ---------------------------------------------------------------------------
  // Card acceptance in parse_wuzzuf_jobs

  /**
   * A job card as the selectors see it: the title link's text and `href` (`None` when
   * the title element is missing), the texts of the two company selectors, and the logo:
   * `None` without an image, otherwise its `src`, which may be missing.
   */
  datatype WuzzufCard = WuzzufCard(
    title: Option<string>,
    link: Option<string>,
    company: Option<string>,
    altCompany: Option<string>,
    logo: Option<Option<string>>)

  /** An accepted job: (company, title, link, picture). */
  datatype WuzzufRole = WuzzufRole(company: string, title: string, link: string, picture: Option<string>)

  function UnknownCompany(): string { "Unknown Company" }

  function PlaceholderLogo(): string { "https://via.placeholder.com/100" }

  function Dash(): string { " -" }

  /** `text.strip().replace(" -", "")`. */
  function NormalizeCompany(raw: string): (company: string)
    ensures |company| <= |Strip(raw)|
  {
    RemoveAll(Strip(raw), Dash())
  }

  /** The company: the first selector that matched, normalised, or "Unknown Company" when neither did. */
  function CompanyOf(card: WuzzufCard): string {
    if card.company.Some? then NormalizeCompany(card.company.value)
    else if card.altCompany.Some? then NormalizeCompany(card.altCompany.value)
    else UnknownCompany()
  }

  /**
   * A company name, from the first selector or else the alternative one, is its stripped
   * text when that holds no " -", and strictly shorter otherwise; without either element it
   * is "Unknown Company".
   */
  lemma CompanyOfSpec(card: WuzzufCard)
    ensures card.company.None? && card.altCompany.None? ==> CompanyOf(card) == UnknownCompany()
    ensures card.company.Some? && !Contains(Strip(card.company.value), Dash()) ==>
      CompanyOf(card) == Strip(card.company.value)
    ensures card.company.Some? && Contains(Strip(card.company.value), Dash()) ==>
      |CompanyOf(card)| < |Strip(card.company.value)|
    ensures card.company.None? && card.altCompany.Some? ==>
      |CompanyOf(card)| <= |Strip(card.altCompany.value)|
    ensures card.company.None? && card.altCompany.Some? && !Contains(Strip(card.altCompany.value), Dash()) ==>
      CompanyOf(card) == Strip(card.altCompany.value)
    ensures card.company.None? && card.altCompany.Some? && Contains(Strip(card.altCompany.value), Dash()) ==>
      |CompanyOf(card)| < |Strip(card.altCompany.value)|
  {
  }

  function PictureOf(card: WuzzufCard): Option<string> {
    if card.logo.Some? then card.logo.value else Some(PlaceholderLogo())
  }

  /** A card with a non-blank title and a non-empty link; the others are skipped. */
  predicate Usable(card: WuzzufCard) {
    card.title.Some? && Strip(card.title.value) != [] && card.link.Some? && card.link.value != []
  }

  function RoleOf(card: WuzzufCard): WuzzufRole
    requires Usable(card)
  {
    WuzzufRole(CompanyOf(card), Strip(card.title.value), card.link.value, PictureOf(card))
  }

  /** A usable card whose title has no keyword: its detail page is fetched for skills. */
  predicate NeedsSkills(card: WuzzufCard) {
    Usable(card) && !HasKeywords(Strip(card.title.value))
  }

  /** The decision on one card, given the detail page behind each link. */
  function Decide(detail: string -> Option<seq<Lookup>>, card: WuzzufCard): Option<WuzzufRole> {
    if !Usable(card) then None
    else if HasKeywords(Strip(card.title.value)) then Some(RoleOf(card))
    else if HasKeywords(SkillsText(detail(card.link.value))) then Some(RoleOf(card))
    else None
  }

  function Judge(detail: string -> Option<seq<Lookup>>): WuzzufCard -> Option<WuzzufRole> {
    (card: WuzzufCard) => Decide(detail, card)
  }

  /** The roles parse_wuzzuf_jobs returns for the cards, in card order. */
  function AcceptedRoles(cards: seq<WuzzufCard>, detail: string -> Option<seq<Lookup>>): seq<WuzzufRole> {
    Collect(cards, Judge(detail))
  }

  function SkillCheck(card: WuzzufCard): Option<string> {
    if NeedsSkills(card) then Some(card.link.value) else None
  }

  /** The links whose detail pages parse_wuzzuf_jobs opens, in card order. */
  function SkillChecks(cards: seq<WuzzufCard>): seq<string> {
    Collect(cards, SkillCheck)
  }

  /**
   * A role is returned exactly when it comes from a usable card whose title matches, or
   * whose title does not match and whose skills do.
   */
  lemma AcceptedMember(cards: seq<WuzzufCard>, detail: string -> Option<seq<Lookup>>, role: WuzzufRole)
    ensures role in AcceptedRoles(cards, detail) <==>
      exists k :: 0 <= k < |cards| && Usable(cards[k]) && RoleOf(cards[k]) == role
        && (HasKeywords(Strip(cards[k].title.value))
            || (!HasKeywords(Strip(cards[k].title.value)) && HasKeywords(SkillsText(detail(cards[k].link.value)))))
  {
    CollectMember(cards, Judge(detail), role);
  }

  /** A card whose title matches is decided without its detail page. */
  lemma TitleMatchIgnoresSkills(card: WuzzufCard, detail: string -> Option<seq<Lookup>>, other: string -> Option<seq<Lookup>>)
    requires Usable(card) && HasKeywords(Strip(card.title.value))
    ensures Judge(detail)(card) == Judge(other)(card) == Some(RoleOf(card))
    ensures SkillCheck(card) == None
  {
  }

  /** A detail page is fetched exactly for the usable cards whose title has no keyword. */
  lemma SkillChecksMember(cards: seq<WuzzufCard>, link: string)
    ensures link in SkillChecks(cards) <==>
      exists k :: 0 <= k < |cards| && NeedsSkills(cards[k]) && cards[k].link == Some(link)
  {
    CollectMember(cards, SkillCheck, link);
  }

  /** Returned roles keep card order: the cards' roles distribute over concatenation. */
  lemma AcceptedRolesAppend(a: seq<WuzzufCard>, b: seq<WuzzufCard>, detail: string -> Option<seq<Lookup>>)
    ensures AcceptedRoles(a + b, detail) == AcceptedRoles(a, detail) + AcceptedRoles(b, detail)
    ensures SkillChecks(a + b) == SkillChecks(a) + SkillChecks(b)
  {
    CollectAppend(a, b, Judge(detail));
    CollectAppend(a, b, SkillCheck);
  }

  /** One card of the loop in parse_wuzzuf_jobs; `fetched` is the link whose page it fetched, if any. */
  method JudgeCard(card: WuzzufCard, detail: string -> Option<seq<Lookup>>)
    returns (role: Option<WuzzufRole>, fetched: Option<string>)
    ensures role == Decide(detail, card)
    ensures fetched == SkillCheck(card)
  {
    if card.title.None? {
      assert !Usable(card);
      return None, None;
    }
    var title := Strip(card.title.value);
    var link := card.link;
    if title == [] || link.None? || link.value == [] {
      assert !Usable(card);
      return None, None;
    }
    var company := CompanyOf(card);
    var picture := PictureOf(card);
    var titleHasKeywords := CheckKeywords(title);
    if titleHasKeywords {
      return Some(WuzzufRole(company, title, link.value, picture)), None;
    }
    var skillsText := GetJobSkills(detail(link.value));
    var skillsHaveKeywords := CheckKeywords(skillsText);
    fetched := Some(link.value);
    if skillsHaveKeywords {
      role := Some(WuzzufRole(company, title, link.value, picture));
    } else {
      role := None;
    }
  }

  /**
   * parse_wuzzuf_jobs: `None` stands for the listing that did not load in time. Returns
   * the accepted roles and the links whose detail pages were fetched.
   */
  method ParseWuzzufJobs(listing: Option<seq<WuzzufCard>>, detail: string -> Option<seq<Lookup>>)
    returns (roles: seq<WuzzufRole>, fetched: seq<string>)
    ensures listing.None? ==> roles == [] && fetched == []
    ensures listing.Some? ==> roles == AcceptedRoles(listing.value, detail)
    ensures listing.Some? ==> fetched == SkillChecks(listing.value)
  {
    roles, fetched := [], [];
    if listing.None? {
      return;
    }
    var jobCards := listing.value;
    for i := 0 to |jobCards|
      invariant roles == AcceptedRoles(jobCards[..i], detail)
      invariant fetched == SkillChecks(jobCards[..i])
    {
      CollectSnoc(jobCards, i, Judge(detail));
      CollectSnoc(jobCards, i, SkillCheck);
      var role, page := JudgeCard(jobCards[i], detail);
      if role.Some? {
        roles := roles + [role.value];
      }
      if page.Some? {
        fetched := fetched + [page.value];
      }
    }
    assert jobCards[..|jobCards|] == jobCards;
  }
}
