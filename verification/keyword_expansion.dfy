/** `for_test/keywords.py`: each `Company:TICKER` line of the ticker list is
    expanded into an enriched keyword line `Company:TICKER:kw1:kw2:...` of
    the form the fetchers load. The keywords are six spellings of the names,
    then the aliases looked up for the company, then the hand-written extras
    of three companies, with repeats dropped in first-occurrence order. */
module KeywordExpansion {
  import opened Wrappers
  import opened Text
  import opened Seqs
  import opened Dict
  import opened KeywordFile

  /** The hand-written extra keywords: only three companies have any. */
  const Enhancements: Dict<string, seq<string>> := [
    ("Apple Inc.", ["iPhone", "MacBook", "Tim Cook"]),
    ("Microsoft", ["Azure", "Xbox", "Satya Nadella"]),
    ("Tesla, Inc.", ["Cybertruck", "Gigafactory", "Elon Musk"])
  ]

  /** `enhancements.get(company, [])`. */
  function EnhancementsFor(company: string): seq<string> {
    Get(Enhancements, company).GetOr([])
  }

  /** Extras exist exactly for the three names, spelled exactly so. */
  lemma EnhancedCompanies(company: string)
    ensures EnhancementsFor(company) != [] <==>
            company == "Apple Inc." || company == "Microsoft" || company == "Tesla, Inc."
    ensures company == "Apple Inc." ==> EnhancementsFor(company) == ["iPhone", "MacBook", "Tim Cook"]
    ensures company == "Microsoft" ==> EnhancementsFor(company) == ["Azure", "Xbox", "Satya Nadella"]
    ensures company == "Tesla, Inc." ==> EnhancementsFor(company) == ["Cybertruck", "Gigafactory", "Elon Musk"]
  {
    var e := Enhancements;
    assert e[1..][1..][1..] == [];
  }

  /** The six base spellings, in order: the company, the ticker, the company
      without spaces, its first word, lower case, upper case. */
  function Variants(company: string, ticker: string, first: string): seq<string> {
    [company, ticker, Remove(company, ' '), first, Lower(company), Upper(company)]
  }

  /** Every keyword before de-duplication: the variants, then the aliases,
      then the extras. */
  function Candidates(company: string, ticker: string, first: string, aliases: seq<string>): seq<string> {
    Variants(company, ticker, first) + aliases + EnhancementsFor(company)
  }

  /** `company.split()[0]` raises IndexError on a blank company. */
  datatype ExpandError = BlankCompany

  /** `expand_keywords(line)`: None (here `Ok(None)`) when the stripped line
      has no `:`; an error when the company field is blank; otherwise the
      stripped company and ticker with their de-duplicated keywords.
      `aliasesOf` stands for the alias lookup, called with the company. */
  function ExpandKeywords(line: string, aliasesOf: string -> seq<string>): Result<Option<KeywordLine>, ExpandError> {
    var parts := Split(Strip(line), ':');
    if |parts| < 2 then Ok(None)
    else
      var company, ticker := Strip(parts[0]), Strip(parts[1]);
      match FirstWord(company)
      case None => Err(BlankCompany)
      case Some(first) => Ok(Some(KeywordLine(company, ticker, Dedup(Candidates(company, ticker, first, aliasesOf(company))))))
  }

  /** `f"{company}:{ticker}:" + ":".join(unique_keywords)`. */
  function FormatLine(kl: KeywordLine): string {
    kl.company + ":" + kl.ticker + ":" + Join(kl.keywords, ':')
  }

  /** When a line is skipped, when it fails, and that an expanded line
      keeps the company and ticker the loaders would read from it. */
  lemma ExpandOutcome(line: string, aliasesOf: string -> seq<string>)
    ensures ExpandKeywords(line, aliasesOf) == Ok(None) <==> ':' !in Strip(line)
    ensures ExpandKeywords(line, aliasesOf).Err? <==>
            ':' in Strip(line) && Strip(Split(Strip(line), ':')[0]) == ""
    ensures ExpandKeywords(line, aliasesOf).Ok? && ExpandKeywords(line, aliasesOf).value.Some? ==>
              var kl := ExpandKeywords(line, aliasesOf).value.value;
              ParseKeywordLine(line).Some? &&
              ParseKeywordLine(line).value.company == kl.company && ParseKeywordLine(line).value.ticker == kl.ticker
  {
    var parts := Split(Strip(line), ':');
    SplitCount(Strip(line), ':');
    if |parts| >= 2 {
      BlankIsEmpty(Strip(parts[0]));
    }
  }

  /** A string splits into at least two fields exactly when it holds the
      separator. */
  lemma SplitCount(s: string, sep: char)
    ensures |Split(s, sep)| >= 2 <==> sep in s
  {
  }

  /** A stripped string is blank only when it is empty. */
  lemma BlankIsEmpty(s: string)
    requires IsStripped(s)
    ensures FirstWord(s).None? <==> s == ""
  {
  }

  /** The keywords of an expanded line: no repeats; every candidate is
      there and nothing else; each at the place of its first occurrence
      among the candidates; the company first. */
  lemma ExpandedKeywords(line: string, aliasesOf: string -> seq<string>)
    requires ExpandKeywords(line, aliasesOf).Ok? && ExpandKeywords(line, aliasesOf).value.Some?
    ensures var kl := ExpandKeywords(line, aliasesOf).value.value;
            var cs := Candidates(kl.company, kl.ticker, FirstWord(kl.company).value, aliasesOf(kl.company));
            Distinct(kl.keywords) &&
            (forall i :: 0 <= i < |cs| ==> cs[i] in kl.keywords) &&
            (forall k :: k in kl.keywords <==> k in cs) &&
            (forall i, j :: 0 <= i < j < |kl.keywords| ==> FirstIndex(cs, kl.keywords[i]) < FirstIndex(cs, kl.keywords[j])) &&
            kl.keywords[0] == kl.company
  {
    var kl := ExpandKeywords(line, aliasesOf).value.value;
    var cs := Candidates(kl.company, kl.ticker, FirstWord(kl.company).value, aliasesOf(kl.company));
    DedupMembers(cs);
    DedupOrder(cs);
    FirstIsFirst(cs, kl.keywords);
  }

  /** After de-duplication the first candidate comes first. */
  lemma FirstIsFirst(cs: seq<string>, ks: seq<string>)
    requires cs != [] && ks == Dedup(cs)
    ensures ks != [] && ks[0] == cs[0]
  {
    DedupOrder(cs);
    assert cs[0] in ks;
    var j :| 0 <= j < |ks| && ks[j] == cs[0];
    assert FirstIndex(cs, ks[j]) == 0;
    assert FirstIndex(cs, ks[0]) >= 0;
    assert j == 0;
  }

  /** A field the loaders read back unchanged: no surrounding whitespace and
      no separator. */
  predicate Clean(s: string) {
    IsStripped(s) && ':' !in s
  }

  predicate FieldsClean(kl: KeywordLine) {
    Clean(kl.company) && Clean(kl.ticker) && forall i :: 0 <= i < |kl.keywords| ==> Clean(kl.keywords[i])
  }

  /** The keyword fields of a formatted line: one empty field when there is
      no keyword. */
  function KeywordFields(keywords: seq<string>): seq<string> {
    if keywords == [] then [""] else keywords
  }

  /** The formatted line is the `:`-join of its fields. */
  lemma FormatJoin(kl: KeywordLine)
    ensures FormatLine(kl) == Join([kl.company, kl.ticker] + KeywordFields(kl.keywords), ':')
  {
    var rest := KeywordFields(kl.keywords);
    var parts := [kl.company, kl.ticker] + rest;
    assert parts[1..] == [kl.ticker] + rest;
    assert parts[1..][1..] == rest;
    assert Join(rest, ':') == Join(kl.keywords, ':');
    assert Join(parts, ':') == kl.company + [':'] + (kl.ticker + [':'] + Join(rest, ':'));
  }

  /** The fields of a formatted line with clean fields are clean. */
  lemma FormattedFieldsClean(kl: KeywordLine)
    requires FieldsClean(kl)
    ensures var parts := [kl.company, kl.ticker] + KeywordFields(kl.keywords);
            forall i :: 0 <= i < |parts| ==> Clean(parts[i])
  {
    var rest := KeywordFields(kl.keywords);
    var parts := [kl.company, kl.ticker] + rest;
    assert forall i :: 2 <= i < |parts| ==> parts[i] == rest[i - 2];
  }

  /** Stripping and splitting a formatted line with clean fields gives back
      its fields. */
  lemma FormattedSplits(kl: KeywordLine)
    requires FieldsClean(kl)
    ensures Split(Strip(FormatLine(kl)), ':') == [kl.company, kl.ticker] + KeywordFields(kl.keywords)
  {
    var parts := [kl.company, kl.ticker] + KeywordFields(kl.keywords);
    var out := FormatLine(kl);
    FormatJoin(kl);
    FormattedFieldsClean(kl);
    SplitJoin(parts, ':');
    JoinStrippedEnd(parts, ':');
    assert out[0] == if kl.company == [] then ':' else kl.company[0];
    StripStripped(out);
  }

  /** A line whose fields come out stripped is loaded with those fields,
      the empty keywords dropped. */
  lemma ParseStrippedFields(line: string, company: string, ticker: string, rest: seq<string>)
    requires Split(Strip(line), ':') == [company, ticker] + rest
    requires IsStripped(company) && IsStripped(ticker)
    requires forall i :: 0 <= i < |rest| ==> IsStripped(rest[i])
    ensures ParseKeywordLine(line) == Some(KeywordLine(company, ticker, Filter(rest, NonEmpty)))
  {
    var parts := [company, ticker] + rest;
    assert parts[2..] == rest;
    StripStripped(company);
    StripStripped(ticker);
    CleanStripped(rest);
  }

  /** Format, then load: the line the expander writes is read back by the
      fetchers' loader as the same company, the same ticker and the same
      keywords, an empty one aside, as long as no field has surrounding
      whitespace or a `:`. */
  lemma FormatReadsBack(kl: KeywordLine)
    requires FieldsClean(kl)
    ensures ParseKeywordLine(FormatLine(kl)) == Some(KeywordLine(kl.company, kl.ticker, Filter(kl.keywords, NonEmpty)))
  {
    FormatLoads(kl);
    FilterKeywordFields(kl.keywords);
  }

  /** The loader reads a formatted line with clean fields as its fields. */
  lemma FormatLoads(kl: KeywordLine)
    requires FieldsClean(kl)
    ensures ParseKeywordLine(FormatLine(kl)) == Some(KeywordLine(kl.company, kl.ticker, Filter(KeywordFields(kl.keywords), NonEmpty)))
  {
    FormattedSplits(kl);
    KeywordFieldsStripped(kl.keywords);
    ParseStrippedFields(FormatLine(kl), kl.company, kl.ticker, KeywordFields(kl.keywords));
  }

  lemma KeywordFieldsStripped(keywords: seq<string>)
    requires forall i :: 0 <= i < |keywords| ==> Clean(keywords[i])
    ensures forall i :: 0 <= i < |KeywordFields(keywords)| ==> IsStripped(KeywordFields(keywords)[i])
  {
  }

  /** The placeholder field of a line without keywords is dropped on load. */
  lemma FilterKeywordFields(keywords: seq<string>)
    ensures Filter(KeywordFields(keywords), NonEmpty) == Filter(keywords, NonEmpty)
  {
    if keywords == [] {
      assert Filter([""], NonEmpty) == [];
    }
  }

  /** Case mapping keeps a field clean. */
  lemma CaseClean(s: string)
    requires Clean(s)
    ensures Clean(Lower(s)) && Clean(Upper(s))
  {
    CaseKeepsChar(s, ':');
    if s != [] {
      assert Lower(s)[0] == LowerChar(s[0]) && Upper(s)[0] == UpperChar(s[0]);
      assert Lower(s)[|s| - 1] == LowerChar(s[|s| - 1]) && Upper(s)[|s| - 1] == UpperChar(s[|s| - 1]);
    }
  }

  /** The six spellings of clean names are clean. */
  lemma VariantsClean(company: string, ticker: string, first: string)
    requires Clean(company) && Clean(ticker)
    requires FirstWord(company) == Some(first)
    ensures AllClean(Variants(company, ticker, first))
  {
    FirstWordClean(company, first);
    RemoveClean(company);
    CaseClean(company);
  }

  /** The first word of a clean name is clean. */
  lemma FirstWordClean(company: string, first: string)
    requires Clean(company) && FirstWord(company) == Some(first)
    ensures Clean(first)
  {
    if ':' in first {
      ContainsChar(company, first, ':');
    }
  }

  /** Dropping the spaces of a clean name leaves it clean. */
  lemma RemoveClean(company: string)
    requires Clean(company)
    ensures Clean(Remove(company, ' '))
  {
  }

  /** Every candidate keyword of a line is clean once the aliases are. */
  lemma CandidatesClean(company: string, ticker: string, first: string, aliases: seq<string>)
    requires Clean(company) && Clean(ticker)
    requires FirstWord(company) == Some(first)
    requires forall i :: 0 <= i < |aliases| ==> Clean(aliases[i])
    ensures forall i :: 0 <= i < |Candidates(company, ticker, first, aliases)| ==> Clean(Candidates(company, ticker, first, aliases)[i])
  {
    var vs, es := Variants(company, ticker, first), EnhancementsFor(company);
    var cs := Candidates(company, ticker, first, aliases);
    VariantsClean(company, ticker, first);
    EnhancementsClean(company);
    assert cs == vs + aliases + es;
    forall i | 0 <= i < |cs|
      ensures Clean(cs[i])
    {
      if i >= |vs| + |aliases| {
        assert cs[i] == es[i - |vs| - |aliases|];
      } else if i >= |vs| {
        assert cs[i] == aliases[i - |vs|];
      } else {
        assert cs[i] == vs[i];
      }
    }
  }

  /** Every keyword of a list is clean. */
  predicate AllClean(ks: seq<string>) {
    forall i :: 0 <= i < |ks| ==> Clean(ks[i])
  }

  /** The hand-written extras are clean. */
  lemma EnhancementsClean(company: string)
    ensures AllClean(EnhancementsFor(company))
  {
    EnhancedCompanies(company);
    ExtrasClean();
  }

  /** Each list of extras is clean. */
  lemma ExtrasClean()
    ensures AllClean(["iPhone", "MacBook", "Tim Cook"])
    ensures AllClean(["Azure", "Xbox", "Satya Nadella"])
    ensures AllClean(["Cybertruck", "Gigafactory", "Elon Musk"])
  {
    AppleExtrasClean();
    MicrosoftExtrasClean();
    TeslaExtrasClean();
  }

  lemma AppleExtrasClean()
    ensures Clean("iPhone") && Clean("MacBook") && Clean("Tim Cook")
  {
  }

  lemma MicrosoftExtrasClean()
    ensures Clean("Azure") && Clean("Xbox") && Clean("Satya Nadella")
  {
  }

  lemma TeslaExtrasClean()
    ensures Clean("Cybertruck") && Clean("Gigafactory") && Clean("Elon Musk")
  {
  }

  /** Expand, format, load: what the fetchers read back from an expanded
      line is what the expander produced, as long as the aliases have no
      surrounding whitespace and no `:`. */
  lemma ExpandReadsBack(line: string, aliasesOf: string -> seq<string>)
    requires ExpandKeywords(line, aliasesOf).Ok? && ExpandKeywords(line, aliasesOf).value.Some?
    requires var aliases := aliasesOf(ExpandKeywords(line, aliasesOf).value.value.company);
             forall i :: 0 <= i < |aliases| ==> Clean(aliases[i])
    ensures var kl := ExpandKeywords(line, aliasesOf).value.value;
            ParseKeywordLine(FormatLine(kl)) == Some(KeywordLine(kl.company, kl.ticker, Filter(kl.keywords, NonEmpty)))
  {
    var parts := Split(Strip(line), ':');
    var kl := ExpandKeywords(line, aliasesOf).value.value;
    var first := FirstWord(kl.company).value;
    var cs := Candidates(kl.company, kl.ticker, first, aliasesOf(kl.company));
    assert Clean(kl.company) && Clean(kl.ticker) by {
      if ':' in kl.company { ContainsChar(parts[0], kl.company, ':'); }
      if ':' in kl.ticker { ContainsChar(parts[1], kl.ticker, ':'); }
    }
    CandidatesClean(kl.company, kl.ticker, first, aliasesOf(kl.company));
    DedupKeeps(cs, Clean);
    FormatReadsBack(kl);
  }

  /** `main`: every non-blank line is expanded; a skipped line adds
      nothing, an error stops the run before anything is written. */
  function ExpandFile(lines: seq<string>, aliasesOf: string -> seq<string>): Result<seq<KeywordLine>, ExpandError> {
    if lines == [] then Ok([])
    else
      match ExpandFile(DropLast(lines), aliasesOf)
      case Err(e) => Err(e)
      case Ok(done) =>
        if Strip(Last(lines)) == "" then Ok(done)
        else
          match ExpandKeywords(Last(lines), aliasesOf)
          case Err(e) => Err(e)
          case Ok(None) => Ok(done)
          case Ok(Some(kl)) => Ok(done + [kl])
  }

  /** The text written to the enriched keyword file. */
  function OutputText(kls: seq<KeywordLine>): string {
    Join(Map(kls, FormatLine), '\n')
  }

  /** What one line contributes when nothing fails: its expansion, if any. */
  function Expanded(aliasesOf: string -> seq<string>): string -> Option<KeywordLine> {
    (line: string) => match ExpandKeywords(line, aliasesOf) case Ok(r) => r case Err(_) => None
  }

  /** Whether a line fails to expand. */
  function Fails(aliasesOf: string -> seq<string>): string -> bool {
    (line: string) => ExpandKeywords(line, aliasesOf).Err?
  }

  /** Some line fails to expand. */
  predicate AnyFails(lines: seq<string>, aliasesOf: string -> seq<string>) {
    Any(lines, Fails(aliasesOf))
  }

  /** The run fails exactly when some line fails to expand, and otherwise
      keeps the expansion of every line that has one, in order: skipping
      blank lines changes nothing, since a blank line never expands. */
  lemma {:induction false} ExpandFileResult(lines: seq<string>, aliasesOf: string -> seq<string>)
    ensures ExpandFile(lines, aliasesOf).Err? <==> AnyFails(lines, aliasesOf)
    ensures ExpandFile(lines, aliasesOf).Ok? ==> ExpandFile(lines, aliasesOf).value == FilterMap(lines, Expanded(aliasesOf))
  {
    if lines != [] {
      var front, last := DropLast(lines), Last(lines);
      ExpandFileResult(front, aliasesOf);
      SplitLast(lines);
      FilterMapSnoc(front, last, Expanded(aliasesOf));
      AnySnoc(front, last, Fails(aliasesOf));
      if Strip(last) == "" {
        BlankSkipped(last, aliasesOf);
      }
    }
  }

  /** A blank line has no expansion. */
  lemma BlankSkipped(line: string, aliasesOf: string -> seq<string>)
    requires Strip(line) == ""
    ensures ExpandKeywords(line, aliasesOf) == Ok(None)
  {
    ExpandOutcome(line, aliasesOf);
  }
}
