/** Reading the tracked-company files: `Company:TICKER:kw1:kw2:...` lines for
    the actor-name matchers, `TICKER,Company` lines for the ticker lookup. */
module KeywordFile {
  import opened Wrappers
  import opened Text
  import opened Seqs
  import opened Dict
  import opened Matching

  datatype KeywordLine = KeywordLine(company: string, ticker: string, keywords: seq<string>)

  /** What the loader keeps per ticker. */
  datatype Entry = Entry(company: string, keywords: seq<string>)

  /** `[p.strip() for p in parts if p.strip()]`. */
  function CleanKeywords(parts: seq<string>): (r: seq<string>)
    ensures |r| <= |parts|
    ensures forall i :: 0 <= i < |r| ==> r[i] != "" && IsStripped(r[i])
    ensures forall i :: 0 <= i < |parts| && Strip(parts[i]) != "" ==> Strip(parts[i]) in r
  {
    if parts == [] then []
    else
      var k := Strip(parts[0]);
      (if k != "" then [k] else []) + CleanKeywords(parts[1..])
  }

  predicate NonEmpty(p: string) { p != "" }

  /** On parts that are already stripped, cleaning only drops the empty ones. */
  lemma {:induction false} CleanStripped(parts: seq<string>)
    requires forall i :: 0 <= i < |parts| ==> IsStripped(parts[i])
    ensures CleanKeywords(parts) == Filter(parts, NonEmpty)
  {
    if parts != [] {
      StripStripped(parts[0]);
      CleanStripped(parts[1..]);
    }
  }

  /** One line of the enriched keyword file: kept only when it splits into at
      least two `:` fields; company and ticker are the first two fields
      stripped, the keywords the remaining non-blank fields stripped, in order. */
  function ParseKeywordLine(line: string): (r: Option<KeywordLine>)
    ensures r.Some? <==> ':' in Strip(line)
    ensures r.Some? ==> IsStripped(r.value.company) && IsStripped(r.value.ticker)
    ensures r.Some? ==> forall i :: 0 <= i < |r.value.keywords| ==> r.value.keywords[i] != ""
  {
    var parts := Split(Strip(line), ':');
    if |parts| >= 2 then
      Some(KeywordLine(Strip(parts[0]), Strip(parts[1]), CleanKeywords(parts[2..])))
    else None
  }

  /** Cleaning is exactly strip-then-drop-blanks: the kept keywords are the
      non-blank stripped fields, each once per field, in field order. */
  lemma {:induction false} CleanIsStripFilter(parts: seq<string>)
    ensures CleanKeywords(parts) == Filter(Map(parts, Strip), NonEmpty)
  {
    if parts != [] {
      var m := Map(parts, Strip);
      assert m[1..] == Map(parts[1..], Strip);
      FilterCons(m, NonEmpty);
      CleanIsStripFilter(parts[1..]);
    }
  }

  /** The fields of a kept line: the company is the first `:` field
      stripped, the ticker the second, and the keywords the non-blank
      remaining fields stripped, in order. */
  lemma KeywordLineFields(line: string)
    ensures var parts := Split(Strip(line), ':');
            ParseKeywordLine(line).Some? ==>
              |parts| >= 2 &&
              ParseKeywordLine(line).value ==
                KeywordLine(Strip(parts[0]), Strip(parts[1]), Filter(Map(parts[2..], Strip), NonEmpty))
  {
    var parts := Split(Strip(line), ':');
    if |parts| >= 2 {
      CleanIsStripFilter(parts[2..]);
    }
  }

  /** What one line contributes to the loader's dict, if anything. */
  function EnrichedEntry(line: string): (e: Option<(string, Entry)>)
    ensures e.Some? <==> ParseKeywordLine(line).Some?
  {
    match ParseKeywordLine(line)
    case None => None
    case Some(kl) => Some((kl.ticker, Entry(kl.company, kl.keywords)))
  }

  predicate DefinesTicker(line: string, ticker: string) {
    var p := ParseKeywordLine(line);
    p.Some? && p.value.ticker == ticker
  }

  /** `load_enriched_keywords`: every parsed line is stored under its ticker,
      a later line with the same ticker replacing the earlier entry. */
  function LoadEnriched(lines: seq<string>): (d: Dict<string, Entry>)
    ensures Distinct(Keys(d))
  {
    FromEntries(Map(lines, EnrichedEntry))
  }

  lemma EntryOfLine(line: string, t: string)
    ensures HasKey(EnrichedEntry(line), t) <==> DefinesTicker(line, t)
    ensures HasKey(EnrichedEntry(line), t) ==>
              var e := EnrichedEntry(line).value.1;
              ParseKeywordLine(line) == Some(KeywordLine(e.company, t, e.keywords))
  {
  }

  /** The entry a line adds assigns a ticker exactly when the line defines
      it. */
  lemma EntriesMatchLines(lines: seq<string>, t: string)
    ensures forall i :: 0 <= i < |lines| ==> (HasKey(Map(lines, EnrichedEntry)[i], t) <==> DefinesTicker(lines[i], t))
  {
    forall i | 0 <= i < |lines|
      ensures HasKey(Map(lines, EnrichedEntry)[i], t) <==> DefinesTicker(lines[i], t)
    {
      EntryOfLine(lines[i], t);
    }
  }

  /** A ticker is loaded exactly when some line defines it. */
  lemma LoadedIffDefined(lines: seq<string>, t: string)
    ensures Get(LoadEnriched(lines), t).None? <==>
              forall i :: 0 <= i < |lines| ==> !DefinesTicker(lines[i], t)
  {
    LastAssignmentWins(Map(lines, EnrichedEntry), t);
    EntriesMatchLines(lines, t);
  }

  /** A loaded ticker's entry is the one of the last line that defines it. */
  lemma LastLineWins(lines: seq<string>, t: string)
    ensures Get(LoadEnriched(lines), t).Some? ==>
              var e := Get(LoadEnriched(lines), t).value;
              exists i :: 0 <= i < |lines|
                          && ParseKeywordLine(lines[i]) == Some(KeywordLine(e.company, t, e.keywords))
                          && forall j :: i < j < |lines| ==> !DefinesTicker(lines[j], t)
  {
    var es := Map(lines, EnrichedEntry);
    LastAssignmentWins(es, t);
    var r := Get(LoadEnriched(lines), t);
    if r.Some? {
      var i :| 0 <= i < |es| && es[i] == Some((t, r.value))
               && forall j :: i < j < |es| ==> !HasKey(es[j], t);
      EntriesMatchLines(lines, t);
      EntryOfLine(lines[i], t);
    }
  }

  /** A line of the ticker file as `500_GDELT_fetcher.py` reads it: split on
      `,`; the ticker is the first field stripped and upper-cased, the company
      the second field stripped, or empty. Every line yields a ticker. */
  function ParseTickerLine(line: string): (r: (string, string))
    ensures Upper(r.0) == r.0
  {
    var parts := Split(Strip(line), ',');
    UpperIdempotent(Strip(parts[0]));
    (Upper(Strip(parts[0])), if |parts| > 1 then Strip(parts[1]) else "")
  }

  /** A ticker-file line written as `TICKER,Company`, or as a bare ticker,
      reads back as the upper-cased ticker and the company (empty when the
      line has none). */
  lemma TickerLineReadsBack(t: string, c: string)
    requires IsStripped(t) && IsStripped(c) && ',' !in t && ',' !in c
    ensures ParseTickerLine(t + "," + c) == (Upper(t), c)
    ensures ParseTickerLine(t) == (Upper(t), "")
  {
    var line := t + "," + c;
    JoinPairStripped(t, c, ',');
    StripStripped(line);
    SplitJoin([t, c], ',');
    assert Split(Strip(line), ',') == [t, c];
    StripStripped(t);
    StripStripped(c);
    BareTickerLine(t);
  }

  lemma BareTickerLine(t: string)
    requires IsStripped(t) && ',' !in t
    ensures ParseTickerLine(t) == (Upper(t), "")
  {
    StripStripped(t);
    assert Split(t, ',') == [t];
  }

  function TickerEntry(line: string): (e: Option<(string, string)>)
    ensures e.Some?
  {
    Some(ParseTickerLine(line))
  }

  /** `tickers_dict`, built line by line. */
  function LoadTickers(lines: seq<string>): (d: Dict<string, string>)
    ensures Distinct(Keys(d))
  {
    FromEntries(Map(lines, TickerEntry))
  }

  /** Every line contributes its ticker, and every ticker comes from a line. */
  lemma TickerKeys(lines: seq<string>)
    ensures forall i :: 0 <= i < |lines| ==> ParseTickerLine(lines[i]).0 in Keys(LoadTickers(lines))
    ensures forall k :: k in Keys(LoadTickers(lines)) ==>
              exists i :: 0 <= i < |lines| && ParseTickerLine(lines[i]).0 == k
  {
    var es := Map(lines, TickerEntry);
    forall i | 0 <= i < |lines|
      ensures ParseTickerLine(lines[i]).0 in Keys(LoadTickers(lines))
    {
      LastAssignmentWins(es, ParseTickerLine(lines[i]).0);
      assert HasKey(es[i], ParseTickerLine(lines[i]).0);
    }
    forall k | k in Keys(LoadTickers(lines))
      ensures exists i :: 0 <= i < |lines| && ParseTickerLine(lines[i]).0 == k
    {
      LastAssignmentWins(es, k);
      var i :| 0 <= i < |es| && HasKey(es[i], k);
      assert ParseTickerLine(lines[i]).0 == k;
    }
  }

  /** Every ticker of the dict is in upper case. */
  lemma TickersUpper(lines: seq<string>)
    ensures forall k :: k in Keys(LoadTickers(lines)) ==> Upper(k) == k
  {
    forall k | k in Keys(LoadTickers(lines))
      ensures Upper(k) == k
    {
      TickerKeys(lines);
      var i :| 0 <= i < |lines| && ParseTickerLine(lines[i]).0 == k;
    }
  }

  /** `tickers_lower`: the keys lower-cased, in dict order. */
  function TickersLower(d: Dict<string, string>): (r: seq<string>)
    ensures |r| == |d|
    ensures forall i :: 0 <= i < |d| ==> r[i] == Lower(d[i].0)
  {
    if d == [] then [] else [Lower(d[0].0)] + TickersLower(d[1..])
  }

  /** The ticker the lookup assigns is always one of the file's tickers,
      spelled as in the dict. */
  lemma AssignedTickerIsKey(lines: seq<string>, text: string)
    requires AssignTicker(text, TickersLower(LoadTickers(lines))).Some?
    ensures AssignTicker(text, TickersLower(LoadTickers(lines))).value in Keys(LoadTickers(lines))
  {
    var d := LoadTickers(lines);
    var ts := TickersLower(d);
    var u := AssignTicker(text, ts).value;
    var i :| 0 <= i < |ts| && u == Upper(ts[i]) && Contains(Lower(text), ts[i]);
    assert d[i].0 == Keys(d)[i];
    TickersUpper(lines);
    assert Upper(d[i].0) == d[i].0;
    UpperLowerUpper(d[i].0);
  }

  /** Because every line yields a ticker, a line whose ticker field is
      empty registers the empty ticker, which occurs in every row: from then
      on the lookup never reports "no ticker". */
  lemma EmptyTickerMatchesEverything(lines: seq<string>, text: string, j: nat)
    requires j < |lines| && ParseTickerLine(lines[j]).0 == ""
    ensures AssignTicker(text, TickersLower(LoadTickers(lines))).Some?
  {
    var d := LoadTickers(lines);
    var ts := TickersLower(d);
    var ks := Keys(d);
    EmptyTickerIsKey(lines, j);
    var i :| 0 <= i < |ks| && ks[i] == "";
    assert ts[i] == Lower("");
    ContainsEmpty(Lower(text));
    assert Contains(Lower(text), ts[i]);
  }

  lemma EmptyTickerIsKey(lines: seq<string>, j: nat)
    requires j < |lines| && ParseTickerLine(lines[j]).0 == ""
    ensures "" in Keys(LoadTickers(lines))
  {
    TickerKeys(lines);
    assert ParseTickerLine(lines[j]).0 in Keys(LoadTickers(lines));
  }

  /** A line holding only whitespace (as a blank line of the file arrives,
      with its newline) has the empty ticker. */
  lemma BlankTickerLine(line: string)
    requires forall k :: 0 <= k < |line| ==> IsSpace(line[k])
    ensures ParseTickerLine(line).0 == ""
  {
    assert Strip(line) == [];
    assert Split([], ',') == [[]];
  }

  /** A blank line in the ticker file makes every row get a ticker. */
  lemma BlankLineMatchesEverything(lines: seq<string>, text: string, j: nat)
    requires j < |lines| && forall k :: 0 <= k < |lines[j]| ==> IsSpace(lines[j][k])
    ensures AssignTicker(text, TickersLower(LoadTickers(lines))).Some?
  {
    BlankTickerLine(lines[j]);
    EmptyTickerMatchesEverything(lines, text, j);
  }
}
