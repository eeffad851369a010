/** `enricher.py`: the older expander. Each `Company:TICKER` row of the
    ticker list becomes `Company:TICKER:kw1:kw2:...`, the keywords being the
    set of the non-empty spellings, aliases and extras. The set's iteration
    order is Python's and is not modelled: it is a parameter `order`, and
    the properties about the written line assume it lists the set. */
module Enricher {
  import opened Wrappers
  import opened Text
  import opened Seqs
  import opened KeywordFile
  import opened KeywordExpansion

  /** `company, ticker = row.split(':')` raises ValueError unless there are
      exactly two fields; `company.split()[0]` raises IndexError on a blank
      company. */
  datatype EnrichError = WrongFieldCount | EmptyCompany

  /** A row once expanded: the stripped names and the keyword set. */
  datatype Enriched = Enriched(company: string, ticker: string, keys: set<string>)

  /** `base_keywords` after both additions. Unlike the newer expander, the
      spellings without surrounding whitespace removed come from the raw
      fields; only the first two, the alias lookup and the extras use the
      stripped company. */
  function BaseKeywords(company: string, ticker: string, first: string, aliases: seq<string>): seq<string> {
    [Strip(company), Strip(ticker), Remove(company, ' '), first, Lower(company), Upper(company)]
      + aliases + EnhancementsFor(Strip(company))
  }

  /** `set(str(k) for k in base_keywords if k)`. */
  function KeywordSet(ks: seq<string>): set<string> {
    set k | k in ks && k != ""
  }

  /** `expand_keywords(row)` up to the set: the alias lookup `aliasesOf` is
      called with the stripped company. */
  function ExpandRow(row: string, aliasesOf: string -> seq<string>): Result<Enriched, EnrichError> {
    var parts := Split(row, ':');
    if |parts| != 2 then Err(WrongFieldCount)
    else
      var company, ticker := parts[0], parts[1];
      match FirstWord(company)
      case None => Err(EmptyCompany)
      case Some(first) =>
        Ok(Enriched(Strip(company), Strip(ticker), KeywordSet(BaseKeywords(company, ticker, first, aliasesOf(Strip(company))))))
  }

  /** `expand_keywords(row)`: the line written for a row, its keywords in the
      order `order` gives the set. */
  function EnrichRow(row: string, aliasesOf: string -> seq<string>, order: set<string> -> seq<string>): (r: Result<string, EnrichError>)
    ensures r.Err? <==> ExpandRow(row, aliasesOf).Err?
    ensures r.Ok? ==> var e := ExpandRow(row, aliasesOf).value;
                      var head := e.company + ":" + e.ticker + ":";
                      |head| <= |r.value| && r.value[..|head|] == head
  {
    match ExpandRow(row, aliasesOf)
    case Err(e) => Err(e)
    case Ok(e) =>
      var line := FormatLine(KeywordLine(e.company, e.ticker, order(e.keys)));
      assert line == (e.company + ":" + e.ticker + ":") + Join(order(e.keys), ':');
      Ok(line)
  }

  /** When a row fails, and which names an expanded row keeps. */
  lemma ExpandRowOutcome(row: string, aliasesOf: string -> seq<string>)
    ensures ExpandRow(row, aliasesOf) == Err(WrongFieldCount) <==> |Split(row, ':')| != 2
    ensures ExpandRow(row, aliasesOf) == Err(EmptyCompany) <==>
              |Split(row, ':')| == 2 && forall i :: 0 <= i < |Split(row, ':')[0]| ==> IsSpace(Split(row, ':')[0][i])
    ensures ExpandRow(row, aliasesOf).Ok? ==>
              ExpandRow(row, aliasesOf).value.company == Strip(Split(row, ':')[0]) &&
              ExpandRow(row, aliasesOf).value.ticker == Strip(Split(row, ':')[1])
  {
  }

  /** The keyword set holds no empty keyword and every non-empty spelling,
      alias and extra, and nothing else. */
  lemma KeywordSetMembers(ks: seq<string>)
    ensures "" !in KeywordSet(ks)
    ensures forall i :: 0 <= i < |ks| && ks[i] != "" ==> ks[i] in KeywordSet(ks)
    ensures forall k :: k in KeywordSet(ks) ==> k in ks
  {
  }

  /** The extras of the stripped company join the set; by
      `EnhancedCompanies` there are extras exactly for the three names. */
  lemma ExtrasJoinSet(row: string, aliasesOf: string -> seq<string>)
    requires ExpandRow(row, aliasesOf).Ok?
    ensures var e := ExpandRow(row, aliasesOf).value;
            forall x :: x in EnhancementsFor(e.company) ==> x in e.keys
  {
    var parts := Split(row, ':');
    ExtrasInSet(parts[0], parts[1], FirstWord(parts[0]).value, aliasesOf(Strip(parts[0])));
  }

  /** Every extra of the stripped company is in the set. */
  lemma ExtrasInSet(company: string, ticker: string, first: string, aliases: seq<string>)
    ensures forall x :: x in EnhancementsFor(Strip(company)) ==> x in KeywordSet(BaseKeywords(company, ticker, first, aliases))
  {
    var es := EnhancementsFor(Strip(company));
    var vs := [Strip(company), Strip(ticker), Remove(company, ' '), first, Lower(company), Upper(company)] + aliases;
    ExtrasNonEmpty(Strip(company));
    KeywordSetTail(vs, es);
  }

  /** The non-empty keywords at the end of a list are in its set. */
  lemma KeywordSetTail(vs: seq<string>, es: seq<string>)
    ensures forall x :: x in es && x != "" ==> x in KeywordSet(vs + es)
  {
    forall x | x in es && x != ""
      ensures x in KeywordSet(vs + es)
    {
      var i :| 0 <= i < |es| && es[i] == x;
      assert (vs + es)[|vs| + i] == x;
    }
  }

  /** No extra is empty. */
  lemma ExtrasNonEmpty(company: string)
    ensures forall x :: x in EnhancementsFor(company) ==> x != ""
  {
    EnhancedCompanies(company);
  }

  /** Against the newer expander: on a row whose two fields carry no
      surrounding whitespace, both fail together, and otherwise keep the
      same names and the same keywords, empty ones aside; the one produces
      a set where the other keeps first-occurrence order. */
  lemma SameAsExpander(row: string, aliasesOf: string -> seq<string>)
    requires |Split(row, ':')| == 2
    requires IsStripped(Split(row, ':')[0]) && IsStripped(Split(row, ':')[1])
    ensures ExpandRow(row, aliasesOf).Err? <==> ExpandKeywords(row, aliasesOf).Err?
    ensures ExpandRow(row, aliasesOf).Ok? ==>
              ExpandKeywords(row, aliasesOf).Ok? && ExpandKeywords(row, aliasesOf).value.Some? &&
              var e, kl := ExpandRow(row, aliasesOf).value, ExpandKeywords(row, aliasesOf).value.value;
              e.company == kl.company && e.ticker == kl.ticker && e.keys == KeywordSet(kl.keywords)
  {
    var parts := Split(row, ':');
    var c, t := parts[0], parts[1];
    StrippedRow(row);
    StripStripped(c);
    StripStripped(t);
    if FirstWord(c).Some? {
      SameKeywords(c, t, FirstWord(c).value, aliasesOf(c));
    }
  }

  /** On stripped names the two expanders start from the same candidates,
      so the set holds exactly the non-empty de-duplicated keywords. */
  lemma SameKeywords(c: string, t: string, first: string, aliases: seq<string>)
    requires IsStripped(c) && IsStripped(t)
    ensures KeywordSet(BaseKeywords(c, t, first, aliases)) == KeywordSet(Dedup(Candidates(c, t, first, aliases)))
  {
    StripStripped(c);
    StripStripped(t);
    var cs := Candidates(c, t, first, aliases);
    assert BaseKeywords(c, t, first, aliases) == cs;
    DedupMembers(cs);
  }

  /** A row of two stripped fields is itself stripped. */
  lemma StrippedRow(row: string)
    requires |Split(row, ':')| == 2
    requires IsStripped(Split(row, ':')[0]) && IsStripped(Split(row, ':')[1])
    ensures Strip(row) == row
  {
    var parts := Split(row, ':');
    JoinStrippedEnd(parts, ':');
    assert row == parts[0] + [':'] + parts[1];
    assert row[0] == if parts[0] == [] then ':' else parts[0][0];
    StripStripped(row);
  }

  /** `order(keys)` lists the set: every member once, nothing else. */
  ghost predicate Lists(ks: seq<string>, keys: set<string>) {
    Distinct(ks) && forall k :: k in ks <==> k in keys
  }

  /** Format, then load: when the order lists the set and the names and
      keywords are clean, the fetchers' loader reads the written line back
      as the stripped names and exactly the keyword set. */
  lemma RowReadsBack(row: string, aliasesOf: string -> seq<string>, order: set<string> -> seq<string>)
    requires ExpandRow(row, aliasesOf).Ok?
    requires var e := ExpandRow(row, aliasesOf).value;
             Lists(order(e.keys), e.keys) && Clean(e.company) && Clean(e.ticker) &&
             forall k :: k in e.keys ==> Clean(k)
    ensures var e := ExpandRow(row, aliasesOf).value;
            var back := ParseKeywordLine(EnrichRow(row, aliasesOf, order).value);
            back == Some(KeywordLine(e.company, e.ticker, order(e.keys))) &&
            forall k :: k in back.value.keywords <==> k in e.keys
  {
    var e := ExpandRow(row, aliasesOf).value;
    NoEmptyKey(row, aliasesOf);
    ListedReadsBack(e.company, e.ticker, order(e.keys), e.keys);
  }

  /** An expanded row has no empty keyword. */
  lemma NoEmptyKey(row: string, aliasesOf: string -> seq<string>)
    requires ExpandRow(row, aliasesOf).Ok?
    ensures "" !in ExpandRow(row, aliasesOf).value.keys
  {
  }

  /** A line listing a set of clean, non-empty keywords is read back as
      that list. */
  lemma ListedReadsBack(company: string, ticker: string, ks: seq<string>, keys: set<string>)
    requires Lists(ks, keys) && "" !in keys && Clean(company) && Clean(ticker)
    requires forall k :: k in keys ==> Clean(k)
    ensures ParseKeywordLine(FormatLine(KeywordLine(company, ticker, ks))) == Some(KeywordLine(company, ticker, ks))
  {
    var kl := KeywordLine(company, ticker, ks);
    assert forall i :: 0 <= i < |ks| ==> Clean(ks[i]) && NonEmpty(ks[i]) by {
      assert forall i :: 0 <= i < |ks| ==> ks[i] in keys;
    }
    FormatReadsBack(kl);
    FilterAll(ks, NonEmpty);
  }

  /** `[line.strip() for line in f if line.strip()]`. */
  function StrippedLine(line: string): Option<string> {
    if Strip(line) == "" then None else Some(Strip(line))
  }

  function NonBlankLines(lines: seq<string>): seq<string> {
    FilterMap(lines, StrippedLine)
  }

  /** The rows kept are stripped and non-empty, and every non-blank line is
      kept. */
  lemma NonBlankLinesShape(lines: seq<string>)
    ensures forall j :: 0 <= j < |NonBlankLines(lines)| ==> NonBlankLines(lines)[j] != "" && IsStripped(NonBlankLines(lines)[j])
    ensures forall i :: 0 <= i < |lines| && Strip(lines[i]) != "" ==> Strip(lines[i]) in NonBlankLines(lines)
  {
    var rows := NonBlankLines(lines);
    forall j | 0 <= j < |rows|
      ensures rows[j] != "" && IsStripped(rows[j])
    {
      var i :| 0 <= i < |lines| && StrippedLine(lines[i]) == Some(rows[j]);
    }
  }

  /** The line a row produces, as one step of the comprehension. */
  function RowLine(aliasesOf: string -> seq<string>, order: set<string> -> seq<string>): string -> Result<string, EnrichError> {
    (row: string) => EnrichRow(row, aliasesOf, order)
  }

  /** `[expand_keywords(line) for line in lines]`: the first failing row
      stops the script. */
  function EnrichAll(rows: seq<string>, aliasesOf: string -> seq<string>, order: set<string> -> seq<string>): Result<seq<string>, EnrichError> {
    MapResult(rows, RowLine(aliasesOf, order))
  }

  /** The run fails exactly when some row does, with the error of the first
      failing row; otherwise there is one written line per row, in order. */
  lemma EnrichAllResult(rows: seq<string>, aliasesOf: string -> seq<string>, order: set<string> -> seq<string>)
    ensures EnrichAll(rows, aliasesOf, order).Err? <==> exists i :: 0 <= i < |rows| && ExpandRow(rows[i], aliasesOf).Err?
    ensures EnrichAll(rows, aliasesOf, order).Err? ==>
              exists i :: 0 <= i < |rows| && ExpandRow(rows[i], aliasesOf) == Err(EnrichAll(rows, aliasesOf, order).error) &&
                          forall j :: 0 <= j < i ==> ExpandRow(rows[j], aliasesOf).Ok?
    ensures EnrichAll(rows, aliasesOf, order).Ok? ==>
              var out := EnrichAll(rows, aliasesOf, order).value;
              |out| == |rows| && forall i :: 0 <= i < |rows| ==> EnrichRow(rows[i], aliasesOf, order) == Ok(out[i])
  {
    MapResultFacts(rows, RowLine(aliasesOf, order));
  }

  /** The whole script: the text written to `enriched_keywords.txt`, one
      line per non-blank input line. */
  function Script(lines: seq<string>, aliasesOf: string -> seq<string>, order: set<string> -> seq<string>): Result<string, EnrichError> {
    match EnrichAll(NonBlankLines(lines), aliasesOf, order)
    case Err(e) => Err(e)
    case Ok(out) => Ok(Join(out, '\n'))
  }

  /** The script fails exactly when some non-blank line fails to expand;
      otherwise, when no written line holds a newline, splitting the text on
      newlines gives one written line per non-blank input line. */
  lemma ScriptResult(lines: seq<string>, aliasesOf: string -> seq<string>, order: set<string> -> seq<string>)
    ensures Script(lines, aliasesOf, order).Err? <==> exists i :: 0 <= i < |NonBlankLines(lines)| && ExpandRow(NonBlankLines(lines)[i], aliasesOf).Err?
    ensures Script(lines, aliasesOf, order).Ok? && NonBlankLines(lines) != [] &&
            (forall i :: 0 <= i < |EnrichAll(NonBlankLines(lines), aliasesOf, order).value| ==>
               '\n' !in EnrichAll(NonBlankLines(lines), aliasesOf, order).value[i]) ==>
              var text := Script(lines, aliasesOf, order).value;
              |Split(text, '\n')| == |NonBlankLines(lines)| &&
              forall i :: 0 <= i < |Split(text, '\n')| ==> EnrichRow(NonBlankLines(lines)[i], aliasesOf, order) == Ok(Split(text, '\n')[i])
  {
    var rows := NonBlankLines(lines);
    EnrichAllResult(rows, aliasesOf, order);
    var r := EnrichAll(rows, aliasesOf, order);
    if r.Ok? && rows != [] && forall i :: 0 <= i < |r.value| ==> '\n' !in r.value[i] {
      SplitJoin(r.value, '\n');
    }
  }
}
