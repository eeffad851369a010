/** The three relevance tests: a fixed keyword list against the whole row,
    per-ticker keywords against the actor names, and first-match ticker lookup. */
module Matching {
  import opened Wrappers
  import opened Text
  import opened Rows

  /** `any(kw.lower() in text for kw in keywords)`. */
  function AnyKeywordIn(text: string, keywords: seq<string>): (r: bool)
    ensures r <==> exists i :: 0 <= i < |keywords| && Contains(text, Lower(keywords[i]))
  {
    if keywords == [] then false
    else Contains(text, Lower(keywords[0])) || AnyKeywordIn(text, keywords[1..])
  }

  /** The actor-name match text: `(Actor1Name.fillna('') + ' ' +
      Actor2Name.fillna('')).lower()`. */
  function ActorText(row: Row): string {
    Lower(row.actor1.GetOr("") + " " + row.actor2.GetOr(""))
  }

  /** A row is about a ticker when one of the ticker's keywords, lower-cased,
      occurs in the lower-cased actor names. */
  predicate ActorMatch(row: Row, keywords: seq<string>) {
    AnyKeywordIn(ActorText(row), keywords)
  }

  /** A keyword that occurs in either actor name selects the row, whatever
      the case of the name. */
  lemma ActorNameMatch(row: Row, keywords: seq<string>, i: nat)
    requires i < |keywords|
    requires Contains(Lower(row.actor1.GetOr("")), Lower(keywords[i]))
      || Contains(Lower(row.actor2.GetOr("")), Lower(keywords[i]))
    ensures ActorMatch(row, keywords)
  {
    var a1, a2 := row.actor1.GetOr(""), row.actor2.GetOr("");
    LowerConcat(a1, " " + a2);
    LowerConcat(" ", a2);
    assert ActorText(row) == Lower(a1) + (Lower(" ") + Lower(a2));
    ContainsInConcat(Lower(a1), Lower(" ") + Lower(a2), Lower(keywords[i]));
    ContainsInConcat(Lower(" "), Lower(a2), Lower(keywords[i]));
  }

  /** The fixed list of `apple_fetcher.py`. */
  const AppleKeywords: seq<string> := ["Apple", "AAPL", "Tim Cook", "iPhone", "Macbook"]

  /** A row is kept when one of the keywords, lower-cased, occurs anywhere
      in the lower-cased printed row. */
  predicate FullRowMatch(row: Row, keywords: seq<string>) {
    AnyKeywordIn(Lower(row.text), keywords)
  }

  /** The position of the first ticker, in list order, occurring in `text`. */
  function FirstMatch(text: string, tickers: seq<string>): (r: Option<nat>)
    ensures r.None? <==> forall i :: 0 <= i < |tickers| ==> !Contains(text, tickers[i])
    ensures r.Some? ==> r.value < |tickers| && Contains(text, tickers[r.value])
    ensures r.Some? ==> forall j :: 0 <= j < r.value ==> !Contains(text, tickers[j])
  {
    if tickers == [] then None
    else if Contains(text, tickers[0]) then Some(0)
    else
      match FirstMatch(text, tickers[1..])
      case None => None
      case Some(i) => Some(i + 1)
  }

  /** `assign_ticker`: the upper-cased first ticker of the lower-cased list
      that occurs in the lower-cased printed row; None when there is none. A
      row is attributed to at most one ticker. */
  function AssignTicker(text: string, tickersLower: seq<string>): (r: Option<string>)
    ensures r.None? <==> forall i :: 0 <= i < |tickersLower| ==> !Contains(Lower(text), tickersLower[i])
    ensures r.Some? ==> exists i :: 0 <= i < |tickersLower| && r.value == Upper(tickersLower[i])
                                    && Contains(Lower(text), tickersLower[i])
                                    && forall j :: 0 <= j < i ==> !Contains(Lower(text), tickersLower[j])
  {
    match FirstMatch(Lower(text), tickersLower)
    case None => None
    case Some(i) => Some(Upper(tickersLower[i]))
  }

  /** The tie-break: when the first ticker of the list occurs, it wins over
      every later one that occurs too. */
  lemma FirstTickerWins(text: string, tickersLower: seq<string>)
    requires tickersLower != [] && Contains(Lower(text), tickersLower[0])
    ensures AssignTicker(text, tickersLower) == Some(Upper(tickersLower[0]))
  {
  }
}
