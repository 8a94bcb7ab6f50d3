/**
 * The catalogue page: the filter pipeline over category, shape, technique,
 * embroidery style and a free-text search, the five-fold repetition of the
 * result with its list keys, the reset button and the query string that
 * carries the choices to the contact page. The product list itself is a
 * parameter.
 */
module Products {
  import opened Wrappers
  import opened Strings
  import opened Query
  import opened Types
  import Contact

  /** The visitor's choices. `category` comes from the URL, the rest from
      the page's own controls. */
  datatype Filters = Filters(
    category: string, shape: string, technique: string, embroidery: string, searchQuery: string)

  /** The choices when the page opens: `category` from the query string,
      defaulting to `all`, and every control at `all` with an empty search. */
  function InitialFilters(params: seq<(string, string)>): (f: Filters)
    ensures f.shape == "all" && f.technique == "all" && f.embroidery == "all" && f.searchQuery == ""
    ensures f.category == "all" <==> Lookup(params, "category") in {None, Some(""), Some("all")}
  {
    Filters(Contact.ParamOr(params, "category", "all"), "all", "all", "all", "")
  }

  // ---------------------------------------------------------------------------
  // The filter
  // ---------------------------------------------------------------------------

  /** A product without a technique is printed. */
  function TechniqueOf(p: Product): string {
    TextOr(p.technique, "print")
  }

  /** A product without an embroidery style has none. */
  function EmbroideryOf(p: Product): string {
    TextOr(p.embroideryStyle, "none")
  }

  predicate MatchesCategory(p: Product, f: Filters) {
    f.category == "all" || p.category == f.category
  }

  /** The shape choice is compared with the product's category. */
  predicate MatchesShape(p: Product, f: Filters) {
    f.shape == "all" || p.category == f.shape
  }

  /** A `both` product matches every technique; choosing `both` asks for
      `both` products. */
  predicate MatchesTechnique(p: Product, f: Filters) {
    var technique := TechniqueOf(p);
    f.technique == "all" || technique == f.technique || (f.technique != "both" && technique == "both")
  }

  predicate MatchesEmbroidery(p: Product, f: Filters) {
    f.embroidery == "all" || EmbroideryOf(p) == f.embroidery
  }

  /** The search text as compared: lower-cased, then trimmed. */
  function SearchText(f: Filters): string {
    Trim(ToLower(f.searchQuery))
  }

  /** The description searched: the Arabic one for Arabic, otherwise the
      English one when present. */
  function SearchedDescription(p: Product, isAr: bool): string {
    if isAr then p.description else TextOr(p.descriptionEn, p.description)
  }

  /** The query occurs in the lower-cased Arabic name, English name or
      description. */
  predicate MatchesSearch(p: Product, query: string, isAr: bool) {
    || Contains(ToLower(p.name), query)
    || Contains(ToLower(TextOr(p.nameEn, "")), query)
    || Contains(ToLower(SearchedDescription(p, isAr)), query)
  }

  /** The filter callback: the four choices, and the search unless blank. */
  predicate Matches(p: Product, f: Filters, isAr: bool) {
    var query := SearchText(f);
    if query == "" then
      MatchesCategory(p, f) && MatchesShape(p, f) && MatchesTechnique(p, f) && MatchesEmbroidery(p, f)
    else
      && MatchesCategory(p, f) && MatchesShape(p, f) && MatchesTechnique(p, f) && MatchesEmbroidery(p, f)
      && MatchesSearch(p, query, isAr)
  }

  /** `products.filter(...)`: the matching products in catalogue order. */
  function FilterProducts(ps: seq<Product>, f: Filters, isAr: bool): (r: seq<Product>)
    ensures |r| <= |ps|
    ensures forall p :: p in r <==> p in ps && Matches(p, f, isAr)
    decreases |ps|
  {
    if |ps| == 0 then []
    else
      var rest := FilterProducts(ps[1..], f, isAr);
      assert forall p :: p in ps <==> p == ps[0] || p in ps[1..];
      if Matches(ps[0], f, isAr) then [ps[0]] + rest else rest
  }

  /** The filter keeps catalogue order. */
  lemma {:induction false} FilterKeepsOrder(ps: seq<Product>, f: Filters, isAr: bool)
    ensures SubsequenceOf(FilterProducts(ps, f, isAr), ps)
    decreases |ps|
  {
    if |ps| > 0 {
      FilterKeepsOrder(ps[1..], f, isAr);
    }
  }

  // ---------------------------------------------------------------------------
  // The displayed list
  // ---------------------------------------------------------------------------

  /** A product as listed, with the key React uses for its card. */
  datatype Listed = Listed(product: Product, uniqueKey: string)

  /** How many times the matches are repeated to fill the grid. */
  const Repeats := 5

  /** The key of the card at position `idx`. */
  function UniqueKey(p: Product, idx: nat, searchQuery: string): string {
    p.id + "-" + NatToString(idx) + "-" + searchQuery
  }

  /** A list repeated five times, each card keyed by its position. */
  function Repeated(matches: seq<Product>, searchQuery: string): (r: seq<Listed>)
    ensures |r| == Repeats * |matches|
    ensures forall i :: 0 <= i < |r| ==> r[i].product == matches[i % |matches|]
    ensures forall i :: 0 <= i < |r| ==> r[i].uniqueKey == UniqueKey(r[i].product, i, searchQuery)
  {
    if |matches| == 0 then []
    else
      var n := |matches|;
      seq(Repeats * n, i requires 0 <= i < Repeats * n =>
        Listed(matches[i % n], UniqueKey(matches[i % n], i, searchQuery)))
  }

  /** The matches repeated five times, each card keyed by its position. */
  function DisplayProducts(ps: seq<Product>, f: Filters, isAr: bool): (r: seq<Listed>)
    ensures var matches := FilterProducts(ps, f, isAr);
            && |r| == Repeats * |matches|
            && (forall i :: 0 <= i < |r| ==> r[i].product == matches[i % |matches|])
            && (forall i :: 0 <= i < |r| ==> r[i].uniqueKey == UniqueKey(r[i].product, i, f.searchQuery))
  {
    Repeated(FilterProducts(ps, f, isAr), f.searchQuery)
  }

  /** Nothing is listed exactly when no product matches; otherwise every
      match appears five times, and nothing else appears. */
  lemma DisplayListsMatches(ps: seq<Product>, f: Filters, isAr: bool)
    ensures var r := DisplayProducts(ps, f, isAr);
            r == [] <==> forall p :: p in ps ==> !Matches(p, f, isAr)
    ensures var r := DisplayProducts(ps, f, isAr);
            forall i :: 0 <= i < |r| ==> r[i].product in ps && Matches(r[i].product, f, isAr)
  {
    var matches := FilterProducts(ps, f, isAr);
    var r := DisplayProducts(ps, f, isAr);
    if |matches| > 0 {
      assert matches[0] in matches;
    }
    forall i | 0 <= i < |r|
      ensures r[i].product in ps && Matches(r[i].product, f, isAr)
    {
      assert r[i].product in matches;
    }
  }

  /** `a-d` fixes `d` when neither `d` nor the other candidate contains `-`. */
  lemma SuffixAfterDash(a1: string, d1: string, a2: string, d2: string)
    requires '-' !in d1 && '-' !in d2
    requires a1 + "-" + d1 == a2 + "-" + d2
    ensures d1 == d2
  {
    var x := a1 + "-" + d1;
    assert x[|x| - |d1| - 1] == '-';
    assert x[|x| - |d2| - 1] == '-';
    assert forall k :: 0 <= k < |d1| ==> x[|x| - |d1| + k] == d1[k];
    assert forall k :: 0 <= k < |d2| ==> x[|x| - |d2| + k] == d2[k];
    assert |d1| == |d2|;
    assert d1 == x[|x| - |d1|..] == d2;
  }

  /** Digits contain no `-`. */
  lemma NoDashInDigits(s: string)
    requires AllDigits(s)
    ensures '-' !in s
  {
  }

  /** Cards at different positions carry different keys, whatever the
      product ids look like. */
  lemma UniqueKeysDistinct(p: Product, i: nat, q: Product, j: nat, searchQuery: string)
    requires i != j
    ensures UniqueKey(p, i, searchQuery) != UniqueKey(q, j, searchQuery)
  {
    if UniqueKey(p, i, searchQuery) == UniqueKey(q, j, searchQuery) {
      var di := NatToString(i);
      var dj := NatToString(j);
      var tail := "-" + searchQuery;
      var x := UniqueKey(p, i, searchQuery);
      assert x == (p.id + "-" + di) + tail;
      assert x == (q.id + "-" + dj) + tail;
      assert p.id + "-" + di == x[..|x| - |tail|] == q.id + "-" + dj;
      NoDashInDigits(di);
      NoDashInDigits(dj);
      SuffixAfterDash(p.id, di, q.id, dj);
      NatToStringInjective(i, j);
    }
  }

  /** The keys of the listed cards are pairwise distinct. */
  lemma DisplayKeysDistinct(ps: seq<Product>, f: Filters, isAr: bool)
    ensures var r := DisplayProducts(ps, f, isAr);
            forall i, j :: 0 <= i < j < |r| ==> r[i].uniqueKey != r[j].uniqueKey
  {
    var r := DisplayProducts(ps, f, isAr);
    forall i, j | 0 <= i < j < |r|
      ensures r[i].uniqueKey != r[j].uniqueKey
    {
      UniqueKeysDistinct(r[i].product, i, r[j].product, j, f.searchQuery);
    }
  }

  // ---------------------------------------------------------------------------
  // The rules of the filter
  // ---------------------------------------------------------------------------

  /** A choice of `all` constrains nothing: with every choice `all` and a
      blank search, every product is listed. */
  lemma AllChoicesKeepEverything(p: Product, searchQuery: string, isAr: bool)
    requires IsBlank(ToLower(searchQuery))
    ensures Matches(p, Filters("all", "all", "all", "all", searchQuery), isAr)
  {
  }

  /** The technique rule: an unset technique counts as `print`, a `both`
      product matches any choice, and choosing `both` matches only `both`
      products. */
  lemma TechniqueRule(p: Product, f: Filters)
    ensures p.technique in {None, Some("")} ==> (MatchesTechnique(p, f) <==> f.technique in {"all", "print"})
    ensures TechniqueOf(p) == "both" ==> MatchesTechnique(p, f)
    ensures f.technique == "both" ==> (MatchesTechnique(p, f) <==> TechniqueOf(p) == "both")
  {
  }

  /** An unset embroidery style counts as `none`. */
  lemma EmbroideryRule(p: Product, f: Filters)
    ensures p.embroideryStyle in {None, Some("")} ==> (MatchesEmbroidery(p, f) <==> f.embroidery in {"all", "none"})
  {
  }

  /** A blank search adds nothing; otherwise the product must also mention
      the lower-cased, trimmed query. */
  lemma SearchRule(p: Product, f: Filters, isAr: bool)
    ensures var choices := MatchesCategory(p, f) && MatchesShape(p, f) && MatchesTechnique(p, f)
                           && MatchesEmbroidery(p, f);
            && (IsBlank(ToLower(f.searchQuery)) ==> (Matches(p, f, isAr) <==> choices))
            && (!IsBlank(ToLower(f.searchQuery)) ==>
                  (Matches(p, f, isAr) <==> choices && MatchesSearch(p, SearchText(f), isAr)))
  {
  }

  // ---------------------------------------------------------------------------
  // Reset and the link to the order form
  // ---------------------------------------------------------------------------

  /** `handleResetFilters`: every choice back to `all`, the search emptied;
      the query string becomes `category=all`. */
  function ResetFilters(f: Filters): (r: (Filters, seq<(string, string)>))
    ensures r.0 == InitialFilters(r.1)
    ensures Lookup(r.1, "category") == Some("all")
  {
    (Filters("all", "all", "all", "all", ""), [("category", "all")])
  }

  /** The `name=value` pieces of the "order" link's query: the shape,
      technique and embroidery choices, each URI-encoded. */
  function QueryPieces(f: Filters): seq<string> {
    [Param("shape", f.shape), Param("technique", f.technique), Param("embroidery", f.embroidery)]
  }

  /** The query of the "order" link, `?` and the pieces joined by `&`. */
  function ContactQuery(f: Filters): (r: string)
    ensures |r| > 0 && r[0] == '?'
  {
    "?" + Join(QueryPieces(f), '&')
  }

  /** Cutting the link's query at `&` gives back the three pieces. */
  lemma ContactQuerySplits(f: Filters)
    ensures Split(ContactQuery(f)[1..], '&') == QueryPieces(f)
  {
    var pieces := QueryPieces(f);
    assert ContactQuery(f)[1..] == Join(pieces, '&');
    ParamHasNoAmpersand("shape", f.shape);
    ParamHasNoAmpersand("technique", f.technique);
    ParamHasNoAmpersand("embroidery", f.embroidery);
    SplitJoin(pieces, '&');
  }

  /** The parameter names of the link's query, and the choice each carries. */
  const ParamNames := ["shape", "technique", "embroidery"]

  function Choice(f: Filters, k: nat): string
    requires k < 3
  {
    if k == 0 then f.shape else if k == 1 then f.technique else f.embroidery
  }

  /** Each piece parses into its name and the choice. */
  lemma PieceParses(f: Filters, k: nat)
    requires k < 3 && IsAscii(Choice(f, k))
    ensures ParsePair(QueryPieces(f)[k]) == (ParamNames[k], Choice(f, k))
  {
    ParseEncodedPair(ParamNames[k], Choice(f, k));
    assert QueryPieces(f)[k] == Param(ParamNames[k], Choice(f, k));
  }

  /** The pairs parsed from the three pieces are the three choices. */
  lemma PairsOfPieces(ps: seq<(string, string)>, f: Filters)
    requires IsAscii(f.shape) && IsAscii(f.technique) && IsAscii(f.embroidery)
    requires |ps| == 3
    requires ps[0] == ParsePair(QueryPieces(f)[0])
    requires ps[1] == ParsePair(QueryPieces(f)[1])
    requires ps[2] == ParsePair(QueryPieces(f)[2])
    ensures ps[0] == ("shape", f.shape) && ps[1] == ("technique", f.technique) && ps[2] == ("embroidery", f.embroidery)
  {
    PieceParses(f, 0);
    PieceParses(f, 1);
    PieceParses(f, 2);
  }

  /** A query that splits into the three pieces parses into the three
      choices, in order. */
  lemma PiecesParse(q: string, f: Filters)
    requires IsAscii(f.shape) && IsAscii(f.technique) && IsAscii(f.embroidery)
    requires |q| > 0 && q[0] == '?' && Split(q[1..], '&') == QueryPieces(f)
    ensures ParseSearch(q) == [("shape", f.shape), ("technique", f.technique), ("embroidery", f.embroidery)]
  {
    var pieces := QueryPieces(f);
    assert pieces[0] != "" && pieces[1] != "" && pieces[2] != "";
    ParseSearchPieces(q, pieces);
    PairsOfPieces(ParseSearch(q), f);
  }

  /** The link's query parses back into the three choices, in order. */
  lemma ContactQueryParses(f: Filters)
    requires IsAscii(f.shape) && IsAscii(f.technique) && IsAscii(f.embroidery)
    ensures ParseSearch(ContactQuery(f)) == [("shape", f.shape), ("technique", f.technique), ("embroidery", f.embroidery)]
  {
    ContactQuerySplits(f);
    PiecesParse(ContactQuery(f), f);
  }

  /** The contact page reads each of the three choices out of a query that
      parsed into exactly them. */
  lemma ThreeChoicesRead(params: seq<(string, string)>, d: Contact.OrderDetails, shape: string, technique: string, embroidery: string)
    requires params == [("shape", shape), ("technique", technique), ("embroidery", embroidery)]
    ensures var r := Contact.ApplyQuery(d, params);
            && r.shape == (if shape == "" then "all" else shape)
            && r.technique == (if technique == "" then "all" else technique)
            && r.embroidery == (if embroidery == "" then "all" else embroidery)
  {
    LookupSkip(params[0], params[1..], "technique");
    LookupSkip(params[0], params[1..], "embroidery");
    LookupSkip(params[1], params[2..], "embroidery");
    assert params == [params[0]] + params[1..];
    assert params[1..] == [params[1]] + params[2..];
  }

  /** The contact page reads back, from the link's query, the choices the
      catalogue wrote into it (an empty choice reads as `all`). */
  lemma ContactReadsChoices(f: Filters, d: Contact.OrderDetails)
    requires IsAscii(f.shape) && IsAscii(f.technique) && IsAscii(f.embroidery)
    ensures var r := Contact.ApplyQuery(d, ParseSearch(ContactQuery(f)));
            && r.shape == (if f.shape == "" then "all" else f.shape)
            && r.technique == (if f.technique == "" then "all" else f.technique)
            && r.embroidery == (if f.embroidery == "" then "all" else f.embroidery)
  {
    ContactQueryParses(f);
    ThreeChoicesRead(ParseSearch(ContactQuery(f)), d, f.shape, f.technique, f.embroidery);
  }
}
