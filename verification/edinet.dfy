/** The filing search of the EDINET client (`search_documents`), after the
    HTTP round trip: the listing's status check and the chain of optional
    filters (security-code prefix, ordinance code, form code) over the
    returned filing records. The request itself is a parameter. */
module Edinet {
  import opened Outcomes

  /** One filing record of the listing; `None` means the key is absent. */
  datatype Filing = Filing(
    docId: string,
    secCode: Option<string>,
    ordinanceCode: Option<string>,
    formCode: Option<string>
  )

  /** The decoded listing: the metadata's status and the results list. */
  datatype Listing = Listing(status: Option<string>, results: Option<seq<Filing>>)

  /** The optional search filters. */
  datatype Query = Query(secCode: Option<string>, ordinanceCode: Option<string>, formCode: Option<string>)

  /** The client's single error kind: the transport failed, or the listing
      reported a status other than "200". */
  datatype EdinetApiError = RequestFailed | BadStatus(status: Option<string>)

  const OkStatus: string := "200"

  /** A 4-digit security code is compared with the first four digits of the
      registry's 5-digit code. */
  const SecPrefixLength: nat := 4

  /** Python's `s[:4]`: the first four characters, or all of a shorter string. */
  function Prefix(s: string): (p: string)
    ensures |p| == if |s| < SecPrefixLength then |s| else SecPrefixLength
    ensures p <= s
  {
    if |s| < SecPrefixLength then s else s[..SecPrefixLength]
  }

  /** A filter argument takes effect only when truthy: present and non-empty. */
  predicate Given(arg: Option<string>) {
    arg.Some? && arg.value != ""
  }

  /** The security-code test: the record has a non-empty code whose first
      four characters equal the first four of the query. */
  predicate SecCodeMatches(f: Filing, code: string) {
    f.secCode.Some? && f.secCode.value != "" && Prefix(f.secCode.value) == Prefix(code)
  }

  /** Keeps, in order, the records `accept` holds for (a list comprehension). */
  function Keep(fs: seq<Filing>, accept: Filing -> bool): (r: seq<Filing>)
    ensures |r| <= |fs|
    ensures forall f :: f in r <==> f in fs && accept(f)
    ensures forall f {:trigger multiset(r)[f]} :: multiset(r)[f] == if accept(f) then multiset(fs)[f] else 0
  {
    if fs == [] then []
    else
      assert fs == [fs[0]] + fs[1..];
      if accept(fs[0]) then [fs[0]] + Keep(fs[1..], accept)
      else Keep(fs[1..], accept)
  }

  function BySecCode(q: Query): Filing -> bool {
    (f: Filing) => !Given(q.secCode) || SecCodeMatches(f, q.secCode.value)
  }

  function ByOrdinance(q: Query): Filing -> bool {
    (f: Filing) => !Given(q.ordinanceCode) || f.ordinanceCode == q.ordinanceCode
  }

  function ByForm(q: Query): Filing -> bool {
    (f: Filing) => !Given(q.formCode) || f.formCode == q.formCode
  }

  /** The combined condition a record must meet to be returned. */
  predicate Accepts(q: Query, f: Filing) {
    (Given(q.secCode) ==> SecCodeMatches(f, q.secCode.value))
    && (Given(q.ordinanceCode) ==> f.ordinanceCode == q.ordinanceCode)
    && (Given(q.formCode) ==> f.formCode == q.formCode)
  }

  function AcceptsAll(q: Query): Filing -> bool {
    (f: Filing) => Accepts(q, f)
  }

  /** `search_documents` after the request: a transport failure or a status
      other than "200" is an error; an absent results list is empty; then
      the three filters in turn. */
  function SearchDocuments(reply: Option<Listing>, q: Query): (r: Result<seq<Filing>, EdinetApiError>)
    ensures reply.None? ==> r == Err(RequestFailed)
    ensures reply.Some? ==> (r.Err? <==> reply.value.status != Some(OkStatus))
    ensures reply.Some? && r.Err? ==> r.error == BadStatus(reply.value.status)
    ensures r.Ok? ==> forall f :: f in r.value <==> f in reply.value.results.GetOr([]) && Accepts(q, f)
    ensures r.Ok? ==> forall f :: multiset(r.value)[f] ==
                                  if Accepts(q, f) then multiset(reply.value.results.GetOr([]))[f] else 0
  {
    match reply
    case None => Err(RequestFailed)
    case Some(listing) =>
      if listing.status != Some(OkStatus) then Err(BadStatus(listing.status))
      else
        var all := listing.results.GetOr([]);
        Ok(Keep(Keep(Keep(all, BySecCode(q)), ByOrdinance(q)), ByForm(q)))
  }

  /** `xs` occurs in `ys` in order, possibly with gaps. */
  predicate IsSubsequence(xs: seq<Filing>, ys: seq<Filing>)
    decreases |ys|
  {
    if xs == [] then true
    else if ys == [] then false
    else if xs[0] == ys[0] then IsSubsequence(xs[1..], ys[1..])
    else IsSubsequence(xs, ys[1..])
  }

  /** Filtering keeps the records in their listing order. */
  lemma {:induction false} KeepIsSubsequence(fs: seq<Filing>, accept: Filing -> bool)
    ensures IsSubsequence(Keep(fs, accept), fs)
  {
    if fs != [] {
      KeepIsSubsequence(fs[1..], accept);
      if !accept(fs[0]) {
        SkipHead(Keep(fs[1..], accept), fs);
      }
    }
  }

  /** Putting a record in front of a sequence keeps its subsequences. */
  lemma {:induction false} SkipHead(xs: seq<Filing>, ys: seq<Filing>)
    requires ys != []
    requires IsSubsequence(xs, ys[1..])
    ensures IsSubsequence(xs, ys)
    decreases |ys|, 1
  {
    if xs != [] && xs[0] == ys[0] {
      SubsequenceTail(xs, ys[1..]);
    }
  }

  /** Dropping the head of a subsequence keeps it a subsequence. */
  lemma {:induction false} SubsequenceTail(xs: seq<Filing>, ys: seq<Filing>)
    requires xs != []
    requires IsSubsequence(xs, ys)
    ensures IsSubsequence(xs[1..], ys)
    decreases |ys|, 2
  {
    if xs[0] != ys[0] {
      SubsequenceTail(xs, ys[1..]);
    }
    SkipHead(xs[1..], ys);
  }

  /** Filtering never duplicates a record: every record occurs in the result
      at most as often as in the listing. */
  lemma KeepMultiset(fs: seq<Filing>, accept: Filing -> bool)
    ensures multiset(Keep(fs, accept)) <= multiset(fs)
  {
    var r := Keep(fs, accept);
    assert forall f :: multiset(r)[f] <= multiset(fs)[f];
  }

  /** Two filters in a row are one filter on both conditions. */
  lemma {:induction false} KeepKeep(fs: seq<Filing>, p: Filing -> bool, q: Filing -> bool)
    ensures Keep(Keep(fs, p), q) == Keep(fs, f => p(f) && q(f))
  {
    if fs != [] {
      KeepKeep(fs[1..], p, q);
    }
  }

  /** Filtering on the same condition twice is filtering once. */
  lemma KeepIdempotent(fs: seq<Filing>, p: Filing -> bool)
    ensures Keep(Keep(fs, p), p) == Keep(fs, p)
  {
    KeepKeep(fs, p, p);
    KeepExtensional(fs, f => p(f) && p(f), p);
  }

  /** Filtering depends only on which records the condition accepts. */
  lemma {:induction false} KeepExtensional(fs: seq<Filing>, p: Filing -> bool, q: Filing -> bool)
    requires forall f :: p(f) == q(f)
    ensures Keep(fs, p) == Keep(fs, q)
  {
    if fs != [] {
      KeepExtensional(fs[1..], p, q);
    }
  }

  /** The order of the filters does not matter. */
  lemma FiltersCommute(fs: seq<Filing>, p: Filing -> bool, q: Filing -> bool)
    ensures Keep(Keep(fs, p), q) == Keep(Keep(fs, q), p)
  {
    KeepKeep(fs, p, q);
    KeepKeep(fs, q, p);
    KeepExtensional(fs, f => p(f) && q(f), f => q(f) && p(f));
  }

  /** A condition every record meets keeps the listing unchanged. */
  lemma {:induction false} KeepAll(fs: seq<Filing>, p: Filing -> bool)
    requires forall i :: 0 <= i < |fs| ==> p(fs[i])
    ensures Keep(fs, p) == fs
  {
    if fs != [] {
      KeepAll(fs[1..], p);
    }
  }

  /** The three filters in a row are one filter on the combined condition. */
  lemma FilterChain(fs: seq<Filing>, q: Query)
    ensures Keep(Keep(Keep(fs, BySecCode(q)), ByOrdinance(q)), ByForm(q)) == Keep(fs, AcceptsAll(q))
  {
    var p1, p2, p3 := BySecCode(q), ByOrdinance(q), ByForm(q);
    var p12 := f => p1(f) && p2(f);
    KeepKeep(fs, p1, p2);
    KeepKeep(fs, p12, p3);
    KeepExtensional(fs, f => p12(f) && p3(f), AcceptsAll(q));
  }

  /** The search result is exactly the listing filtered on the combined
      condition, in listing order. */
  lemma SearchIsOneFilter(listing: Listing, q: Query)
    requires listing.status == Some(OkStatus)
    ensures SearchDocuments(Some(listing), q)
            == Ok(Keep(listing.results.GetOr([]), AcceptsAll(q)))
  {
    FilterChain(listing.results.GetOr([]), q);
  }

  /** The search result keeps the listing's order, never repeats a record,
      and keeps every copy of an accepted record. */
  lemma SearchKeepsOrder(listing: Listing, q: Query)
    requires listing.status == Some(OkStatus)
    ensures IsSubsequence(SearchDocuments(Some(listing), q).value, listing.results.GetOr([]))
    ensures multiset(SearchDocuments(Some(listing), q).value) <= multiset(listing.results.GetOr([]))
    ensures forall f :: multiset(SearchDocuments(Some(listing), q).value)[f] ==
                        if Accepts(q, f) then multiset(listing.results.GetOr([]))[f] else 0
  {
    SearchIsOneFilter(listing, q);
    KeepIsSubsequence(listing.results.GetOr([]), AcceptsAll(q));
    KeepMultiset(listing.results.GetOr([]), AcceptsAll(q));
  }

  /** Without a (truthy) filter argument the whole listing is returned. */
  lemma NoFilterReturnsAll(listing: Listing, q: Query)
    requires listing.status == Some(OkStatus)
    requires !Given(q.secCode) && !Given(q.ordinanceCode) && !Given(q.formCode)
    ensures SearchDocuments(Some(listing), q) == Ok(listing.results.GetOr([]))
  {
    SearchIsOneFilter(listing, q);
    KeepAll(listing.results.GetOr([]), AcceptsAll(q));
  }

  /** Only the first four characters of the query's security code matter: a
      5-digit registry code finds the same records as its 4-digit stem. */
  lemma SecCodeUsesPrefixOnly(listing: Listing, q: Query, code: string)
    requires listing.status == Some(OkStatus)
    requires Given(q.secCode) && code != ""
    requires Prefix(code) == Prefix(q.secCode.value)
    ensures SearchDocuments(Some(listing), q) == SearchDocuments(Some(listing), q.(secCode := Some(code)))
  {
    var q' := q.(secCode := Some(code));
    SearchIsOneFilter(listing, q);
    SearchIsOneFilter(listing, q');
    KeepExtensional(listing.results.GetOr([]), AcceptsAll(q), AcceptsAll(q'));
  }

  /** A 4-digit query keeps the two filings whose 5-digit codes start with
      it, in listing order. */
  lemma SecCodeExample()
    ensures var a := Filing("S100A", Some("58190"), None, None);
            var b := Filing("S100B", Some("12340"), None, None);
            var c := Filing("S100C", Some("58195"), None, None);
            SearchDocuments(Some(Listing(Some("200"), Some([a, b, c]))), Query(Some("5819"), None, None))
            == Ok([a, c])
  {
    var a := Filing("S100A", Some("58190"), None, None);
    var b := Filing("S100B", Some("12340"), None, None);
    var c := Filing("S100C", Some("58195"), None, None);
    var q := Query(Some("5819"), None, None);
    var accept := AcceptsAll(q);
    assert Prefix("5819") == "5819";
    assert Prefix("58190") == "5819" && Prefix("58195") == "5819";
    assert Prefix("12340") == "1234";
    assert Accepts(q, a) && !Accepts(q, b) && Accepts(q, c);
    assert [a, b, c][1..] == [b, c] && [b, c][1..] == [c];
    assert Keep([a, b, c], accept) == [a] + Keep([b, c], accept);
    assert Keep([c], accept) == [c];
    assert Keep([b, c], accept) == [c];
    assert Keep([a, b, c], accept) == [a, c];
    SearchIsOneFilter(Listing(Some("200"), Some([a, b, c])), q);
    assert SearchDocuments(Some(Listing(Some("200"), Some([a, b, c]))), q) == Ok([a, c]);
  }

  /** Ordinance "010" and form "030000" together select the annual report only. */
  lemma OrdinanceAndFormExample()
    ensures var a := Filing("S100A", None, Some("010"), Some("030000"));
            var b := Filing("S100B", None, Some("010"), Some("043000"));
            var c := Filing("S100C", None, Some("020"), Some("999999"));
            SearchDocuments(Some(Listing(Some("200"), Some([a, b, c]))), Query(None, Some("010"), Some("030000")))
            == Ok([a])
  {
    var a := Filing("S100A", None, Some("010"), Some("030000"));
    var b := Filing("S100B", None, Some("010"), Some("043000"));
    var c := Filing("S100C", None, Some("020"), Some("999999"));
    var q := Query(None, Some("010"), Some("030000"));
    var accept := AcceptsAll(q);
    assert Accepts(q, a) && !Accepts(q, b) && !Accepts(q, c);
    assert [a, b, c][1..] == [b, c] && [b, c][1..] == [c];
    assert Keep([a, b, c], accept) == [a] + Keep([b, c], accept);
    assert Keep([c], accept) == [];
    assert Keep([b, c], accept) == [];
    assert Keep([a, b, c], accept) == [a];
    SearchIsOneFilter(Listing(Some("200"), Some([a, b, c])), q);
    assert SearchDocuments(Some(Listing(Some("200"), Some([a, b, c]))), q) == Ok([a]);
  }

  /** A listing with status "400" is an error whatever its results. */
  lemma BadStatusExample(results: Option<seq<Filing>>, q: Query)
    ensures SearchDocuments(Some(Listing(Some("400"), results)), q) == Err(BadStatus(Some("400")))
  {
  }
}
