/**
 * The search request (API/PhotoAPI.swift): the closed error set, the search parameters
 * with their validation and query string, and the guard chain of `PhotoAPI.get`.
 *
 * `get` is a function here. The URL parser `URL(string:)` is the parameter `urlIsValid`,
 * and the data task's outcome is the parameter `transport`: `None` when no data arrived
 * or the data did not decode as a `PhotoAPIResponse`, otherwise the decoded envelope.
 */
module PhotoAPI {
  import opened Wrappers
  import opened Model
  import opened Decimal
  import opened QueryParsing

  /** The three ways a search request can fail. */
  datatype APIResponseError = ValidationError | URLError | TaskError {

    /** Every case has its own fixed, non-empty message. */
    function ErrorDescription(): (d: Option<string>)
      ensures d.Some? && d.value != []
    {
      match this
      case ValidationError => Some("入力エラーが発生しています")
      case URLError => Some("URLが取得出来ませんでした")
      case TaskError => Some("通信後にデータの取得が出来ませんでした")
    }
  }

  /** No two cases share a message, so the message identifies the failure. */
  lemma ErrorDescriptionsDistinct(a: APIResponseError, b: APIResponseError)
    ensures a.ErrorDescription() == b.ErrorDescription() <==> a == b
  {
  }

  /** The static credential sent with every request (a placeholder in the repository). */
  const ClientID: string := "ここにClientIDを入れる"

  /** The text of the query before the term, with the fixed page 0 and page size 30. */
  const QueryPrefix: string := "page=0&per_page=30&query="
  /** The text of the query after the term. */
  const CredentialSuffix: string := "&client_id=" + ClientID

  /** A string made of three parts gives each part back at its offsets. */
  lemma Sandwiched(a: string, t: string, b: string)
    ensures |a + t + b| == |a| + |t| + |b|
    ensures (a + t + b)[..|a|] == a && (a + t + b)[|a|..|a| + |t|] == t
    ensures (a + t + b)[|a| + |t|..] == b
  {
  }

  const BaseURL: string := "https://api.unsplash.com"
  const SearchEndPoint: string := "/search/photos?"

  /** The parameters of one search; only the term is chosen by the caller. */
  datatype PhotoSearchParameters = PhotoSearchParameters(searchWord: Option<string>) {
    const page: int := 0
    const perPage: int := 30

    /** The term as sent: a missing term is the empty string; nothing is trimmed. */
    function SearchTerm(): (t: string)
      ensures searchWord == None ==> t == ""
      ensures searchWord != None ==> t == searchWord.value
    {
      searchWord.GetOr("")
    }

    /** With the fixed page size the size bound always holds, so only the term decides. */
    predicate Validation(): (ok: bool)
      ensures ok <==> SearchTerm() != []
    {
      SearchTerm() != [] && perPage <= 50 && perPage > 0
    }

    /**
     * The query string: fixed text with the numbers 0 and 30, then the term verbatim
     * (neither trimmed nor percent-encoded), then the credential field.
     */
    function QueryParameter(): (q: string)
      ensures |q| == |QueryPrefix| + |SearchTerm()| + |CredentialSuffix|
      ensures q[..|QueryPrefix|] == QueryPrefix
      ensures q[|QueryPrefix|..|QueryPrefix| + |SearchTerm()|] == SearchTerm()
      ensures q[|QueryPrefix| + |SearchTerm()|..] == CredentialSuffix
    {
      SmallNumbersRendered();
      LayoutRegrouped(SearchTerm(), ClientID);
      Sandwiched(QueryPrefix, SearchTerm(), CredentialSuffix);
      "page=" + IntToDecimal(page) + "&per_page=" + IntToDecimal(perPage)
        + "&query=" + SearchTerm() + "&client_id=" + ClientID
    }
  }

  /** The term and the page size are what validation looks at; whitespace counts as a term. */
  lemma ValidationCases()
    ensures !PhotoSearchParameters(None).Validation()
    ensures !PhotoSearchParameters(Some("")).Validation()
    ensures PhotoSearchParameters(Some(" ")).Validation()
    ensures forall p: PhotoSearchParameters :: 0 < p.perPage <= 50 && p.page == 0
  {
  }

  /** The query string spelled out with the fixed numbers: the term sits verbatim between fixed text. */
  lemma QueryParameterLayout(p: PhotoSearchParameters)
    ensures p.QueryParameter()
      == "page=0&per_page=30&query=" + p.SearchTerm() + "&client_id=" + ClientID
  {
    SmallNumbersRendered();
    LayoutRegrouped(p.SearchTerm(), ClientID);
  }

  /** The fixed text around the term and the credential, regrouped. */
  lemma LayoutRegrouped(term: string, credential: string)
    ensures "page=" + "0" + "&per_page=" + "30" + "&query=" + term + "&client_id=" + credential
      == "page=0&per_page=30&query=" + term + "&client_id=" + credential
  {
    assert "page=" + "0" + "&per_page=" + "30" + "&query=" == "page=0&per_page=30&query=";
  }

  /** Three `&`-free fields and a tail joined by `&`: the fields come first, then the tail's own pieces. */
  lemma ThreeFieldsThen(f1: string, f2: string, f3: string, tail: string)
    requires '&' !in f1 && '&' !in f2 && '&' !in f3
    ensures Split(f1 + "&" + f2 + "&" + f3 + "&" + tail, '&') == [f1, f2, f3] + Split(tail, '&')
  {
    assert f1 + "&" + f2 + "&" + f3 + "&" + tail == f1 + ['&'] + (f2 + ['&'] + (f3 + ['&'] + tail));
    SplitAfterPiece(f1, '&', f2 + ['&'] + (f3 + ['&'] + tail));
    SplitAfterPiece(f2, '&', f3 + ['&'] + tail);
    SplitAfterPiece(f3, '&', tail);
  }

  /** The request's fields `page`, `per_page` and `query` read back; any other name is looked up in what follows. */
  lemma LeadingFields(term: string, rest: seq<string>, other: string)
    requires other != "page" && other != "per_page" && other != "query"
    ensures var fields := [Field("page", "0"), Field("per_page", "30"), Field("query", term)] + rest;
      && Lookup(fields, "page") == Some("0")
      && Lookup(fields, "per_page") == Some("30")
      && Lookup(fields, "query") == Some(term)
      && Lookup(fields, other) == Lookup(rest, other)
  {
    var f3 := [Field("query", term)] + rest;
    var f2 := [Field("per_page", "30")] + f3;
    var f1 := [Field("page", "0")] + f2;
    assert f1 == [Field("page", "0"), Field("per_page", "30"), Field("query", term)] + rest;
    FieldLookup("page", "0", f2, "page");
    FieldLookup("page", "0", f2, "per_page");
    FieldLookup("page", "0", f2, "query");
    FieldLookup("page", "0", f2, other);
    FieldLookup("per_page", "30", f3, "per_page");
    FieldLookup("per_page", "30", f3, "query");
    FieldLookup("per_page", "30", f3, other);
    FieldLookup("query", term, rest, "query");
    FieldLookup("query", term, rest, other);
  }

  /** The query string as its four `&`-separated fields, the term kept whole inside the third. */
  lemma QueryParameterShape(p: PhotoSearchParameters)
    ensures p.QueryParameter()
      == Field("page", "0") + "&" + Field("per_page", "30") + "&" + Field("query", p.SearchTerm())
         + "&" + Field("client_id", ClientID)
  {
    QueryParameterLayout(p);
    FieldsRegrouped(p.SearchTerm(), ClientID);
  }

  /** The request's text as four fields joined by `&`. */
  lemma FieldsRegrouped(term: string, credential: string)
    ensures "page=0&per_page=30&query=" + term + "&client_id=" + credential
      == Field("page", "0") + "&" + Field("per_page", "30") + "&" + Field("query", term)
         + "&" + Field("client_id", credential)
  {
    assert Field("page", "0") + "&" + Field("per_page", "30") + "&" + "query=" == "page=0&per_page=30&query=";
    assert "&" + Field("client_id", credential) == "&client_id=" + credential;
  }

  /** The leading fields of the request's query are free of `&`, and so is its credential field. */
  lemma FixedFieldsSepFree()
    ensures '&' !in Field("page", "0") && '&' !in Field("per_page", "30")
    ensures '&' !in Field("client_id", ClientID)
  {
  }

  /**
   * The fields of a query of the request's shape up to a `&`-free query field: they
   * read back, and the credential is looked up in what follows.
   */
  lemma LeadingFieldsOf(q: string, term: string, tail: string)
    requires '&' !in term
    requires q == Field("page", "0") + "&" + Field("per_page", "30") + "&" + Field("query", term) + "&" + tail
    ensures QueryValue(q, "page") == Some("0") && QueryValue(q, "per_page") == Some("30")
    ensures QueryValue(q, "query") == Some(term)
    ensures QueryValue(q, "client_id") == Lookup(Split(tail, '&'), "client_id")
  {
    FixedFieldsSepFree();
    assert '&' !in Field("query", term);
    ThreeFieldsThen(Field("page", "0"), Field("per_page", "30"), Field("query", term), tail);
    LeadingFields(term, Split(tail, '&'), "client_id");
  }

  /** The fields of a query of the request's shape whose term has no `&`. */
  lemma FieldsOfPlainTerm(q: string, term: string, credential: string)
    requires '&' !in term && credential == Field("client_id", ClientID)
    requires q == Field("page", "0") + "&" + Field("per_page", "30") + "&" + Field("query", term) + "&" + credential
    ensures QueryValue(q, "page") == Some("0") && QueryValue(q, "per_page") == Some("30")
    ensures QueryValue(q, "query") == Some(term) && QueryValue(q, "client_id") == Some(ClientID)
  {
    LeadingFieldsOf(q, term, credential);
    FixedFieldsSepFree();
    SplitWithoutSeparator(credential, '&');
    FieldLookup("client_id", ClientID, [], "client_id");
  }

  /** The fields of a query of the request's shape, for any term. */
  lemma FieldsOfAnyTerm(q: string, term: string, credential: string)
    requires credential == Field("client_id", ClientID)
    requires q == Field("page", "0") + "&" + Field("per_page", "30") + "&" + Field("query", term) + "&" + credential
    ensures QueryValue(q, "page") == Some("0") && QueryValue(q, "per_page") == Some("30")
    ensures QueryValue(q, "query") == Some(term) <==> '&' !in term
    ensures '&' !in term ==> QueryValue(q, "client_id") == Some(ClientID)
  {
    if '&' !in term {
      FieldsOfPlainTerm(q, term, credential);
    } else {
      var cut := SplitAtFirst(term, '&').value;
      var tail := cut.1 + "&" + credential;
      QueryCutRegrouped(Field("page", "0") + "&" + Field("per_page", "30") + "&", cut.0, cut.1, credential);
      LeadingFieldsOf(q, cut.0, tail);
      assert |cut.0| < |term|;
    }
  }

  /** A term `before&after` regrouped so that `before` closes the query field. */
  lemma QueryCutRegrouped(prefix: string, before: string, after: string, credential: string)
    ensures prefix + Field("query", before + "&" + after) + "&" + credential
      == prefix + Field("query", before) + "&" + (after + "&" + credential)
  {
  }

  /**
   * How the query string reads back under a reader where the first field of a name
   * wins (`QueryValue`). The page and the page size always read back as sent. The term reads back exactly when it contains no `&`; otherwise the first `&`
   * inside it starts another field. The credential reads back when the term has no `&`.
   */
  lemma QueryParameterFields(p: PhotoSearchParameters)
    ensures QueryValue(p.QueryParameter(), "page") == Some("0")
    ensures QueryValue(p.QueryParameter(), "per_page") == Some("30")
    ensures QueryValue(p.QueryParameter(), "query") == Some(p.SearchTerm())
      <==> '&' !in p.SearchTerm()
    ensures '&' !in p.SearchTerm() ==> QueryValue(p.QueryParameter(), "client_id") == Some(ClientID)
  {
    QueryParameterShape(p);
    FieldsOfAnyTerm(p.QueryParameter(), p.SearchTerm(), Field("client_id", ClientID));
  }

  /**
   * For the term "cats" the query text contains `per_page=30&query=cats` right after
   * the page field, and the query reads back page size "30" and term "cats".
   */
  lemma QueryParameterCats()
    ensures var q := PhotoSearchParameters(Some("cats")).QueryParameter();
      |q| >= 29 && q[7..29] == "per_page=30&query=cats"
    ensures var q := PhotoSearchParameters(Some("cats")).QueryParameter();
      QueryValue(q, "per_page") == Some("30") && QueryValue(q, "query") == Some("cats")
  {
    var p := PhotoSearchParameters(Some("cats"));
    var q := p.QueryParameter();
    CatsSlice(q);
    QueryParameterFields(p);
  }

  /**
   * The term is not percent-encoded, so it can add fields of its own: the term
   * "cats&client_id=other" passes validation and makes the query carry the credential "other".
   */
  lemma QueryParameterInjection()
    ensures var p := PhotoSearchParameters(Some("cats&client_id=other"));
      p.Validation() && QueryValue(p.QueryParameter(), "client_id") == Some("other")
  {
    var p := PhotoSearchParameters(Some("cats&client_id=other"));
    QueryParameterShape(p);
    var credential := Field("client_id", ClientID);
    InjectedTermParts();
    InjectedCredential(p.QueryParameter(), "cats", "other", credential);
  }

  /**
   * Which value a repeated name gets depends on the reader. The term "cats&per_page=100"
   * passes validation; a reader where the first field wins still sees page size "30",
   * but one where the last field wins sees "100", past the bound of 50 that validation checks.
   */
  lemma QueryParameterPageSizeOverride()
    ensures var p := PhotoSearchParameters(Some("cats&per_page=100"));
      && p.Validation()
      && QueryValue(p.QueryParameter(), "per_page") == Some("30")
      && QueryValueLast(p.QueryParameter(), "per_page") == Some("100")
  {
    var p := PhotoSearchParameters(Some("cats&per_page=100"));
    QueryParameterShape(p);
    OverridingTermParts();
    OverriddenPageSize(p.QueryParameter(), Field("client_id", ClientID));
  }

  /** The overriding term is the term "cats" and a page-size field. */
  lemma OverridingTermParts()
    ensures "cats&per_page=100" == "cats" + "&" + Field("per_page", "100")
  {
  }

  /** A query of the request's shape whose term is `cats&per_page=100`, read both ways. */
  lemma OverriddenPageSize(q: string, credential: string)
    requires credential == Field("client_id", ClientID)
    requires q == Field("page", "0") + "&" + Field("per_page", "30") + "&"
      + Field("query", "cats" + "&" + Field("per_page", "100")) + "&" + credential
    ensures QueryValue(q, "per_page") == Some("30")
    ensures QueryValueLast(q, "per_page") == Some("100")
  {
    var injected := Field("per_page", "100");
    var tail := injected + "&" + credential;
    QueryCutRegrouped(Field("page", "0") + "&" + Field("per_page", "30") + "&", "cats", injected, credential);
    LeadingFieldsOf(q, "cats", tail);
    var front := [Field("page", "0"), Field("per_page", "30"), Field("query", "cats")];
    OverriddenFields(q, front, injected, credential);
    LastFieldsWin(front, "100", credential);
  }

  /** The fields of the overriding query: the three leading ones, the injected one, the credential. */
  lemma OverriddenFields(q: string, front: seq<string>, injected: string, credential: string)
    requires credential == Field("client_id", ClientID) && injected == Field("per_page", "100")
    requires front == [Field("page", "0"), Field("per_page", "30"), Field("query", "cats")]
    requires q == Field("page", "0") + "&" + Field("per_page", "30") + "&" + Field("query", "cats") + "&"
      + (injected + "&" + credential)
    ensures Split(q, '&') == front + [injected, credential]
  {
    FixedFieldsSepFree();
    assert '&' !in injected && '&' !in Field("query", "cats");
    ThreeFieldsThen(Field("page", "0"), Field("per_page", "30"), Field("query", "cats"), injected + "&" + credential);
    SplitAfterPiece(injected, '&', credential);
    SplitWithoutSeparator(credential, '&');
  }

  /** Read from the end, a page-size field just before the credential decides the page size. */
  lemma LastFieldsWin(front: seq<string>, size: string, credential: string)
    requires credential == Field("client_id", ClientID)
    ensures LookupLast(front + [Field("per_page", size), credential], "per_page") == Some(size)
  {
    var fields := front + [Field("per_page", size)];
    assert front + [Field("per_page", size), credential] == fields + [Field("client_id", ClientID)];
    FieldLookupLast(fields, "client_id", ClientID, "per_page");
    FieldLookupLast(front, "per_page", size, "per_page");
  }

  /** The injected term is the term "cats" and a credential field. */
  lemma InjectedTermParts()
    ensures "cats&client_id=other" == "cats" + "&" + Field("client_id", "other")
  {
  }

  /** A query that starts with the fixed prefix and then "cats" holds the text `per_page=30&query=cats` at 7. */
  lemma CatsSlice(q: string)
    requires |q| >= |QueryPrefix| + 4
    requires q[..|QueryPrefix|] == QueryPrefix && q[|QueryPrefix|..|QueryPrefix| + 4] == "cats"
    ensures |q| >= 29 && q[7..29] == "per_page=30&query=cats"
  {
    assert |QueryPrefix| == 25 && QueryPrefix[7..] == "per_page=30&query=";
    SliceAcross(q, QueryPrefix, "cats", 7);
  }

  /** The text of a query up to a term's end, taken from past the first `skip` characters. */
  lemma SliceAcross(q: string, a: string, t: string, skip: nat)
    requires skip <= |a| && |q| >= |a| + |t|
    requires q[..|a|] == a && q[|a|..|a| + |t|] == t
    ensures q[skip..|a| + |t|] == a[skip..] + t
  {
    assert q[skip..|a| + |t|] == q[..|a|][skip..] + q[|a|..|a| + |t|];
  }

  /** A query of the request's shape whose term is `term&client_id=value`, both parts free of `&`. */
  lemma InjectedCredential(q: string, term: string, value: string, credential: string)
    requires '&' !in term && '&' !in value
    requires q == Field("page", "0") + "&" + Field("per_page", "30") + "&"
      + Field("query", term + "&" + Field("client_id", value)) + "&" + credential
    ensures QueryValue(q, "client_id") == Some(value)
  {
    var injected := Field("client_id", value);
    var tail := injected + "&" + credential;
    QueryCutRegrouped(Field("page", "0") + "&" + Field("per_page", "30") + "&", term, injected, credential);
    LeadingFieldsOf(q, term, tail);
    assert '&' !in injected;
    SplitAfterPiece(injected, '&', credential);
    FieldLookup("client_id", value, Split(credential, '&'), "client_id");
  }

  /** The address `get` hands to `URL(string:)`. */
  function RequestURL(parameters: PhotoSearchParameters): (u: string)
    ensures |u| == |BaseURL + SearchEndPoint| + |parameters.QueryParameter()|
    ensures u[..|BaseURL + SearchEndPoint|] == "https://api.unsplash.com/search/photos?"
    ensures u[|BaseURL + SearchEndPoint|..] == parameters.QueryParameter()
  {
    assert BaseURL + SearchEndPoint == "https://api.unsplash.com/search/photos?";
    BaseURL + SearchEndPoint + parameters.QueryParameter()
  }

  /**
   * The address a data task is started with, if any: none when validation fails or the
   * address does not parse as a URL.
   */
  function RequestedURL(parameters: PhotoSearchParameters, urlIsValid: string -> bool): (u: Option<string>)
    ensures u.Some? <==> parameters.Validation() && urlIsValid(RequestURL(parameters))
    ensures u.Some? ==> u.value == RequestURL(parameters)
  {
    if !parameters.Validation() then None
    else if !urlIsValid(RequestURL(parameters)) then None
    else Some(RequestURL(parameters))
  }

  /**
   * The data task's completion handler: a decoded envelope with `results` succeeds with
   * exactly those results, in their order; anything else is a task error.
   */
  function Receive(transport: Option<PhotoAPIResponse>): (r: Result<seq<PhotoModel>, APIResponseError>)
    ensures r.Success? <==> transport.Some? && transport.value.results.Some?
    ensures r.Success? ==> r.value == transport.value.results.value
    ensures r.Failure? ==> r.error == TaskError
  {
    match transport
    case None => Failure(TaskError)
    case Some(response) =>
      match response.results
      case None => Failure(TaskError)
      case Some(models) => Success(models)
  }

  /**
   * `PhotoAPI.get`: validation, then URL construction, then the data task. Each guard
   * has its own error, and a later one is reached only when the earlier ones pass.
   */
  function Get(parameters: PhotoSearchParameters, urlIsValid: string -> bool,
               transport: Option<PhotoAPIResponse>): (r: Result<seq<PhotoModel>, APIResponseError>)
    ensures r == Failure(ValidationError) <==> !parameters.Validation()
    ensures r == Failure(URLError)
      <==> parameters.Validation() && !urlIsValid(RequestURL(parameters))
    ensures r == Failure(TaskError)
      <==> RequestedURL(parameters, urlIsValid).Some?
           && (transport.None? || transport.value.results.None?)
    ensures r.Success?
      <==> RequestedURL(parameters, urlIsValid).Some?
           && transport.Some? && transport.value.results.Some?
    ensures r.Success? ==> r.value == transport.value.results.value && parameters.SearchTerm() != []
  {
    if !parameters.Validation() then Failure(ValidationError)
    else if !urlIsValid(RequestURL(parameters)) then Failure(URLError)
    else Receive(transport)
  }

  /** When no data task is started, the transport outcome has no influence on the result. */
  lemma NoRequestNoTransport(parameters: PhotoSearchParameters, urlIsValid: string -> bool,
                             t1: Option<PhotoAPIResponse>, t2: Option<PhotoAPIResponse>)
    requires RequestedURL(parameters, urlIsValid).None?
    ensures Get(parameters, urlIsValid, t1) == Get(parameters, urlIsValid, t2)
    ensures Get(parameters, urlIsValid, t1).Failure?
    ensures Get(parameters, urlIsValid, t1).error != TaskError
  {
  }

  /** When the data task is started, its completion handler alone decides the result. */
  lemma RequestDecidesByTransport(parameters: PhotoSearchParameters, urlIsValid: string -> bool,
                                  transport: Option<PhotoAPIResponse>)
    requires RequestedURL(parameters, urlIsValid).Some?
    ensures Get(parameters, urlIsValid, transport) == Receive(transport)
  {
  }

  /** A decoded envelope with N results yields those N photos in the same order. */
  lemma DecodedResultsKept(parameters: PhotoSearchParameters, urlIsValid: string -> bool,
                           models: seq<PhotoModel>)
    requires parameters.Validation() && urlIsValid(RequestURL(parameters))
    ensures var r := Get(parameters, urlIsValid, Some(PhotoAPIResponse(Some(models))));
      r.Success? && |r.value| == |models|
      && forall i :: 0 <= i < |models| ==> r.value[i] == models[i]
  {
  }
}
