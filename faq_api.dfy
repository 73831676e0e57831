/** The help-article (FAQ) wrappers: the query strings of the article and category listings,
    and the bodies of `createFAQ` / `updateFAQ`. */
module FaqApi {
  import opened JsValues
  import opened Decimal
  import opened KeyValues
  import opened Http

  /** The optional filters of `fetchAllHelpArticles`. */
  datatype ArticleParams = ArticleParams(isFaq: Option<bool>, categoryId: Option<int>, search: Option<string>)

  /** The optional filter of `fetchHelpCategories`. */
  datatype CategoryParams = CategoryParams(search: Option<string>)

  /** The fields of `FAQForm`; `platform_id` may be left out or null. */
  datatype FaqForm = FaqForm(categoryId: int, question: string, answer: string,
                             isFaq: Option<bool>, platformId: Nullable<int>)

  /** `String(b)` for a boolean. */
  function BoolString(b: bool): (s: string)
    ensures s == "true" || s == "false"
    ensures b <==> s == "true"
  {
    if b then "true" else "false"
  }

  function IsFaqOf(params: Option<ArticleParams>): Option<bool>
  {
    if params.Some? then params.value.isFaq else None
  }

  function CategoryIdOf(params: Option<ArticleParams>): Option<int>
  {
    if params.Some? then params.value.categoryId else None
  }

  function SearchOf(params: Option<ArticleParams>): Option<string>
  {
    if params.Some? then params.value.search else None
  }

  /** The appends of an article listing, in source order: `is_faq` whenever it is given (also
      when false), `category_id` when truthy, `search` when a non-empty string. */
  function IsFaqParam(params: Option<ArticleParams>): Candidate<string>
  {
    Candidate(IsFaqOf(params).Some?, "is_faq", if IsFaqOf(params).Some? then BoolString(IsFaqOf(params).value) else "")
  }

  function CategoryIdParam(params: Option<ArticleParams>): Candidate<string>
  {
    Candidate(TruthyNumber(CategoryIdOf(params)), "category_id",
              if CategoryIdOf(params).Some? then IntToString(CategoryIdOf(params).value) else "")
  }

  function SearchParam(search: Option<string>): Candidate<string>
  {
    Candidate(TruthyString(search), "search", if search.Some? then search.value else "")
  }

  /** The parameters of an article listing. */
  function ArticleQuery(params: Option<ArticleParams>): seq<Entry<string>>
  {
    Appended([IsFaqParam(params), CategoryIdParam(params), SearchParam(SearchOf(params))])
  }

  /** Every parameter is present exactly under its rule and carries the caller's value. */
  lemma ArticleQueryFields(params: Option<ArticleParams>)
    ensures Lookup(ArticleQuery(params), "is_faq")
         == (if IsFaqOf(params).Some? then Some(BoolString(IsFaqOf(params).value)) else None)
    ensures Lookup(ArticleQuery(params), "category_id")
         == (if TruthyNumber(CategoryIdOf(params)) then Some(IntToString(CategoryIdOf(params).value)) else None)
    ensures Lookup(ArticleQuery(params), "search")
         == (if TruthyString(SearchOf(params)) then Some(SearchOf(params).value) else None)
  {
    var cs := [IsFaqParam(params), CategoryIdParam(params), SearchParam(SearchOf(params))];
    assert "is_faq" != "category_id" && "is_faq" != "search" && "category_id" != "search";
    AppendedLookup(cs, 0);
    AppendedLookup(cs, 1);
    AppendedLookup(cs, 2);
  }

  /** The parameters appear in the order `is_faq`, `category_id`, `search`, each at most once. */
  lemma ArticleQueryOrder(params: Option<ArticleParams>)
    ensures IsSubsequence(Keys(ArticleQuery(params)), ["is_faq", "category_id", "search"])
    ensures DistinctKeys(ArticleQuery(params))
  {
    var cs := [IsFaqParam(params), CategoryIdParam(params), SearchParam(SearchOf(params))];
    assert CandidateKeys(cs) == ["is_faq", "category_id", "search"];
    AppendedKeys(cs);
    AppendedDistinct(cs);
  }

  /** `${base}${query ? `?${query}` : ""}`: a `?` and the parameters when there are any,
      the bare path otherwise. */
  function WithQuery(base: string, query: seq<Entry<string>>): (path: string)
    ensures query == [] ==> path == base
    ensures query != [] ==> path == base + "?" + Serialize(query)
  {
    SerializeEmpty(query);
    var text := Serialize(query);
    if text != "" then base + "?" + text else base
  }

  /** `fetchAllHelpArticles`: the parameters appended one by one, then the listing requested. */
  method FetchAllHelpArticles(params: Option<ArticleParams>) returns (request: Request<()>)
    ensures request == Request(Get, WithQuery("/help-articles", ArticleQuery(params)), ())
  {
    var queryParams := new EntryList<string>();
    queryParams.AppendWhen(IsFaqParam(params));
    assert queryParams.entries == FieldOf(IsFaqParam(params));
    queryParams.AppendWhen(CategoryIdParam(params));
    queryParams.AppendWhen(SearchParam(SearchOf(params)));
    AppendedThree(IsFaqParam(params), CategoryIdParam(params), SearchParam(SearchOf(params)));
    request := Request(Get, WithQuery("/help-articles", queryParams.entries), ());
  }

  /** With no filter given, or only falsy ones, the listing asks for the bare path. */
  lemma NoFilterBarePath(params: Option<ArticleParams>)
    requires IsFaqOf(params).None? && !TruthyNumber(CategoryIdOf(params)) && !TruthyString(SearchOf(params))
    ensures WithQuery("/help-articles", ArticleQuery(params)) == "/help-articles"
  {
    AppendedThree(IsFaqParam(params), CategoryIdParam(params), SearchParam(SearchOf(params)));
  }

  /** `is_faq: false` is still sent, unlike a falsy category or search. */
  lemma FalseFlagIsSent(params: Option<ArticleParams>)
    requires IsFaqOf(params) == Some(false) && !TruthyNumber(CategoryIdOf(params)) && !TruthyString(SearchOf(params))
    ensures WithQuery("/help-articles", ArticleQuery(params)) == "/help-articles?is_faq=false"
  {
    FalseFlagQuery(params);
    WithQueryOne("/help-articles", "is_faq", "false");
  }

  /** A single parameter is written as `base?key=value`. */
  lemma WithQueryOne(base: string, key: string, value: string)
    ensures WithQuery(base, [Entry(key, value)]) == base + "?" + key + "=" + value
  {
  }

  lemma FalseFlagQuery(params: Option<ArticleParams>)
    requires IsFaqOf(params) == Some(false) && !TruthyNumber(CategoryIdOf(params)) && !TruthyString(SearchOf(params))
    ensures ArticleQuery(params) == [Entry("is_faq", "false")]
  {
    AppendedThree(IsFaqParam(params), CategoryIdParam(params), SearchParam(SearchOf(params)));
  }

  function CategorySearchOf(params: Option<CategoryParams>): Option<string>
  {
    if params.Some? then params.value.search else None
  }

  /** The parameters of a category listing: only `search`, under the same rule. */
  function CategoryQuery(params: Option<CategoryParams>): seq<Entry<string>>
  {
    Appended([SearchParam(CategorySearchOf(params))])
  }

  /** The only parameter a category listing sends is a non-empty `search`. */
  lemma CategoryQueryFields(params: Option<CategoryParams>)
    ensures Keys(CategoryQuery(params)) == [] || Keys(CategoryQuery(params)) == ["search"]
    ensures Lookup(CategoryQuery(params), "search")
         == if TruthyString(CategorySearchOf(params)) then Some(CategorySearchOf(params).value) else None
  {
    var c := SearchParam(CategorySearchOf(params));
    assert [c][1..] == [];
    assert Appended([c]) == FieldOf(c) + Appended([c][1..]);
    assert FieldOf(c) + [] == FieldOf(c);
  }

  /** `fetchHelpCategories`: at most one append, then the listing requested. */
  method FetchHelpCategories(params: Option<CategoryParams>) returns (request: Request<()>)
    ensures request == Request(Get, WithQuery("/help-categories", CategoryQuery(params)), ())
  {
    var queryParams := new EntryList<string>();
    queryParams.AppendWhen(SearchParam(CategorySearchOf(params)));
    assert [SearchParam(CategorySearchOf(params))][1..] == [];
    assert CategoryQuery(params) == FieldOf(SearchParam(CategorySearchOf(params)));
    request := Request(Get, WithQuery("/help-categories", queryParams.entries), ());
  }

  /** `{...data, is_faq: true}`: the form with its flag forced on. */
  function FaqBody(data: FaqForm): (body: FaqForm)
    ensures body.isFaq == Some(true)
    ensures body.categoryId == data.categoryId && body.question == data.question
    ensures body.answer == data.answer && body.platformId == data.platformId
  {
    data.(isFaq := Some(true))
  }

  /** The caller's own `is_faq` never reaches the server. */
  lemma FaqBodyIgnoresFlag(data: FaqForm, flag: Option<bool>)
    ensures FaqBody(data.(isFaq := flag)) == FaqBody(data)
  {
  }

  function CreateFaq(data: FaqForm): (request: Request<FaqForm>)
    ensures request.verb == Post && request.path == "/help-articles"
    ensures request.body.isFaq == Some(true)
  {
    Request(Post, "/help-articles", FaqBody(data))
  }

  function UpdateFaq(id: int, data: FaqForm): (request: Request<FaqForm>)
    ensures request.verb == Put && request.path == "/help-articles/" + IntToString(id)
    ensures request.body.isFaq == Some(true)
  {
    Request(Put, "/help-articles/" + IntToString(id), FaqBody(data))
  }

  /** Creating and updating send the same body for the same form; distinct ids give
      distinct paths. */
  lemma CreateUpdateAgree(id: int, other: int, data: FaqForm)
    ensures CreateFaq(data).body == UpdateFaq(id, data).body
    ensures UpdateFaq(id, data).path == UpdateFaq(other, data).path ==> id == other
  {
    var pre := "/help-articles/";
    if UpdateFaq(id, data).path == UpdateFaq(other, data).path {
      assert (pre + IntToString(id))[|pre|..] == IntToString(id);
      assert (pre + IntToString(other))[|pre|..] == IntToString(other);
      IntToStringInjective(id, other);
    }
  }
}
