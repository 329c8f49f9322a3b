/** Product recommendation reasons: request checks, the per-product retry
    loop around the language model, and the per-category concern lines that
    go into each prompt. The model is an oracle `gen(p, a)` giving the reply
    to attempt `a` for the product at position `p`. */
module ProductService {
  import opened Wrappers
  import opened PyStr
  import PyNum
  import Schemas

  // ---------------------------------------------------------------------
  // `generate_recommendation_prompt`: concern lines.
  // ---------------------------------------------------------------------

  /** `category_map.get(category, category)` */
  function KoreanName(category: string): string {
    if category == "moisture" then "수분"
    else if category == "elasticity" then "탄력"
    else if category == "wrinkle" then "주름"
    else if category == "pigmentation" then "색소침착"
    else if category == "pore" then "모공"
    else category
  }

  /** `thresholds.get(category, 70)` */
  function Threshold(category: string): int {
    if category == "moisture" then 65
    else if category == "pigmentation" then 70
    else if category == "elasticity" then 60
    else if category == "wrinkle" then 50
    else if category == "pore" then 55
    else 70
  }

  /** The five categories that produce a concern line. */
  predicate Known(category: string) {
    category == "moisture" || category == "elasticity" || category == "wrinkle" ||
    category == "pigmentation" || category == "pore"
  }

  /** The classification key and the regression key whose minimum is a
      category's representative score. */
  function ScoreKeys(category: string): (string, string)
    requires Known(category)
  {
    if category == "moisture" then ("dryness", "moisture_reg")
    else if category == "elasticity" then ("sagging", "elasticity_reg")
    else if category == "wrinkle" then ("wrinkle", "wrinkle_reg")
    else if category == "pigmentation" then ("pigmentation", "pigmentation_reg")
    else ("pore", "pore_reg")
  }

  /** `skin_analysis.get(key, 100)` */
  function Score(skin: map<string, int>, key: string): int {
    if key in skin then skin[key] else 100
  }

  /** One concern line: the display name, representative score and threshold. */
  datatype Concern = Concern(name: string, score: int, threshold: int)

  function ConcernFor(skin: map<string, int>, category: string): (c: Concern)
    requires Known(category)
    ensures c.score == PyNum.MinI(Score(skin, ScoreKeys(category).0), Score(skin, ScoreKeys(category).1))
    ensures c.score <= Score(skin, ScoreKeys(category).0) && c.score <= Score(skin, ScoreKeys(category).1)
    ensures c.score == Score(skin, ScoreKeys(category).0) || c.score == Score(skin, ScoreKeys(category).1)
  {
    var keys := ScoreKeys(category);
    Concern(KoreanName(category), PyNum.MinI(Score(skin, keys.0), Score(skin, keys.1)), Threshold(category))
  }

  /** The concern lines of a category list, in category order. */
  function Concerns(skin: map<string, int>, categories: seq<string>): seq<Concern>
    decreases |categories|
  {
    if |categories| == 0 then []
    else
      var front := Concerns(skin, categories[..|categories| - 1]);
      var c := categories[|categories| - 1];
      if Known(c) then front + [ConcernFor(skin, c)] else front
  }

  /** Number of known categories in a list. */
  function CountKnown(categories: seq<string>): nat
    decreases |categories|
  {
    if |categories| == 0 then 0
    else CountKnown(categories[..|categories| - 1]) + (if Known(categories[|categories| - 1]) then 1 else 0)
  }

  /** One line per known category, and every line's score is at most 100
      when the analysis scores are. */
  lemma {:induction false} ConcernsShape(skin: map<string, int>, categories: seq<string>)
    ensures |Concerns(skin, categories)| == CountKnown(categories) <= |categories|
    ensures (forall k :: k in skin ==> skin[k] <= 100) ==>
              forall i :: 0 <= i < |Concerns(skin, categories)| ==> Concerns(skin, categories)[i].score <= 100
    decreases |categories|
  {
    if |categories| > 0 {
      ConcernsShape(skin, categories[..|categories| - 1]);
    }
  }

  /** A list with no known category gives no concern line. */
  lemma {:induction false} UnknownCategoriesAddNothing(skin: map<string, int>, categories: seq<string>)
    requires forall i :: 0 <= i < |categories| ==> !Known(categories[i])
    ensures Concerns(skin, categories) == []
    decreases |categories|
  {
    if |categories| > 0 {
      var front := categories[..|categories| - 1];
      assert forall i :: 0 <= i < |front| ==> front[i] == categories[i];
      UnknownCategoriesAddNothing(skin, front);
    }
  }

  /** With no scores at all, every representative score is the default 100. */
  lemma {:induction false} EmptyAnalysisScoresDefault(categories: seq<string>)
    ensures forall i :: 0 <= i < |Concerns(map[], categories)| ==> Concerns(map[], categories)[i].score == 100
    decreases |categories|
  {
    if |categories| > 0 {
      EmptyAnalysisScoresDefault(categories[..|categories| - 1]);
    }
  }

  /** The loop filling `concern_details`. */
  method ConcernDetails(skin: map<string, int>, categories: seq<string>) returns (details: seq<Concern>)
    ensures details == Concerns(skin, categories)
  {
    details := [];
    var i := 0;
    while i < |categories|
      invariant 0 <= i <= |categories|
      invariant details == Concerns(skin, categories[..i])
    {
      assert categories[..i + 1][..i] == categories[..i];
      var category := categories[i];
      if Known(category) {
        details := details + [ConcernFor(skin, category)];
      }
      i := i + 1;
    }
    assert categories[..i] == categories;
  }

  /** An entry of the category catalogue served by the product API. */
  datatype CategoryInfo = CategoryInfo(key: string, nameKo: string, threshold: int)

  const Catalogue: seq<CategoryInfo> := [
    CategoryInfo("moisture", "수분", 65),
    CategoryInfo("elasticity", "탄력", 60),
    CategoryInfo("wrinkle", "주름", 50),
    CategoryInfo("pigmentation", "색소침착", 70),
    CategoryInfo("pore", "모공", 55)
  ]

  /** The prompt's thresholds and names agree with the published catalogue,
      which lists exactly the known categories. */
  lemma CatalogueAgrees()
    ensures forall i :: 0 <= i < |Catalogue| ==>
              Known(Catalogue[i].key) && Threshold(Catalogue[i].key) == Catalogue[i].threshold &&
              KoreanName(Catalogue[i].key) == Catalogue[i].nameKo
    ensures forall c :: Known(c) ==> exists i :: 0 <= i < |Catalogue| && Catalogue[i].key == c
  {
    forall c | Known(c) ensures exists i :: 0 <= i < |Catalogue| && Catalogue[i].key == c {
      if c == "moisture" { assert Catalogue[0].key == c; }
      else if c == "elasticity" { assert Catalogue[1].key == c; }
      else if c == "wrinkle" { assert Catalogue[2].key == c; }
      else if c == "pigmentation" { assert Catalogue[3].key == c; }
      else { assert Catalogue[4].key == c; }
    }
  }

  // ---------------------------------------------------------------------
  // Products and prompts.
  // ---------------------------------------------------------------------

  /** A product record: its `product_id` (absent when the key is missing)
      and the other fields by name. */
  datatype Product = Product(productId: Option<string>, fields: map<string, string>)

  /** The product fields the prompt template indexes, in template order. */
  const PromptFields: seq<string> := ["brand", "product_name", "category", "price", "review_score", "review_count"]

  /** The first prompt field the product lacks, if any. */
  function MissingField(fields: map<string, string>, names: seq<string>): (r: Option<string>)
    ensures r.None? <==> forall i :: 0 <= i < |names| ==> names[i] in fields
    ensures r.Some? ==> r.value in names && r.value !in fields
    decreases |names|
  {
    if |names| == 0 then None
    else if names[0] !in fields then Some(names[0])
    else
      var rest := MissingField(fields, names[1..]);
      assert forall i :: 1 <= i < |names| ==> names[i] == names[1..][i - 1];
      rest
  }

  /** What the prompt is made of; its wording is a fixed template. */
  datatype Prompt = Prompt(concerns: seq<Concern>, korean: bool, product: Product)

  /** `str(KeyError(name))` */
  function KeyErrorMessage(name: string): string {
    "'" + name + "'"
  }

  /** `generate_recommendation_prompt`: `Err` is the `KeyError` of a missing
      product field; Korean wording exactly for locale "ko-KR" (a `None`
      locale compares unequal and gets the English wording). */
  function BuildPrompt(skin: map<string, int>, categories: seq<string>, product: Product, locale: Option<string>): (r: Result<Prompt>)
    ensures r.Ok? <==> forall i :: 0 <= i < |PromptFields| ==> PromptFields[i] in product.fields
    ensures r.Ok? ==> r.value.concerns == Concerns(skin, categories) && r.value.product == product
    ensures r.Ok? ==> (r.value.korean <==> locale == Some("ko-KR"))
  {
    match MissingField(product.fields, PromptFields)
    case Some(name) => Err(KeyErrorMessage(name))
    case None => Ok(Prompt(Concerns(skin, categories), locale == Some("ko-KR"), product))
  }

  // ---------------------------------------------------------------------
  // `run_inference`.
  // ---------------------------------------------------------------------

  /** One reply of the model: a response with text, no response, or a raised
      error with its message. */
  datatype Reply = Text(text: string) | NoResponse | Raised(message: string)

  const EmptyResponseMessage: string := "Empty response from Gemini API"
  const MaxRetries: nat := 3

  /** The error one attempt raises, if it raises: no response and empty
      text are the same `ValueError`. */
  function AttemptError(reply: Reply): Option<string> {
    match reply
    case Text(t) => if |t| == 0 then Some(EmptyResponseMessage) else None
    case NoResponse => Some(EmptyResponseMessage)
    case Raised(m) => Some(m)
  }

  /** The retry loop from attempt `a` on: the stripped text of the first
      attempt that does not raise, or the error of the last attempt. */
  function GenerateFrom(gen: (int, int) -> Reply, p: int, a: nat): (r: Result<string>)
    requires a < MaxRetries
    decreases MaxRetries - a
  {
    match AttemptError(gen(p, a))
    case None => Ok(Strip(gen(p, a).text))
    case Some(m) => if a == MaxRetries - 1 then Err(m) else GenerateFrom(gen, p, a + 1)
  }

  /** The reason for product `p`'s recommendation, after all retries. */
  function Generate(gen: (int, int) -> Reply, p: int): Result<string> {
    GenerateFrom(gen, p, 0)
  }

  /** The first attempt with text wins. */
  lemma FirstGoodReplyWins(gen: (int, int) -> Reply, p: int, t: string)
    requires gen(p, 0) == Text(t) && |t| > 0
    ensures Generate(gen, p) == Ok(Strip(t))
  {
  }

  /** Generation succeeds exactly when one of the three attempts has text. */
  lemma GenerateSucceeds(gen: (int, int) -> Reply, p: int)
    ensures Generate(gen, p).Ok? <==> exists a :: 0 <= a < MaxRetries && AttemptError(gen(p, a)).None?
  {
    if Generate(gen, p).Err? {
      forall a | 0 <= a < MaxRetries ensures AttemptError(gen(p, a)).Some? {
        assert a == 0 || a == 1 || a == 2;
      }
    }
  }

  /** On success the reason is the stripped text of the first attempt that
      did not fail. */
  lemma GenerateTakesFirst(gen: (int, int) -> Reply, p: int, a: nat)
    requires a < MaxRetries && AttemptError(gen(p, a)).None?
    requires forall b :: 0 <= b < a ==> AttemptError(gen(p, b)).Some?
    ensures Generate(gen, p) == Ok(Strip(gen(p, a).text))
  {
    if a == 1 {
      assert AttemptError(gen(p, 0)).Some?;
      assert GenerateFrom(gen, p, 0) == GenerateFrom(gen, p, 1);
    } else if a == 2 {
      assert AttemptError(gen(p, 0)).Some? && AttemptError(gen(p, 1)).Some?;
      assert GenerateFrom(gen, p, 1) == GenerateFrom(gen, p, 2);
      assert GenerateFrom(gen, p, 0) == GenerateFrom(gen, p, 1);
    }
  }

  /** When all three attempts fail, the third failure is re-raised. */
  lemma GenerateReraisesThird(gen: (int, int) -> Reply, p: int)
    requires forall a :: 0 <= a < MaxRetries ==> AttemptError(gen(p, a)).Some?
    ensures Generate(gen, p) == Err(AttemptError(gen(p, 2)).value)
  {
    assert AttemptError(gen(p, 0)).Some? && AttemptError(gen(p, 1)).Some? && AttemptError(gen(p, 2)).Some?;
  }

  /** At most three attempts are made: replies after the third are never
      consulted. */
  lemma AtMostThreeAttempts(gen: (int, int) -> Reply, gen2: (int, int) -> Reply, p: int)
    requires gen(p, 0) == gen2(p, 0) && gen(p, 1) == gen2(p, 1) && gen(p, 2) == gen2(p, 2)
    ensures Generate(gen, p) == Generate(gen2, p)
  {
  }

  /** One entry of `recommendations`. */
  datatype Recommendation = Recommendation(productId: string, reason: string)

  /** The `KeyError` of a product without "product_id". */
  const MissingIdMessage: string := KeyErrorMessage("product_id")

  const FallbackPrefix: string := "추천 이유 생성 중 오류가 발생했습니다: "

  /** The recommendation for the product at position `p`. `Err` is the
      `KeyError` of a product without `product_id`, raised again inside the
      per-product handler and so escaping to the request handler. */
  function RecommendationFor(skin: map<string, int>, categories: seq<string>, product: Product,
                             locale: Option<string>, gen: (int, int) -> Reply, p: int): (r: Result<Recommendation>)
    ensures r.Ok? <==> product.productId.Some?
    ensures r.Err? ==> r.msg == MissingIdMessage
    ensures r.Ok? ==> r.value.productId == product.productId.value
  {
    if product.productId.None? then Err(MissingIdMessage)
    else Ok(Recommendation(product.productId.value, Reason(skin, categories, product, locale, gen, p)))
  }

  /** The reason text: the generated text, or the fallback message when the
      prompt or all three attempts fail. */
  function Reason(skin: map<string, int>, categories: seq<string>, product: Product,
                  locale: Option<string>, gen: (int, int) -> Reply, p: int): string
  {
    match BuildPrompt(skin, categories, product, locale)
    case Err(m) => FallbackPrefix + m
    case Ok(_) =>
      match Generate(gen, p)
      case Err(m) => FallbackPrefix + m
      case Ok(text) => text
  }

  /** A product with an id gets the generated text, or the fallback message
      carrying the prompt's `KeyError` or the third attempt's error. */
  lemma ReasonCases(skin: map<string, int>, categories: seq<string>, product: Product,
                    locale: Option<string>, gen: (int, int) -> Reply, p: int)
    requires product.productId.Some?
    ensures var reason := RecommendationFor(skin, categories, product, locale, gen, p).value.reason;
            var prompt := BuildPrompt(skin, categories, product, locale);
            (prompt.Err? ==> reason == FallbackPrefix + prompt.msg) &&
            (prompt.Ok? && Generate(gen, p).Ok? ==> reason == Generate(gen, p).value) &&
            (prompt.Ok? && Generate(gen, p).Err? ==> reason == FallbackPrefix + Generate(gen, p).msg)
  {
  }

  /** A generated reason has no surrounding whitespace. */
  lemma GeneratedReasonStripped(gen: (int, int) -> Reply, p: int)
    requires Generate(gen, p).Ok?
    ensures Strip(Generate(gen, p).value) == Generate(gen, p).value
  {
    var b := GenerateFromIsStripped(gen, p, 0);
    StripIdempotent(gen(p, b).text);
  }

  /** A successful generation is the stripped text of some attempt `b`. */
  lemma {:induction false} GenerateFromIsStripped(gen: (int, int) -> Reply, p: int, a: nat) returns (b: nat)
    requires a < MaxRetries && GenerateFrom(gen, p, a).Ok?
    ensures a <= b < MaxRetries && gen(p, b).Text?
    ensures GenerateFrom(gen, p, a).value == Strip(gen(p, b).text)
    decreases MaxRetries - a
  {
    if AttemptError(gen(p, a)).Some? {
      b := GenerateFromIsStripped(gen, p, a + 1);
    } else {
      b := a;
    }
  }

  /** Whitespace-only text passes the emptiness check, which looks at the
      text before stripping: no retry is made and the reason is empty. */
  lemma BlankTextGivesEmptyReason(gen: (int, int) -> Reply, p: int)
    requires gen(p, 0).Text? && |gen(p, 0).text| > 0
    requires forall i :: 0 <= i < |gen(p, 0).text| ==> IsSpace(gen(p, 0).text[i])
    ensures Generate(gen, p) == Ok("")
  {
    StripEmptyIffBlank(gen(p, 0).text);
  }

  /** `[f(products[0], 0), f(products[1], 1), ...]`, stopping at the first
      error: the shape of the product loop, for any per-product step `f`. */
  function Collect<T>(products: seq<Product>, f: (Product, nat) -> Result<T>): Result<seq<T>>
    decreases |products|
  {
    if |products| == 0 then Ok([])
    else
      var n := |products| - 1;
      match Collect(products[..n], f)
      case Err(m) => Err(m)
      case Ok(front) =>
        match f(products[n], n)
        case Err(m) => Err(m)
        case Ok(x) => Ok(front + [x])
  }

  lemma {:induction false} CollectOk<T>(products: seq<Product>, f: (Product, nat) -> Result<T>)
    ensures Collect(products, f).Ok? <==> forall i :: 0 <= i < |products| ==> f(products[i], i).Ok?
    decreases |products|
  {
    if |products| > 0 {
      var n := |products| - 1;
      CollectOk(products[..n], f);
      assert forall i :: 0 <= i < n ==> products[..n][i] == products[i];
    }
  }

  lemma {:induction false} CollectAt<T>(products: seq<Product>, f: (Product, nat) -> Result<T>, i: nat)
    requires Collect(products, f).Ok? && i < |products|
    ensures |Collect(products, f).value| == |products| && Ok(Collect(products, f).value[i]) == f(products[i], i)
    decreases |products|
  {
    var n := |products| - 1;
    var front := products[..n];
    if i < n {
      CollectAt(front, f, i);
      assert front[i] == products[i];
    } else if n > 0 {
      CollectAt(front, f, 0);
    }
  }

  /** When every failing step fails with `m`, so does the loop. */
  lemma {:induction false} CollectErr<T>(products: seq<Product>, f: (Product, nat) -> Result<T>, m: string)
    requires forall i :: 0 <= i < |products| && f(products[i], i).Err? ==> f(products[i], i).msg == m
    ensures Collect(products, f).Err? ==> Collect(products, f).msg == m
    decreases |products|
  {
    if |products| > 0 {
      var n := |products| - 1;
      assert forall i :: 0 <= i < n ==> products[..n][i] == products[i];
      CollectErr(products[..n], f, m);
    }
  }

  lemma CollectSnoc<T>(products: seq<Product>, f: (Product, nat) -> Result<T>, p: nat, front: seq<T>)
    requires p < |products| && Collect(products[..p], f) == Ok(front) && f(products[p], p).Ok?
    ensures Collect(products[..p + 1], f) == Ok(front + [f(products[p], p).value])
  {
    assert products[..p + 1][..p] == products[..p];
    assert products[..p + 1][p] == products[p];
  }

  /** The per-product step of the product loop. */
  function RecommendStep(skin: map<string, int>, categories: seq<string>, locale: Option<string>,
                         gen: (int, int) -> Reply): (Product, nat) -> Result<Recommendation>
  {
    (q: Product, i: nat) => RecommendationFor(skin, categories, q, locale, gen, i)
  }

  /** The recommendations for the product list. */
  function Recommendations(skin: map<string, int>, categories: seq<string>, products: seq<Product>,
                           locale: Option<string>, gen: (int, int) -> Reply): Result<seq<Recommendation>>
  {
    Collect(products, RecommendStep(skin, categories, locale, gen))
  }

  /** The list fails exactly when some product has no id. */
  lemma RecommendationsOk(skin: map<string, int>, categories: seq<string>,
                          products: seq<Product>, locale: Option<string>, gen: (int, int) -> Reply)
    ensures Recommendations(skin, categories, products, locale, gen).Ok? <==>
            forall i :: 0 <= i < |products| ==> products[i].productId.Some?
  {
    var f := RecommendStep(skin, categories, locale, gen);
    CollectOk(products, f);
    assert forall i :: 0 <= i < |products| ==> (f(products[i], i).Ok? <==> products[i].productId.Some?);
  }

  /** Exactly one recommendation per product, in input order, each the one
      computed for that product alone: a product whose generation fails
      changes nothing for the others. */
  lemma RecommendationsPerProduct(skin: map<string, int>, categories: seq<string>,
                                  products: seq<Product>, locale: Option<string>, gen: (int, int) -> Reply)
    requires Recommendations(skin, categories, products, locale, gen).Ok?
    ensures var recs := Recommendations(skin, categories, products, locale, gen).value;
            |recs| == |products| &&
            forall i :: 0 <= i < |products| ==> Ok(recs[i]) == RecommendationFor(skin, categories, products[i], locale, gen, i)
  {
    var f := RecommendStep(skin, categories, locale, gen);
    if |products| > 0 {
      CollectAt(products, f, 0);
    }
    forall i | 0 <= i < |products|
      ensures Ok(Recommendations(skin, categories, products, locale, gen).value[i]) ==
              RecommendationFor(skin, categories, products[i], locale, gen, i)
    {
      CollectAt(products, f, i);
    }
  }

  /** The fields of a request. For the three required fields `None` is a
      missing key; the locale entry may be absent, hold `None` or hold a
      string. */
  datatype ProductRequest = ProductRequest(skinAnalysis: Option<map<string, int>>,
                                           recommendedCategories: Option<seq<string>>,
                                           filteredProducts: Option<seq<Product>>,
                                           locale: Entry<string>)

  /** `request.get("locale", "ko-KR")`: the default only for an absent key;
      a key holding `None` gives `None`. */
  function LocaleOf(e: Entry<string>): (l: Option<string>)
    ensures e.Absent? ==> l == Some(Schemas.DefaultLocale)
    ensures e.Null? <==> l.None?
    ensures e.Present? ==> l == Some(e.value)
  {
    match e
    case Absent => Some(Schemas.DefaultLocale)
    case Null => None
    case Present(v) => Some(v)
  }

  datatype ProductResponse =
    | ProductSuccess(recommendations: seq<Recommendation>)
    | ProductError(message: string, errorCode: string)

  const ErrorCode: string := "LLM_GENERATION_FAILED"
  const MissingKeyMessage: string := "GEMINI_API_KEY 환경변수가 설정되지 않았습니다."

  /** The request checks, in the order the source makes them. */
  function CheckRequest(req: ProductRequest): (r: Option<string>)
    ensures r.None? <==> req.skinAnalysis.Some? && req.recommendedCategories.Some? && req.filteredProducts.Some?
  {
    if req.skinAnalysis.None? then Some("Missing required field: skin_analysis")
    else if req.recommendedCategories.None? then Some("Missing required field: recommended_categories")
    else if req.filteredProducts.None? then Some("Missing required field: filtered_products")
    else None
  }

  /** The whole response, for the given API key and model oracle. */
  function Respond(req: ProductRequest, apiKey: string, gen: (int, int) -> Reply): (r: ProductResponse)
    ensures CheckRequest(req).Some? ==> r == ProductError(CheckRequest(req).value, ErrorCode)
    ensures CheckRequest(req).None? && |apiKey| == 0 ==> r == ProductError(MissingKeyMessage, ErrorCode)
    ensures r.ProductError? ==> r.errorCode == ErrorCode
  {
    match CheckRequest(req)
    case Some(m) => ProductError(m, ErrorCode)
    case None =>
      if |apiKey| == 0 then ProductError(MissingKeyMessage, ErrorCode)
      else
        match Recommendations(req.skinAnalysis.value, req.recommendedCategories.value, req.filteredProducts.value,
                              LocaleOf(req.locale), gen)
        case Err(m) => ProductError(m, ErrorCode)
        case Ok(recs) => ProductSuccess(recs)
  }

  // ---------------------------------------------------------------------
  // The request as the API layer sends it: `request.model_dump()`.
  // ---------------------------------------------------------------------

  /** A validated `ProductInfo` as a product dict. `show` is Python's `str` of
      a float; the list-valued `ingredients` is not among the string fields. */
  function DumpProduct(info: Schemas.ProductInfo, show: real -> string): (q: Product)
    ensures q.productId == Some(info.productId)
    ensures forall i :: 0 <= i < |PromptFields| ==> PromptFields[i] in q.fields
  {
    Product(Some(info.productId),
            map["brand" := info.brand, "product_name" := info.productName, "category" := info.category,
                "price" := IntToString(info.price), "review_score" := show(info.reviewScore),
                "review_count" := IntToString(info.reviewCount)])
  }

  /** `model_dump()` of a validated request: every key is present, a `None`
      locale included, so the service reads back the schema's locale. */
  function DumpRequest(req: Schemas.ProductRequest, show: real -> string): (d: ProductRequest)
    ensures d.skinAnalysis == Some(req.skinAnalysis) && d.recommendedCategories == Some(req.recommendedCategories)
    ensures !d.locale.Absent? && LocaleOf(d.locale) == req.locale
    ensures d.filteredProducts.Some? && |d.filteredProducts.value| == |req.filteredProducts|
    ensures forall i :: 0 <= i < |req.filteredProducts| ==>
              d.filteredProducts.value[i] == DumpProduct(req.filteredProducts[i], show)
  {
    ProductRequest(Some(req.skinAnalysis), Some(req.recommendedCategories),
                   Some(seq(|req.filteredProducts|, i requires 0 <= i < |req.filteredProducts| =>
                              DumpProduct(req.filteredProducts[i], show))),
                   if req.locale.Some? then Present(req.locale.value) else Null)
  }

  /** A request that passed the schema always gets one recommendation per
      product, in order, once the API key is set: the checks pass, every
      product has an id, and every prompt field is present. */
  lemma DumpedRequestSucceeds(req: Schemas.ProductRequest, show: real -> string, apiKey: string,
                              gen: (int, int) -> Reply)
    requires |apiKey| > 0
    ensures var r := Respond(DumpRequest(req, show), apiKey, gen);
            r.ProductSuccess? && |r.recommendations| == |req.filteredProducts| &&
            forall i :: 0 <= i < |req.filteredProducts| ==>
              r.recommendations[i].productId == req.filteredProducts[i].productId
  {
    var d := DumpRequest(req, show);
    var products := d.filteredProducts.value;
    RecommendationsOk(req.skinAnalysis, req.recommendedCategories, products, LocaleOf(d.locale), gen);
    RecommendationsPerProduct(req.skinAnalysis, req.recommendedCategories, products, LocaleOf(d.locale), gen);
  }

  /** The schema's default locale "ko-KR" and the service's default for an
      absent key agree: either way every prompt has the Korean wording. */
  lemma DefaultLocaleIsKorean(skin: map<string, int>, categories: seq<string>,
                              infos: seq<Schemas.ProductInfo>, show: real -> string, i: nat)
    requires i < |infos|
    ensures var d := DumpRequest(Schemas.ProductRequestDefaultLocale(skin, categories, infos), show);
            var prompt := BuildPrompt(skin, categories, d.filteredProducts.value[i], LocaleOf(d.locale));
            var omitted := BuildPrompt(skin, categories, d.filteredProducts.value[i], LocaleOf(Absent));
            prompt.Ok? && prompt.value.korean && omitted.Ok? && omitted.value.korean
  {
  }

  /** A request whose locale is `null` passes the schema, and the dump hands
      the service `None`, which is not "ko-KR": every prompt gets the English
      wording. */
  lemma NullLocaleIsEnglish(skin: map<string, int>, categories: seq<string>,
                            infos: seq<Schemas.ProductInfo>, show: real -> string, i: nat)
    requires i < |infos|
    ensures var d := DumpRequest(Schemas.ProductRequest(skin, categories, infos, None), show);
            var prompt := BuildPrompt(skin, categories, d.filteredProducts.value[i], LocaleOf(d.locale));
            prompt.Ok? && !prompt.value.korean
  {
  }

  /** `run_inference`: the product loop with the nested retry loop. */
  method RunInference(req: ProductRequest, apiKey: string, gen: (int, int) -> Reply) returns (r: ProductResponse)
    ensures r == Respond(req, apiKey, gen)
  {
    var check := CheckRequest(req);
    if check.Some? {
      return ProductError(check.value, ErrorCode);
    }
    if |apiKey| == 0 {
      return ProductError(MissingKeyMessage, ErrorCode);
    }
    var recs := RecommendAll(req.skinAnalysis.value, req.recommendedCategories.value, req.filteredProducts.value,
                             LocaleOf(req.locale), gen);
    if recs.Err? {
      return ProductError(recs.msg, ErrorCode);
    }
    return ProductSuccess(recs.value);
  }

  /** The product loop: one recommendation per product, in order. */
  method RecommendAll(skin: map<string, int>, categories: seq<string>, products: seq<Product>,
                      locale: Option<string>, gen: (int, int) -> Reply) returns (r: Result<seq<Recommendation>>)
    ensures r == Recommendations(skin, categories, products, locale, gen)
  {
    var recommendations: seq<Recommendation> := [];
    var p := 0;
    while p < |products|
      invariant 0 <= p <= |products|
      invariant Recommendations(skin, categories, products[..p], locale, gen) == Ok(recommendations)
    {
      var product := products[p];
      if product.productId.None? {
        RecommendationsFailExtend(skin, categories, products, locale, gen, p + 1);
        return Err(MissingIdMessage);
      }
      var rec := RecommendOne(skin, categories, product, locale, gen, p);
      RecommendationsSnoc(skin, categories, products, locale, gen, p, recommendations);
      recommendations := recommendations + [rec];
      p := p + 1;
    }
    assert products[..p] == products;
    return Ok(recommendations);
  }

  /** The retry loop for product `p`: up to three attempts, the first reply
      with text wins, and the third failure is kept. */
  method GenerateWithRetries(gen: (int, int) -> Reply, p: int) returns (outcome: Result<string>)
    ensures outcome == Generate(gen, p)
  {
    var attempt := 0;
    outcome := Err("");
    while attempt < MaxRetries
      invariant 0 <= attempt <= MaxRetries
      invariant attempt < MaxRetries ==> Generate(gen, p) == GenerateFrom(gen, p, attempt)
      invariant attempt == MaxRetries ==> outcome == Generate(gen, p)
      decreases MaxRetries - attempt
    {
      var reply := gen(p, attempt);
      var error := AttemptError(reply);
      if error.None? {
        outcome := Ok(Strip(reply.text));
        break;
      }
      if attempt == MaxRetries - 1 {
        outcome := Err(error.value);
      }
      attempt := attempt + 1;
    }
  }

  /** The body of the product loop for a product with an id: the prompt, the
      retries, and the fallback reason. */
  method RecommendOne(skin: map<string, int>, categories: seq<string>, product: Product,
                      locale: Option<string>, gen: (int, int) -> Reply, p: int) returns (rec: Recommendation)
    requires product.productId.Some?
    ensures Ok(rec) == RecommendationFor(skin, categories, product, locale, gen, p)
  {
    var reason: string;
    var prompt := BuildPrompt(skin, categories, product, locale);
    if prompt.Err? {
      reason := FallbackPrefix + prompt.msg;
    } else {
      var outcome := GenerateWithRetries(gen, p);
      reason := if outcome.Ok? then outcome.value else FallbackPrefix + outcome.msg;
    }
    rec := Recommendation(product.productId.value, reason);
  }

  lemma RecommendationsSnoc(skin: map<string, int>, categories: seq<string>, products: seq<Product>,
                            locale: Option<string>, gen: (int, int) -> Reply, p: nat, front: seq<Recommendation>)
    requires p < |products| && Recommendations(skin, categories, products[..p], locale, gen) == Ok(front)
    requires RecommendationFor(skin, categories, products[p], locale, gen, p).Ok?
    ensures Recommendations(skin, categories, products[..p + 1], locale, gen) ==
            Ok(front + [RecommendationFor(skin, categories, products[p], locale, gen, p).value])
  {
    CollectSnoc(products, RecommendStep(skin, categories, locale, gen), p, front);
  }

  /** A product without an id fails the whole list. */
  lemma RecommendationsFailExtend(skin: map<string, int>, categories: seq<string>,
                                  products: seq<Product>, locale: Option<string>,
                                  gen: (int, int) -> Reply, n: nat)
    requires 0 < n <= |products| && products[n - 1].productId.None?
    ensures Recommendations(skin, categories, products, locale, gen) == Err(MissingIdMessage)
  {
    RecommendationsOk(skin, categories, products, locale, gen);
    assert !(forall i :: 0 <= i < |products| ==> products[i].productId.Some?);
    RecommendationsErrMessage(skin, categories, products, locale, gen);
  }

  /** The only error the list raises is the missing-id `KeyError`. */
  lemma RecommendationsErrMessage(skin: map<string, int>, categories: seq<string>,
                                  products: seq<Product>, locale: Option<string>, gen: (int, int) -> Reply)
    ensures var r := Recommendations(skin, categories, products, locale, gen);
            r.Err? ==> r.msg == MissingIdMessage
  {
    CollectErr(products, RecommendStep(skin, categories, locale, gen), MissingIdMessage);
  }
}
