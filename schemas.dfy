/** Field constraints and defaults of the request/response models (schemas.py). */
module Schemas {
  import opened Wrappers

  /** NIAPredictions: five integer scores, each in [0, 100]. */
  const NiaPredictionFields: set<string> :=
    {"pigmentation_reg", "moisture_reg", "elasticity_reg", "wrinkle_reg", "pore_reg"}

  predicate InScoreRange(v: int) { 0 <= v <= 100 }

  predicate IsNiaPredictions(m: map<string, int>) {
    m.Keys == NiaPredictionFields && forall k :: k in m ==> InScoreRange(m[k])
  }

  /** SkinAnalysis: five classification and five regression scores, each in [0, 100]. */
  const SkinAnalysisFields: set<string> :=
    {"dryness", "pigmentation", "pore", "sagging", "wrinkle",
     "pigmentation_reg", "moisture_reg", "elasticity_reg", "wrinkle_reg", "pore_reg"}

  predicate IsSkinAnalysis(m: map<string, int>) {
    m.Keys == SkinAnalysisFields && forall k :: k in m ==> InScoreRange(m[k])
  }

  /** ProductInfo (ingredients defaults to the empty list). */
  datatype ProductInfo = ProductInfo(
    productId: string, productName: string, brand: string, category: string,
    price: int, reviewScore: real, reviewCount: int, ingredients: seq<string>)

  predicate IsProductInfo(p: ProductInfo) {
    p.price >= 0 && p.reviewCount >= 0 && 0.0 <= p.reviewScore <= 5.0
  }

  /** Builds a ProductInfo the way the model does when `ingredients` is omitted. */
  function ProductInfoWithoutIngredients(
    productId: string, productName: string, brand: string, category: string,
    price: int, reviewScore: real, reviewCount: int): (p: ProductInfo)
    ensures p.ingredients == []
    ensures p.productId == productId && p.productName == productName && p.brand == brand
    ensures p.category == category && p.price == price && p.reviewScore == reviewScore
    ensures p.reviewCount == reviewCount
  {
    ProductInfo(productId, productName, brand, category, price, reviewScore, reviewCount, [])
  }

  const DefaultLocale: string := "ko-KR"

  /** ProductRequest as validated: at least one category and one product. */
  datatype ProductRequest = ProductRequest(
    skinAnalysis: map<string, int>, recommendedCategories: seq<string>,
    filteredProducts: seq<ProductInfo>, locale: Option<string>)

  predicate IsProductRequest(r: ProductRequest) {
    && IsSkinAnalysis(r.skinAnalysis)
    && |r.recommendedCategories| >= 1
    && |r.filteredProducts| >= 1
    && forall i :: 0 <= i < |r.filteredProducts| ==> IsProductInfo(r.filteredProducts[i])
  }

  /** The request the validator builds when `locale` is omitted. */
  function ProductRequestDefaultLocale(
    skin: map<string, int>, categories: seq<string>, products: seq<ProductInfo>): (r: ProductRequest)
    ensures r.locale == Some("ko-KR")
    ensures r.skinAnalysis == skin && r.recommendedCategories == categories && r.filteredProducts == products
  {
    ProductRequest(skin, categories, products, Some(DefaultLocale))
  }

  /** MakeupRequest: two required images; everything else optional with defaults. */
  datatype MakeupRequest = MakeupRequest(
    sourceImage: string, styleImage: string, poseImage: Option<string>,
    resolution: int, steps: int, guidance: real, precision: string,
    seed: Option<int>, saveToDisk: bool, outputDir: string,
    idName: Option<string>, refName: Option<string>, idPath: Option<string>, refPath: Option<string>)

  function MakeupRequestDefaults(source: string, style: string): (r: MakeupRequest)
    ensures r.sourceImage == source && r.styleImage == style
    ensures r.resolution == 512 && r.steps == 30 && r.guidance == 2.0
    ensures r.precision == "fp16" && !r.saveToDisk && r.outputDir == "data/output"
    ensures r.poseImage.None? && r.seed.None?
    ensures r.idName.None? && r.refName.None? && r.idPath.None? && r.refPath.None?
  {
    MakeupRequest(source, style, None, 512, 30, 2.0, "fp16", None, false, "data/output",
                  None, None, None, None)
  }

  /** FeedbackRequest: an optional path, absent by default. */
  datatype FeedbackRequest = FeedbackRequest(predictionsJsonPath: Option<string>)

  function FeedbackRequestDefault(): (r: FeedbackRequest)
    ensures r.predictionsJsonPath.None?
  {
    FeedbackRequest(None)
  }
}
