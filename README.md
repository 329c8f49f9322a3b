# Beautiq AI services — a verified Dafny model of their decision and arithmetic core

The Beautiq back end wraps pretrained models (Stable Diffusion, CLIP,
SegFormer, ResNet, SPIGA, Gemini) in small FastAPI services. This project
models the deterministic logic around those model calls and proves what that
logic promises:

- **Skin analysis** (`NiaService`, `AppNiaService`, `Schemas`): the
  clamp-and-scale normalisation, the 0–100 score conversion (inverted for
  pigmentation, wrinkle and pore), the per-indicator denormalisation, the
  face-crop clamp and the per-region fan-out of the application variant.
  The application variant's `detect_and_crop_face` and
  `denormalize_regression` (app/service/nia_service.py:34-99) are the same
  code as those of service/nia_service.py apart from whitespace, so
  `AppNiaService` reuses `NiaService.FaceCrop` and
  `NiaService.DenormalizeRegression`.
- **Training data** (`DataLoader`, `DataSplit`): the file-skip rule, the
  label scaling `norm_reg` and its round trip with the service's
  denormalisation, the record filters, the index the loader builds, and both
  train/validation/test partitions.
- **Crop geometry** (`SpigaDraw`, `ImgCrop`): the centre crop, the
  aspect-preserving resize, the face boxes from landmarks, the patch
  construction of the 68-point drawing, and the crop box and output name of
  the dataset crop tool.
- **Customisation** (`CustomizationApi`, `CustomizationService`,
  `AppCustomizationService`): the region alias map and intensity clamp,
  the per-pixel blend, the mask normalisation, and how the edits are folded
  into images or into per-region blend weights.
- **Decisions around model calls** (`ProductService`, `FeedbackService`,
  `StyleService`, `EncoderPlus`): the product request checks, the
  three-attempt retry and per-product fallback, the category scores and
  thresholds; the feedback input precedence; the style ranking (stable
  top three); and the attention-processor assignment of the detail encoder.
- **Error mapping** (`Errors`): the HTTP error helpers and the
  keyword-driven 422/500 choice.

Shared modules: `Wrappers` (Option and Result), `PyStr` (the Python string
operations the services use: split, strip, find, lower, zfill, integer
formatting and parsing) and `PyNum` (`int()` truncation toward zero, min,
max, clip).

Every model, detector, LLM, codec and file-system call is a parameter: a
function value of the method or function that needs it (an "oracle"), or a
value it receives. Loops of the source are `while` loops
proved against a recursive specification function. Objects whose fields the
source updates are classes: the data loader (`DataLoader.Loader`) and the
exception `Errors.AppError`. The endpoint of the customisation API rewrites
the request's edits in place, so its loop works on an `array`
(`CustomizationApi.NormalizeEdits`, `CustomizationApi.ApplyCustomization`).
The rest, code that only computes values, is datatypes, functions and
lemmas.

The training script asks `load_dataset` for the mode "valid", which is not
"val", so it is served the test split (`DataLoader.ValidSelectsTest`).

## Model

| member | source | states |
|---|---|---|
| Errors.AppError.constructor | utils/errors.py:4-9 | the error keeps its message; the code defaults to "APP_ERROR" and the status to 500 |
| Errors.BadRequest | utils/errors.py:11-12 | status 400, the detail carries the message and the code (default "BAD_REQUEST") |
| Errors.Unprocessable | utils/errors.py:14-15 | status 422, the detail carries the message and the code (default "UNPROCESSABLE_ENTITY") |
| Errors.InternalError | utils/errors.py:17-18 | status 500, the detail carries the message and the code (default "INTERNAL_ERROR") |
| Errors.DefaultCodes | utils/errors.py:11-18 | called without a code, each helper uses its own default code |
| Errors.ResultMessage | utils/errors.py:22 | no message exactly when the "message" entry holds `None`; "Unknown error" for a missing result or a missing entry; the stored message when the entry holds a string |
| Errors.AnyIn | utils/errors.py:24 | true exactly when some keyword occurs as a substring of the lower-cased message |
| Errors.MapServiceError | utils/errors.py:20-26 | a "message" holding `None` raises the AttributeError of `None.lower()`; otherwise the detail message is the result's "message" (or "Unknown error"), with 422 exactly when a client keyword occurs in it and 500 exactly when none does |
| Errors.CaseInsensitive | utils/errors.py:23-24 | messages equal up to letter case get the same status |
| Errors.KeywordGives422 | utils/errors.py:24-25 | a message containing any keyword, in any case, gives 422 with UNPROCESSABLE_ENTITY |
| Errors.NoKeywordGives500 | utils/errors.py:24-26 | a message containing no keyword gives 500 with INTERNAL_ERROR |
| Errors.NoKeywordLetters | utils/errors.py:24 | each keyword contains one of m, v, b, f, j, so a message with none of those letters holds no keyword |
| Errors.UnknownErrorGives500 | utils/errors.py:22-26 | a missing result or a result without "message" gives 500 with detail ("Unknown error", "INTERNAL_ERROR") |
| Errors.NoneMessageRaises | utils/errors.py:22-23 | a result whose "message" is `None` makes the mapping raise "'NoneType' object has no attribute 'lower'" |
| Schemas.ProductInfoWithoutIngredients | schemas.py:72-81 | a product given without ingredients has the empty ingredient list, and every other field is the one given |
| Schemas.ProductRequestDefaultLocale | schemas.py:83-88 | a product request given without a locale has "ko-KR"; the field is optional, so it may also hold `None` |
| Schemas.MakeupRequestDefaults | schemas.py:117-133 | a makeup request with only the two images gets resolution 512, 30 steps, guidance 2.0, "fp16", no saving, "data/output" and no optional names or paths |
| Schemas.FeedbackRequestDefault | schemas.py:38-47 | a feedback request without a path has no path |
| NiaService.Normalize | service/nia_service.py:85-90 | equal bounds give 0; otherwise the result is in [0, 1], 0 at or below the minimum, 1 at or above the maximum, and an exact linear rescaling in between |
| NiaService.NormalizeMonotone | service/nia_service.py:85-90 | normalization never reverses the order of two values |
| NiaService.DenormalizeRegression | service/nia_service.py:92-105 | moisture ×100, wrinkle_Ra ×50, pigmentation and count ×350 and pore ×2600, each truncated to an int; elasticity_R2 and any other name stay the float value |
| NiaService.DenormalizeMonotone | service/nia_service.py:92-105 | denormalization never reverses the order of two network outputs |
| NiaService.PositiveScore | service/nia_service.py:111-115 | a "higher is better" score lies in [0, 100]: 0 at or below the minimum, 100 at or above the maximum |
| NiaService.InvertedScore | service/nia_service.py:117-125 | a "higher is worse" score lies in [0, 100]: 100 at or below the minimum, 0 at or above the maximum |
| NiaService.PositiveScoreMonotone | service/nia_service.py:111-115 | a larger value never gets a smaller "higher is better" score |
| NiaService.InvertedScoreAntitone | service/nia_service.py:117-125 | a larger value never gets a larger "higher is worse" score |
| NiaService.ScoreMap | service/nia_service.py:127-133 | the dictionary has exactly the five `*_reg` keys, each holding its score, and is a valid NIAPredictions when every score is in range |
| NiaService.ScoresOf | service/nia_service.py:111-125 | all five scores lie in [0, 100] |
| NiaService.ConvertToScore | service/nia_service.py:107-133 | the result is a valid NIAPredictions: the five `*_reg` keys, each in [0, 100] |
| NiaService.ConvertMissingIndicators | service/nia_service.py:111-125 | a missing indicator reads as 0: moisture and elasticity score 0, and wrinkle, pigmentation and pore score 100 |
| NiaService.GetOrZero | service/nia_service.py:111-124 | `regression_raw.get(key, 0)`: the lookup `ConvertMissingIndicators` proves reads 0 for a missing indicator |
| NiaService.ConvertToScoreDirections | service/nia_service.py:110-125 | raising moisture or elasticity never lowers its score; raising pigmentation, wrinkle or pore never raises its score |
| NiaService.FaceCrop | service/nia_service.py:49-64 | the crop stays inside the image; with a non-negative margin and a detected box inside the image, the crop is non-empty and contains the box (clamped to the image) |
| NiaService.DetectAndCropFace | service/nia_service.py:34-70 | with no detection the whole image is kept; the crop always stays inside the image |
| NiaService.RegressionRaw | service/nia_service.py:153-159 | one entry per model, each the model's output denormalized under the model's name |
| NiaService.RunInference | service/nia_service.py:135-186 | a missing image gives "Missing required field: image_base64"; a raised exception gives its message; success exactly when the image is present and every stage succeeded, and then the predictions are the converted scores of the denormalized outputs and valid |
| AppNiaService.ClassPredictions | app/service/nia_service.py:117-124 | one key per classification model, each an int grade |
| AppNiaService.RegressionRaw | app/service/nia_service.py:128-134 | one key per regression model |
| AppNiaService.ClassPredictionsKeepLast | app/service/nia_service.py:120-124 | the last model read under a name decides that key: its grade as an int |
| AppNiaService.ClassGradesKept | app/service/nia_service.py:120-124 | with distinct model names every model's grade is under its own name |
| AppNiaService.RegressionRawKeepsLast | app/service/nia_service.py:128-134 | the last model read under a name decides that key: its output denormalized under that name |
| AppNiaService.RegressionValuesKept | app/service/nia_service.py:128-134 | with distinct model names every model's output is denormalized under its own name |
| AppNiaService.FanOut | app/service/nia_service.py:136-151 | the ten region keys are added and all others are kept; each region takes its indicator's value (0, or 0.0 for elasticity, when missing), shared across the forehead, cheek and chin keys |
| AppNiaService.RegionShowsIndicator | app/service/nia_service.py:136-151 | each indicator present in the raw values appears unchanged under its region key |
| AppNiaService.RegionValuesAreDenormalized | app/service/nia_service.py:128-151 | with distinct model names, the region key of every indicator model (chin_moisture, cheek_pore, cheek_pigmentation, perocular_wrinkle_Ra, chin_elasticity_R2) carries that model's output denormalized under its name |
| AppNiaService.RunInference | app/service/nia_service.py:101-175 | a missing image, a raised exception and a failed file write each give an error with their message; otherwise success with the class grades overlaid by the region fan-out |
| AppNiaService.CollectClasses | app/service/nia_service.py:120-124 | the loop builds exactly the classification dictionary |
| AppNiaService.CollectRegressions | app/service/nia_service.py:127-134 | the loop builds exactly the denormalized regression dictionary |
| DataSplit.KeepFrontal | tool/data_loader.py:69-74 | the filter of one sub-folder succeeds exactly when every path has a second-to-last "_" field |
| DataSplit.KeepFrontalMembers | tool/data_loader.py:69-74 | a successful filter keeps exactly the frontal ("F") paths and never grows the list |
| DataSplit.FilterFrontal | tool/data_loader.py:70-73 | the `tt_list` loop computes the frontal filter, raising exactly when it does |
| DataSplit.SliceLengthsFit | tool/data_loader.py:54 | the train and validation lengths are the truncated 80 % and 10 % of the grade's size and together never exceed it |
| DataSplit.TrainLen | tool/data_loader.py:54 | `int(n * 0.8)` over exact reals, as `4n / 5`; bounds proved in `SliceLengthsFit` |
| DataSplit.ValLen | tool/data_loader.py:54 | `int(n * 0.1)` over exact reals, as `n / 10`; bounds proved in `SliceLengthsFit` |
| DataSplit.SplitKeys | tool/data_loader.py:54-59 | the three slices concatenate back to the shuffled list, with lengths int(n·0.8), int(n·0.1) and the rest |
| DataSplit.Lookup | tool/data_loader.py:66 | the train part holds each listed sub-folder's paths, in order |
| DataSplit.ClassSplit | tool/data_loader.py:51-75 | train takes each of its sub-folders whole; validation and test take each sub-folder's frontal filter; success exactly when no validation or test path lacks the area field, otherwise the IndexError |
| DataSplit.ClassSplitKeepsFrontal | tool/data_loader.py:62-75 | a train entry holds exactly its sub-folder's paths; a validation or test entry holds exactly its frontal paths |
| DataSplit.SplitGrade | tool/data_loader.py:51-75 | the per-grade loop computes the class split |
| DataSplit.FilterEach | tool/data_loader.py:68-74 | the loop over a validation or test slice filters each sub-folder in order, raising exactly when the filter does |
| DataSplit.FilterAll | tool/data_loader.py:68-74 | the frontal filter of each listed sub-folder, or none when one raises; `FilterEach` computes it |
| DataSplit.AddGroup | tool/data_loader.py:351-359 | one group's values are added without error exactly when the group goes to train or every value has the area field |
| DataSplit.AddGroupMembers | tool/data_loader.py:351-359 | a group adds its values only to its own part (validation and test keep only the frontal ones) and leaves the other parts unchanged |
| DataSplit.RegressionSplit | tool/data_loader.py:345-361 | the split succeeds exactly when every value of a validation or test group has the area field |
| DataSplit.RegressionSplitMembers | tool/data_loader.py:349-360 | train holds exactly the values of groups with counter ≢ 8, 9 (mod 10); validation and test hold exactly the frontal values of groups ≡ 8 and ≡ 9 |
| DataSplit.TrainMembers | tool/data_loader.py:358-359 | train membership is exactly membership in a train group |
| DataSplit.ValMembers | tool/data_loader.py:352-354 | validation membership is exactly a frontal value of a group ≡ 8 (mod 10) |
| DataSplit.TestMembers | tool/data_loader.py:355-357 | test membership is exactly a frontal value of a group ≡ 9 (mod 10) |
| DataSplit.GenerateRegressionSplit | tool/data_loader.py:345-361 | the loop, with the counter advanced once per group, computes the regression split |
| DataSplit.AddValues | tool/data_loader.py:351-359 | the inner loop adds one group's values as the split does |
| DataSplit.RegressionSplitDisjoint | tool/data_loader.py:349-360 | a value filed in only one group never lands in two parts |
| DataLoader.ShouldSkipImage | tool/data_loader.py:233-263 | the IndexError exactly when the third "_" field is missing, or the fourth is missing for a listed angle; with four fields, skip exactly when (angle, area code) is in the equipment's table; an unlisted angle is never skipped |
| DataLoader.NormReg | tool/data_loader.py:314-333 | succeeds exactly when the indicator's last "_" field is R2, moisture, Ra, pigmentation, count or pore, otherwise fails the assertion; R2 passes the value through |
| DataLoader.NormRegMoisture | tool/data_loader.py:320-321 | "moisture" labels are divided by 100 |
| DataLoader.NormRegWrinkle | tool/data_loader.py:323-324 | "wrinkle_Ra" labels are divided by 50 |
| DataLoader.NormRegPigmentation | tool/data_loader.py:326-327 | "pigmentation" labels are divided by 350 |
| DataLoader.NormRegCount | tool/data_loader.py:326-327 | "count" labels are divided by 350 |
| DataLoader.NormRegPore | tool/data_loader.py:329-330 | "pore" labels are divided by 2600 |
| DataLoader.RoundTripMoisture | tool/data_loader.py:320-321 | over exact reals, an integer moisture label normalized for training comes back exactly from the inference-side denormalization (service/nia_service.py:96-97) |
| DataLoader.RoundTripWrinkle | tool/data_loader.py:323-324 | over exact reals, the same round trip for wrinkle_Ra (service/nia_service.py:98-99) |
| DataLoader.RoundTripPigmentation | tool/data_loader.py:326-327 | over exact reals, the same round trip for pigmentation (service/nia_service.py:100-101) |
| DataLoader.RoundTripCount | tool/data_loader.py:326-327 | over exact reals, the same round trip for count (service/nia_service.py:100-101) |
| DataLoader.RoundTripPore | tool/data_loader.py:329-330 | over exact reals, the same round trip for pore (service/nia_service.py:102-103) |
| DataLoader.RoundTripElasticity | tool/data_loader.py:317-318 | over exact reals, elasticity_R2 passes unchanged through both normalization and denormalization |
| DataLoader.DenormalizeThenNormReg | tool/data_loader.py:314-330 | over exact reals, in the other direction, a non-negative network output loses less than one unit of its scale (moisture and pore) |
| DataLoader.FolderEquipment | tool/data_loader.py:107-122 | a hidden folder is skipped; a folder is read only under a selected equipment number |
| DataLoader.FolderEquipmentOfNumber | tool/data_loader.py:113-120 | "n. title" and "n" are read as equipment n exactly when n is selected |
| DataLoader.Description | tool/data_loader.py:203-213 | the description exists exactly when the file stem has at least four "_" fields |
| DataLoader.DescriptionFields | tool/data_loader.py:203-213 | the description splits back on "_" into Sub, subject, Equ, equipment, Angle, angle, Area, area |
| DataLoader.ClassLabel | tool/data_loader.py:215-220 | the label is int(grade), except that sagging 6 becomes 5; no label when int raises |
| DataLoader.SaggingLabelsInSixClasses | tool/data_loader.py:218-220 | sagging grades 0 to 6 become labels 0 to 5 |
| DataLoader.SelectSplit | tool/data_loader.py:266-270 | "train" selects train, "val" selects validation, and every other mode selects test |
| DataLoader.ValidSelectsTest | tool/data_loader.py:266-270 | the mode "valid" is served the test split |
| DataLoader.Drops | tool/data_loader.py:156-166 | empty annotations raise the IndexError in every mode; class mode drops acne-first records and records without a bbox; regression mode drops records without equipment or a bbox |
| DataLoader.ClassKey | tool/data_loader.py:170-173 | a name without "_" raises; the key is the last "_" field, with the area appended for wrinkle and pigmentation in test mode |
| DataLoader.Push | tool/data_loader.py:175-185 | appending to a defaultdict(list) adds the key if needed, appends at its end and leaves every other key alone |
| DataLoader.ClassRecordsFails | tool/data_loader.py:169-177 | the class branch raises exactly when some annotation name has no "_" |
| DataLoader.ClassRecords | tool/data_loader.py:169-177 | the class index after the annotation loop; `ClassRecordsFails`, `ClassRecordsFiles`, `ClassRecordsKeeps`, `ClassRecordsOtherFolders` and `ClassRecordsOnlyPath` state what it holds |
| DataLoader.ClassRecordsFiles | tool/data_loader.py:169-177 | when it does not raise, the stem path is filed under every annotation's (category, grade, sub-folder) key |
| DataLoader.ClassRecordsKeeps | tool/data_loader.py:175-177 | existing lists are only extended |
| DataLoader.ClassRecordsOtherFolders | tool/data_loader.py:175-177 | lists under other sub-folders are untouched |
| DataLoader.ClassRecordsOnlyPath | tool/data_loader.py:175-177 | the only element added is the stem path |
| DataLoader.RegressionRecordsFiles | tool/data_loader.py:179-190 | each measurement whose name contains a target is filed under (name, value, sub-folder) with [path, value] |
| DataLoader.RegressionRecords | tool/data_loader.py:179-190 | the regression index after the measurement loop; `RegressionRecordsFiles` and `RegressionRecordsKeeps` state what it holds |
| DataLoader.RegressionRecordsKeeps | tool/data_loader.py:179-190 | lists are only extended, only under targeted names in this sub-folder, and only with entries for this path |
| DataLoader.SampleOf | tool/data_loader.py:203-231 | a stem with fewer than four fields raises; otherwise the sample carries the description and, in class mode, the class label, else the normalized value or the assertion failure |
| DataLoader.ClassSampleLabel | tool/data_loader.py:215-220 | a grade written into the index by str comes back as the same label (sagging 6 as 5) |
| DataLoader.Loader.constructor | tool/data_loader.py:26-31 | a new loader keeps its two modes and starts with empty indexes (the defaultdicts `load_list` creates) and an empty sample list |
| DataLoader.Loader.ProcessJsonMeta | tool/data_loader.py:153-190 | raises, drops or records as the rules say; class-mode records go into the class index (partial appends stay when a name raises), regression records into the regression index, and nothing else changes |
| DataLoader.Loader.RecordClass | tool/data_loader.py:169-177 | the class loop leaves the class index as the fold gives it and reports the raise |
| DataLoader.Loader.RecordRegression | tool/data_loader.py:179-190 | the regression loop leaves the regression index as the fold gives it |
| DataLoader.Loader.SaveDict | tool/data_loader.py:191-231 | a missing or unreadable image appends nothing; otherwise the sample is appended, or the error is raised and nothing is appended |
| ProductService.ConcernFor | service/product_service.py:118-156 | a category's representative score is the smaller of its classification and regression scores (each 100 when absent) |
| ProductService.ConcernsShape | service/product_service.py:116-156 | one concern line per known category, never more lines than categories, and every score at most 100 when the analysis scores are |
| ProductService.UnknownCategoriesAddNothing | service/product_service.py:118-156 | categories outside the five known ones add no line |
| ProductService.EmptyAnalysisScoresDefault | service/product_service.py:124-156 | with an empty analysis every representative score is 100 |
| ProductService.ConcernDetails | service/product_service.py:116-156 | the loop builds exactly the concern lines, in category order |
| ProductService.CatalogueAgrees | service/product_service.py:98-113 | the prompt's names and thresholds agree with the category catalogue of the product API (api/product.py), which lists exactly the known categories |
| ProductService.KoreanName | service/product_service.py:98-119 | `category_map.get(category, category)`; `CatalogueAgrees` ties it to the product catalogue |
| ProductService.Threshold | service/product_service.py:106-120 | `thresholds.get(category, 70)`; `CatalogueAgrees` ties it to the product catalogue |
| ProductService.Concerns | service/product_service.py:116-156 | the concern lines; `ConcernsShape`, `UnknownCategoriesAddNothing`, `EmptyAnalysisScoresDefault` and `ConcernDetails` state what they hold |
| ProductService.MissingField | service/product_service.py:167-172 | none exactly when every field the template indexes is present; otherwise a field that is listed and missing |
| ProductService.BuildPrompt | service/product_service.py:94-210 | the prompt fails with the KeyError exactly when a template field is missing; it carries the concern lines and the product, and is Korean exactly for "ko-KR" (a `None` locale is not) |
| ProductService.GenerateFrom | service/product_service.py:46-68 | the retry loop from one attempt on: the first attempt that does not raise gives its stripped text, and the third attempt's error escapes; `GenerateTakesFirst` and `GenerateReraisesThird` state this |
| ProductService.Generate | service/product_service.py:46-68 | the three attempts from the first; `GenerateSucceeds` states when it succeeds |
| ProductService.FirstGoodReplyWins | service/product_service.py:47-63 | a first reply with text gives its stripped text |
| ProductService.GenerateSucceeds | service/product_service.py:46-68 | generation succeeds exactly when one of the three attempts has text |
| ProductService.GenerateTakesFirst | service/product_service.py:47-63 | the reason is the stripped text of the first attempt that did not raise |
| ProductService.GenerateReraisesThird | service/product_service.py:65-67 | when all three attempts fail, the third error escapes |
| ProductService.AtMostThreeAttempts | service/product_service.py:46-47 | replies after the third attempt are never consulted |
| ProductService.GeneratedReasonStripped | service/product_service.py:62 | a generated reason has no surrounding whitespace |
| ProductService.BlankTextGivesEmptyReason | service/product_service.py:59-63 | whitespace-only text passes the emptiness check, so no retry is made and the reason is empty |
| ProductService.RecommendationFor | service/product_service.py:35-80 | a recommendation exists exactly when the product has an id, and carries that id; otherwise the KeyError of "product_id" escapes the per-product handler |
| ProductService.Reason | service/product_service.py:36-80 | the reason text or the fallback message; `ReasonCases` states both branches |
| ProductService.ReasonCases | service/product_service.py:36-80 | the reason is the generated text, or the fallback message carrying the prompt's KeyError or the last attempt's error |
| ProductService.RecommendationsOk | service/product_service.py:35-80 | the product loop fails exactly when some product has no id |
| ProductService.RecommendationsPerProduct | service/product_service.py:35-80 | one recommendation per product, in input order, each the one computed for that product alone |
| ProductService.RecommendationsErrMessage | service/product_service.py:71-79 | the only error the loop raises is the KeyError of "product_id" |
| ProductService.RecommendationsFailExtend | service/product_service.py:71-79 | any product without an id fails the whole list |
| ProductService.Recommendations | service/product_service.py:35-80 | the product loop's list; `RecommendationsOk`, `RecommendationsPerProduct` and `RecommendationsErrMessage` state what it holds |
| ProductService.CheckRequest | service/product_service.py:17-22 | the request passes exactly when skin_analysis, recommended_categories and filtered_products are all present, and otherwise names the first one missing |
| ProductService.Respond | service/product_service.py:14-92 | a missing field or a missing API key gives that error; every error carries LLM_GENERATION_FAILED |
| ProductService.RunInference | service/product_service.py:14-92 | the request handler computes the response |
| ProductService.DumpProduct | api/product.py:65 | `model_dump` of a product keeps its id and supplies every field the prompt template indexes |
| ProductService.DumpRequest | api/product.py:65 | `model_dump` of a request keeps the skin analysis and the categories, supplies every product, in order, dumped, and always writes the locale key, so the service reads back the schema's locale, `None` included |
| ProductService.LocaleOf | service/product_service.py:27 | `request.get("locale", "ko-KR")`: "ko-KR" for an absent key, `None` exactly for a key holding `None`, the string otherwise |
| ProductService.NullLocaleIsEnglish | schemas.py:88 | a validated request with `"locale": null` reaches the service as `None`, and every prompt gets the English wording |
| ProductService.DumpedRequestSucceeds | api/product.py:60-68 | every request that passes validation, with an API key, gets one recommendation per product, carrying the products' ids in order |
| ProductService.DefaultLocaleIsKorean | schemas.py:83-88 | the default locale "ko-KR", and a locale left out of the dictionary, both give the Korean prompt |
| ProductService.RecommendAll | service/product_service.py:35-80 | the product loop computes the recommendation list |
| ProductService.GenerateWithRetries | service/product_service.py:46-68 | the retry loop computes the outcome of the three attempts |
| ProductService.RecommendOne | service/product_service.py:36-80 | the loop body computes the recommendation of a product with an id |
| CustomizationService.MaxOf | service/customization_service.py:20 | the maximum is at least every value and is one of them |
| CustomizationService.SmoothMask | service/customization_service.py:17-20 | divides by the maximum when it is positive, keeping the size; `SmoothMaskUnitRange`, `SmoothMaskPeak` and `SmoothMaskZero` state its values |
| CustomizationService.SmoothMaskUnitRange | service/customization_service.py:17-20 | a non-negative blurred mask smooths to weights in [0, 1] |
| CustomizationService.SmoothMaskPeak | service/customization_service.py:20 | a blurred mask that is not all zero has largest smoothed weight exactly 1 |
| CustomizationService.SmoothMaskZero | service/customization_service.py:20 | an all-zero mask is returned unchanged |
| CustomizationService.MaskedSumBounds | service/customization_service.py:23-27 | the channel sum under the mask is between 0 and 255 times the masked pixel count |
| CustomizationService.RegionColor | service/customization_service.py:23-27 | an empty mask gives (0, 0, 0) |
| CustomizationService.MeanChannel | service/customization_service.py:23-27 | the truncated mean of one channel under the mask (0 for an empty mask); `MeanChannelIsByte` bounds it |
| CustomizationService.MeanChannelIsByte | service/customization_service.py:27 | the truncated mean channel of an 8-bit image is a byte |
| CustomizationService.RegionColorIsPixel | service/customization_service.py:23-27 | the mean colour of an 8-bit image is an 8-bit colour |
| CustomizationService.BlendTowardsBase | service/customization_service.py:31-39 | from intensity 50 upwards a channel moves towards the region colour by the fraction (intensity − 50)/100 × weight |
| CustomizationService.BlendTowardsWhite | service/customization_service.py:40-43 | below 50 a channel moves towards white (255) by a quarter of that fraction |
| CustomizationService.BlendNeutral | service/customization_service.py:31-39 | intensity 50 leaves a channel unchanged |
| CustomizationService.Blend | service/customization_service.py:30-43 | the two blend formulas chosen by the sign of `(intensity - 50) * 0.01`; `BlendTowardsBase`, `BlendTowardsWhite`, `BlendNeutral` and `BlendBetween` state what they give |
| CustomizationService.ConvexStep | service/customization_service.py:38-43 | a step of fraction t in [0, 1] from x towards y stays between x and y |
| CustomizationService.BlendBetween | service/customization_service.py:38-43 | with weight and intensity in range, the blend lies between the channel and its target |
| CustomizationService.OutChannel | service/customization_service.py:45 | after clipping and the uint8 cast every channel is a byte |
| CustomizationService.OutPixel | service/customization_service.py:45 | every output pixel is an 8-bit colour |
| CustomizationService.OutChannelNeutral | service/customization_service.py:31-45 | a byte channel at intensity 50 comes out unchanged |
| CustomizationService.ApplyIntensityMask | service/customization_service.py:30-45 | the output has the image's size, is 8-bit, and each pixel is its own blend towards the region colour under its smoothed weight |
| CustomizationService.ApplyNeutral | service/customization_service.py:30-45 | intensity 50 leaves an 8-bit image unchanged |
| CustomizationService.ApplyEdit | service/customization_service.py:130-140 | one edit keeps the image's size and keeps it 8-bit |
| CustomizationService.ApplyEdits | service/customization_service.py:130-140 | the edits applied in order keep the size and keep an 8-bit image 8-bit |
| CustomizationService.ApplyEditsCompose | service/customization_service.py:130-140 | applying two batches of edits in turn is applying their concatenation |
| CustomizationService.UnknownRegionIgnored | service/customization_service.py:131-140 | an edit without a known region, or a blush edit without landmarks, changes nothing |
| CustomizationService.DefaultIntensityNeutral | service/customization_service.py:132 | an edit without an intensity uses 50 and changes nothing |
| CustomizationService.Respond | service/customization_service.py:96-151 | a missing image and a missing or non-list edits field each fail with their message; success exactly when both are present and the image decodes |
| CustomizationService.RunInference | service/customization_service.py:96-151 | the edit loop, reassigning the image, computes the response and keeps an 8-bit image 8-bit |
| AppCustomizationService.RawBlend | app/service/customization_service.py:37 | the blend before the cast; `RawBlendConvex` bounds it for alphas and weights in [0, 1] and `RawBlendLeavesByteRange` shows it leaving [0, 255] |
| AppCustomizationService.RawBlendConvex | app/service/customization_service.py:37 | with alpha and weight in [0, 1] the blend lies between the channel and the region colour |
| AppCustomizationService.RawBlendLeavesByteRange | app/service/customization_service.py:37-38 | as written, alpha 2 (intensity 200) takes a channel of 200 with a black region colour to −200 before the 8-bit cast |
| AppCustomizationService.OutChannel | app/service/customization_service.py:37-38 | with the clip added, every output channel is a byte |
| AppCustomizationService.OutChannelNeedsNoClipInRange | app/service/customization_service.py:37-38 | for alphas and weights in [0, 1] the clip changes nothing: the output is the truncated blend the source computes |
| AppCustomizationService.OutChannelZeroAlpha | app/service/customization_service.py:37 | alpha 0 leaves a byte channel unchanged |
| AppCustomizationService.OutPixel | app/service/customization_service.py:37-38 | corrected, see ## Findings: with the clip every output pixel is an 8-bit colour |
| AppCustomizationService.ApplyMask | app/service/customization_service.py:29-38 | corrected, see ## Findings: the output has the image's size, is 8-bit, and each pixel is blended towards the region's mean colour under its smoothed weight |
| AppCustomizationService.ApplyMaskAsWritten | app/service/customization_service.py:29-38 | the blend as written, truncated with no clip, keeps the image's size |
| AppCustomizationService.ApplyMaskAgreesInRange | app/service/customization_service.py:29-38 | for an 8-bit image, an alpha in [0, 1] and a non-negative blur, the corrected mask is the mask as written |
| AppCustomizationService.StepAlpha | app/service/customization_service.py:99-112 | one edit sets the alpha of the region it names to intensity/100 and keeps the others |
| AppCustomizationService.Step | app/service/customization_service.py:99-112 | one loop iteration; `StepAlpha` and `IgnoredNames` state what it changes |
| AppCustomizationService.Fold | app/service/customization_service.py:96-112 | the four alphas after the loop; `UnnamedKeepsDefault`, `LastEditWins` and `ColorIgnored` state them |
| AppCustomizationService.FoldAlphasInUnit | app/service/customization_service.py:96-112 | intensities in [0, 100], or the default 30, give alphas in [0, 1] |
| AppCustomizationService.ParsedColor | app/service/customization_service.py:101-104 | a colour is parsed exactly when `color` is a non-empty dict (an empty one is falsy), each component read with default 0 |
| AppCustomizationService.UnnamedKeepsDefault | app/service/customization_service.py:96 | a region that no edit names keeps the default alpha 0.3 |
| AppCustomizationService.LastEditWins | app/service/customization_service.py:98-112 | the last edit naming a region decides its alpha |
| AppCustomizationService.ColorIgnored | app/service/customization_service.py:101-104 | the colours given in the edits have no effect on the alphas |
| AppCustomizationService.IgnoredNames | app/service/customization_service.py:105-112 | an edit for "eyelid", or for any name other than skin, lip, eye and blush, changes no alpha |
| AppCustomizationService.CollectAlphas | app/service/customization_service.py:96-112 | the loop over four local alphas computes the fold of the edits |
| AppCustomizationService.Compose | app/service/customization_service.py:130-137 | corrected, see ## Findings: the four masks applied in the fixed order keep the size and give an 8-bit image |
| AppCustomizationService.ComposeAsWritten | app/service/customization_service.py:130-137 | the four assignments as written keep the image's size |
| AppCustomizationService.ComposeAgreesInRange | app/service/customization_service.py:130-137 | with every alpha in [0, 1] the corrected composition is the one as written |
| AppCustomizationService.ZeroAlphasKeepImage | app/service/customization_service.py:130-137 | with every alpha 0 the image comes back unchanged |
| AppCustomizationService.Respond | app/service/customization_service.py:88-146 | corrected, see ## Findings: a missing image gives "No source image provided"; success exactly when the image is present and decodes |
| AppCustomizationService.NoEditsUseDefaults | app/service/customization_service.py:96-97 | a request without edits applies alpha 0.3 to every region |
| AppCustomizationService.RespondAsWritten | app/service/customization_service.py:88-146 | the handler as written succeeds exactly when the image is present and decodes |
| AppCustomizationService.RespondAgreesInRange | app/service/customization_service.py:88-146 | for an 8-bit image, intensities in [0, 100] and non-negative blurs, the corrected response is the source's |
| AppCustomizationService.RunInference | app/service/customization_service.py:88-146 | corrected, see ## Findings: the handler computes the clipped response, reassigning the result image once per mask; `RespondAgreesInRange` shows it is the source's for intensities in [0, 100] |
| CustomizationApi.RegionAlias | api/customization.py:15-21 | "eye" becomes "eyelid"; every other name is kept, and every known name maps to a service region |
| CustomizationApi.RegionAliasIdempotent | api/customization.py:42 | mapping a region twice is mapping it once |
| CustomizationApi.ClampIntensity | api/customization.py:43-44 | the intensity ends in [0, 100]: below 0 becomes 0, above 100 becomes 100, values inside are kept |
| CustomizationApi.ClampIdempotent | api/customization.py:43-44 | clamping twice is clamping once |
| CustomizationApi.Normalize | api/customization.py:41-44 | one loop iteration: the alias and the clamp; `NormalizeIsNormal` states its result |
| CustomizationApi.NormalizeIsNormal | api/customization.py:41-44 | a normalised edit names a service region when its name was known, has an intensity in [0, 100], and normalising it again changes nothing |
| CustomizationApi.NormalIsFixed | api/customization.py:41-44 | an edit that is already normal (and not "eye") is left as it is |
| CustomizationApi.NormalizeEdits | api/customization.py:41-44 | each edit of the list is rewritten in place to its normalised form |
| CustomizationApi.SavedPath | api/customization.py:60 | the saved file lies under the output directory and ends in ".png" |
| CustomizationApi.Respond | api/customization.py:47-71 | corrected, see ## Findings: success exactly when the service reports "success", the directory is created, a non-empty image comes back and decoding and saving succeed; an error never carries an image |
| CustomizationApi.ServiceFailurePassesMessage | api/customization.py:49-50 | corrected, see ## Findings: a service status other than "success" gives an error with the service's message, or the fixed default when there is none |
| CustomizationApi.EmptyImageReported | api/customization.py:54-56 | corrected, see ## Findings: a success without an image, or with an empty one, gives the empty-image error |
| CustomizationApi.ErrorsAreInternal | api/customization.py:70-71 | corrected, see ## Findings: a file-system or decoding failure gives an error whose message starts with "Internal Server Error: " |
| CustomizationApi.Construct | schemas.py:150-152 | under pydantic 2 the response is built exactly when both `Optional` fields are passed, and then holds them; otherwise the ValidationError |
| CustomizationApi.Caught | api/customization.py:70-71 | the handler's own error response leaves out `result_image_base64`, so it raises again and the client gets the plain server error |
| CustomizationApi.ErrorsEscapeAsWritten | api/customization.py:47-71 | as written, the success response is the corrected one, and every other outcome is the plain server error |
| CustomizationApi.ServiceFailureEscapesAsWritten | api/customization.py:49-50 | as written, a failed service result never reaches the client as an error response carrying its message |
| CustomizationApi.SavedMessageParses | test.py:490-491 | the client's `split("saved:")[1].strip()` recovers a path from "saved: <path>" |
| CustomizationApi.SuccessPathReadBack | api/customization.py:60-67 | on success the client reads back exactly the saved path |
| CustomizationApi.ApplyCustomization | api/customization.py:32-71 | the endpoint normalises the edits in place and answers from the service's result on the normalised edits |
| CustomizationApi.DictEditsAlwaysFail | api/customization.py:41-42 | corrected, see ## Findings: with edits declared as dicts, any non-empty edit list ends in "Internal Server Error: 'dict' object has no attribute 'region'" once the response model accepts it |
| CustomizationApi.ApplyToDicts | api/customization.py:41-71 | dict edits, with the response model corrected: an empty list reaches the service, any other raises at `e.region` |
| CustomizationApi.DictEditsEscapeAsWritten | api/customization.py:41-71 | as written, any non-empty list of dict edits ends as the plain server error |
| CustomizationApi.DocumentedRequestFails | schemas.py:146 | the request given as the schema's example fails even when the service succeeds |
| StyleService.FinalCaption | service/style_service.py:45 | a final record's caption is `response.caption` when non-empty, else `response.prompt_en`, else "" |
| StyleService.ItemCandidate | service/style_service.py:31-51 | a record with "image_path" never raises; a kept candidate's image exists; a record with neither key is skipped |
| StyleService.DetailedRecordCaption | service/style_service.py:32-41 | a detailed record whose image exists yields its id, embedding, `caption.sentence_english` and joined path, even when it also has "request" |
| StyleService.FinalRecordCaption | service/style_service.py:42-51 | a final record whose image exists yields a candidate captioned from `response.caption`, falling back to `prompt_en` |
| StyleService.LoadedImagesExist | service/style_service.py:31-51 | every loaded candidate's image exists, and a file gives at most one candidate per record |
| StyleService.LoadFile | service/style_service.py:31-51 | the loop over one file's records computes its candidates in order, or the first KeyError |
| StyleService.LoadDataset | service/style_service.py:19-52 | the loop over the three files in order, skipping missing ones, concatenates their candidates |
| StyleService.LoadItems | service/style_service.py:31-51 | one file's candidates or its first KeyError; `LoadItemsErrStays` and `LoadedImagesExist` state it |
| StyleService.LoadFiles | service/style_service.py:19-52 | the candidates of the files in order; `LoadFilesErrStays` states how an error stops the loop |
| StyleService.Combine | service/style_service.py:101 | the combined score lies between the image score and the text score |
| StyleService.CombineMonotone | service/style_service.py:101 | a higher image score never gives a lower combined score |
| StyleService.ImageScore | service/style_service.py:84-99 | the stored embedding's score when it is non-empty, else the image's, and none when the image cannot be opened |
| StyleService.ResultOf | service/style_service.py:80-111 | corrected, see ## Findings: a row exists only for a candidate whose image path is set and present, and carries that candidate's id and its own image |
| StyleService.ScanRowsFromCandidates | service/style_service.py:79-111 | there are at most as many rows as candidates, and every row comes from a candidate of the dataset |
| StyleService.Scan | service/style_service.py:79-111 | corrected, see ## Findings: the rows of the usable candidates in order; `ScanRowsFromCandidates` and `ScanAgreesOnKeys` state it |
| StyleService.ScoreCandidates | service/style_service.py:78-111 | the candidate loop computes one row per usable candidate, in dataset order |
| StyleService.StaleImageShown | service/style_service.py:104-107 | as written, `img` survives from an earlier iteration, so the second of two candidates with stored embeddings shows the first one's image |
| StyleService.ScanAsWritten | service/style_service.py:79-111 | the loop as written, `img` kept between iterations |
| StyleService.ScanAgreesOnKeys | service/style_service.py:79-111 | as written, the loop keeps the same candidates in the same order with the same scores as the corrected one; only images differ |
| StyleService.SortKeys | service/style_service.py:116 | the sort looks only at scores: row lists with equal ids and scores sort to lists with equal ids and scores |
| StyleService.RankedKeysAgree | service/style_service.py:79-116 | the three styles recommended as written are the corrected ones, in the same order with the same scores |
| StyleService.SortDescCorrect | service/style_service.py:116 | the sort returns the same rows as a permutation, highest score first |
| StyleService.SortStable | service/style_service.py:116 | among rows of equal score the sorted order is the input order |
| StyleService.SortDesc | service/style_service.py:116 | `sorted(..., reverse=True)` as a stable insertion sort; `SortDescCorrect` and `SortStable` state it |
| StyleService.TopThree | service/style_service.py:116 | three rows are kept, or all of them when there are fewer |
| StyleService.TopThreeBest | service/style_service.py:116 | the chosen rows are a sub-multiset of the rows, sorted, and no row left out scores more than a chosen one |
| StyleService.KeywordsDoNotReorder | service/style_service.py:71-101 | the text score is the same for every candidate, so the keywords shift all scores by one amount and change neither the chosen styles nor their order |
| StyleService.KeywordCaption | service/style_service.py:71 | "A style with " + the keywords joined by ", " + "."; unused by the ranking, as `KeywordsDoNotReorder` shows |
| StyleService.Validate | service/style_service.py:56-59 | the request passes exactly when it has the image and a keyword list; a missing image is reported first |
| StyleService.Rank | service/style_service.py:113-117 | no rows gives the no-candidates failure; otherwise success with one to three rows |
| StyleService.Respond | service/style_service.py:54-120 | corrected, see ## Findings: a failed check is returned as its message; with a valid request, a decodable image and a loaded dataset the answer is the ranking of the scanned rows |
| StyleService.RunInference | service/style_service.py:54-120 | corrected, see ## Findings: the handler computes that response from the loaded files |
| FeedbackService.Unwrap | service/feedback_service.py:35-39 | an object holding a "predictions" object is unwrapped, any other object is taken whole, anything else is refused with the source's message |
| FeedbackService.DictPredictionsWin | service/feedback_service.py:27-28 | an object under "predictions" wins over both other sources |
| FeedbackService.NonDictPredictionsIgnored | service/feedback_service.py:27 | a "predictions" value that is not an object is as if absent |
| FeedbackService.JsonStringBeforePath | service/feedback_service.py:30-52 | when "predictions_json" is given the path is never read |
| FeedbackService.NoSourceRefused | service/feedback_service.py:54-57 | without any of the three keys the request is refused with the missing-input message |
| FeedbackService.ExtractOkIffObject | service/feedback_service.py:18-57 | the extraction succeeds exactly when the source chosen by precedence yields an object |
| FeedbackService.ExtractPredictions | service/feedback_service.py:18-57 | the precedence of the three sources; `DictPredictionsWin`, `JsonStringBeforePath`, `NoSourceRefused` and `ExtractOkIffObject` state it |
| FeedbackService.ReadEntry | service/feedback_service.py:30-52 | a present entry is read; an entry holding `None` fails as `json.loads(None)` or `open(None)` does |
| FeedbackService.Dump | api/feedback.py:11 | `model_dump` of a feedback request always has the "predictions_json_path" key, `None` when no path was given |
| FeedbackService.DumpedPathIsLoaded | api/feedback.py:11 | a request with a path has that file loaded and unwrapped |
| FeedbackService.DefaultRequestNeverLoads | schemas.py:38-47 | a request without a path reaches `open(None)` and fails with the load-failure message, rather than reading a default file |
| FeedbackService.CallLlm | service/feedback_service.py:114-126 | a success carries non-empty stripped text; a reply that arrives but is blank fails with the empty-reply message |
| FeedbackService.BlankReplyFails | service/feedback_service.py:123-125 | whitespace-only text is an empty reply |
| FeedbackService.NonBlankReplySucceeds | service/feedback_service.py:123-126 | text with a non-space character succeeds with the stripped text |
| FeedbackService.RunInference | service/feedback_service.py:132-154 | success exactly when the extraction and the model call both succeed; an extraction error is returned as its message; the feedback is non-empty and stripped |
| SpigaDraw.CenterCrop | libs/spiga_draw.py:28-35 | the box is `size` square with its corner at the floored half of each margin |
| SpigaDraw.CenterCropCentred | libs/spiga_draw.py:30-33 | the margin right of and below the box equals the one left of and above it, or is one pixel more |
| SpigaDraw.CenterCropInside | libs/spiga_draw.py:28-35 | a crop no larger than the image stays inside it |
| SpigaDraw.Resize | libs/spiga_draw.py:38-47 | the wider side sets the scale only when strictly wider; the other side is `int(other * (size / longer))`; a zero-height image that is not wider raises a division error |
| SpigaDraw.ScaledBounds | libs/spiga_draw.py:42-45 | the scaled shorter side lies in [0, size] |
| SpigaDraw.ResizeFits | libs/spiga_draw.py:38-47 | a non-empty image is resized to fit `size` with one side exactly `size`; a square one becomes `size` x `size` |
| SpigaDraw.CornersRoundTrip | libs/spiga_draw.py:63-64 | the width-height box converts back to the detector's corners |
| SpigaDraw.CornersToBox | libs/spiga_draw.py:63-64 | `(x, y, x1 - x, y1 - y)`; `CornersRoundTrip` shows it converts back |
| SpigaDraw.BoxesOf | libs/spiga_draw.py:61-65 | one box per detector box, in order, each converting back to its corners |
| SpigaDraw.ConvertBoxes | libs/spiga_draw.py:61-65 | one box per detector box, in order, each converting back to its corners |
| SpigaDraw.GetLandmarks | libs/spiga_draw.py:57-71 | no detected face gives no landmarks; otherwise the landmarks SPIGA gives for the converted boxes |
| SpigaDraw.LandmarksOf | libs/spiga_draw.py:57-71 | no detector box gives no landmarks; otherwise SPIGA's landmarks for boxes converting back to the detector's corners |
| SpigaDraw.MinOf | libs/spiga_draw.py:86-87 | the minimum is an element of the list and no larger than any element |
| SpigaDraw.MaxOf | libs/spiga_draw.py:86-87 | the maximum is an element of the list and no smaller than any element |
| SpigaDraw.LandmarksInsideBox | libs/spiga_draw.py:84-94 | every landmark lies inside its face box, at least 5 from each edge |
| SpigaDraw.FaceBoxTight | libs/spiga_draw.py:84-94 | some landmark lies exactly 5 from the left edge and some exactly 5 from the right |
| SpigaDraw.FaceBox | libs/spiga_draw.py:85-94 | one face's extent widened by 5 on each side; `LandmarksInsideBox` and `FaceBoxTight` state it |
| SpigaDraw.FaceBoxes | libs/spiga_draw.py:84-95 | one box per face, in order, each that face's box |
| SpigaDraw.BboxFromLandmarks | libs/spiga_draw.py:81-95 | fails with the unpacking error exactly when some face has no landmarks; otherwise one face box per face, in order |
| SpigaDraw.OpenOps | libs/spiga_draw.py:121 | one MOVETO and then LINETO for every further point |
| SpigaDraw.PatchOf | libs/spiga_draw.py:119-128 | an open patch keeps the contour with MOVETO then LINETOs; a closed one repeats the first point and ends with CLOSEPOLY; closing an empty contour raises the IndexError, and nothing else fails |
| SpigaDraw.GetPatch | libs/spiga_draw.py:119-128 | the patch `PatchOf` gives |
| SpigaDraw.FacePartsContiguous | libs/spiga_draw.py:139-147 | the nine slices are non-empty and run back to back from 0 to 68 |
| SpigaDraw.FacePartsPartition | libs/spiga_draw.py:139-147 | every landmark index below 68 is in exactly one slice |
| SpigaDraw.Slice | libs/spiga_draw.py:139-147 | Python's clamped slice: the plain slice when it is in range, and empty exactly when the list ends at or before its start |
| SpigaDraw.PartPatch | libs/spiga_draw.py:139-147 | the patch of one of the nine slices fails exactly when the slice is closed and the face ends at or before its start |
| SpigaDraw.FacePatches | libs/spiga_draw.py:138-157 | fails with the IndexError exactly when the face has 60 landmarks or fewer; otherwise the nine patches are each slice's patch, in order, with the fixed closed flags |
| SpigaDraw.GetDraw | libs/spiga_draw.py:98-194 | no landmarks give a black image of the input size; otherwise a drawing exactly when every face has landmarks and every refined face has more than 60 landmarks, `size` square with each refined face's nine patches in order; errors are the unpacking error or the IndexError |
| EncoderPlus.ParseDigit | libs/detail_encoder/encoder_plus.py:73 | `int` of one character succeeds exactly on a digit, giving its value |
| EncoderPlus.Reversed | libs/detail_encoder/encoder_plus.py:74 | the reversed list has entry `i` equal to entry `n - 1 - i` |
| EncoderPlus.At | libs/detail_encoder/encoder_plus.py:74-80 | indexing succeeds exactly inside the list, with the entry |
| EncoderPlus.BlockId | libs/detail_encoder/encoder_plus.py:73-76 | reading the id succeeds exactly when the character right after the prefix exists and is a digit, and gives its value; a name too short for it gives the string `IndexError` |
| EncoderPlus.HiddenSize | libs/detail_encoder/encoder_plus.py:70-80 | a mid block takes the last channel count (or raises on an empty list); a name that is not a mid, up or down block takes the first |
| EncoderPlus.UpBlockSize | libs/detail_encoder/encoder_plus.py:72-74 | "up_blocks.<d>" takes the `d`-th channel count from the end |
| EncoderPlus.DownBlockSize | libs/detail_encoder/encoder_plus.py:75-77 | "down_blocks.<d>" takes the `d`-th channel count |
| EncoderPlus.UpBlockFails | libs/detail_encoder/encoder_plus.py:72-74 | an "up_blocks" name fails exactly when the id character is missing (string `IndexError`), is not a digit (`ValueError`), or is at least the number of channel counts (list `IndexError`) |
| EncoderPlus.DownBlockFails | libs/detail_encoder/encoder_plus.py:75-77 | a "down_blocks" name fails exactly when the id character is missing (string `IndexError`), is not a digit (`ValueError`), or is at least the number of channel counts (list `IndexError`) |
| EncoderPlus.TwoDigitIdReadsFirst | libs/detail_encoder/encoder_plus.py:76 | only the first digit of a block id is read: "down_blocks.12" is block 1 |
| EncoderPlus.ProcessorFor | libs/detail_encoder/encoder_plus.py:68-89 | a self-attention layer, or a UNet without a cross-attention size, gets the plain processor; every other layer gets an SSR processor with its hidden size, cross-attention size 1024 and scale 1 |
| EncoderPlus.AssignCovers | libs/detail_encoder/encoder_plus.py:66-89 | the dictionary has exactly the layer names as keys, each holding its own processor |
| EncoderPlus.Assign | libs/detail_encoder/encoder_plus.py:66-89 | the dictionary after the loop, or its first error; `AssignCovers` states what it holds |
| EncoderPlus.InstallProcessors | libs/detail_encoder/encoder_plus.py:66-89 | the loop fills the dictionary name by name, or stops at the first error |
| EncoderPlus.EveryOtherFromTwo | libs/detail_encoder/encoder_plus.py:109 | `s[2::2]` holds the entries at 2, 4, 6, ... and no other |
| EncoderPlus.EvenLayersTaken | libs/detail_encoder/encoder_plus.py:132 | every even index from 2 on is taken, at position `i / 2 - 1` |
| EncoderPlus.TwelveStatesOfTwentyFive | libs/detail_encoder/encoder_plus.py:138 | with 25 hidden states, 12 feed the resampler |
| ImgCrop.Half | tool/img_crop2.py:42-43 | `int(a / 2)` truncates toward zero: halves a non-negative value downwards and a negative one upwards |
| ImgCrop.HalfTruncates | tool/img_crop2.py:43 | `int(-3 / 2)` is -1, not Python's floored -2 |
| ImgCrop.Centre | tool/img_crop2.py:42-43 | the per-axis `int((a + b) / 2)` of the corners; `CentreBetween` bounds it |
| ImgCrop.CentreBetween | tool/img_crop2.py:42-43 | the centre lies between the corners on each axis (one below for negative corners) |
| ImgCrop.CropLength | tool/img_crop2.py:52-54 | half the larger extent: not negative for a box that is not inverted on both axes, and at most half of one extent rounded up |
| ImgCrop.CropBox | tool/img_crop2.py:56-59 | the square of half-side `crop_length` around the centre, with each lower bound raised to 0 and each upper bound lowered to the image, and changed in no other way |
| ImgCrop.SquareInsideKept | tool/img_crop2.py:56-59 | a square that fits in the image is kept whole |
| ImgCrop.SliceRange | tool/img_crop2.py:61 | a NumPy slice bound counts from the end when negative and is clamped to the axis, and the stop never precedes the start |
| ImgCrop.Slice | tool/img_crop2.py:61 | the slice takes rows and columns inside the image |
| ImgCrop.SliceOfClampedBox | tool/img_crop2.py:56-61 | with non-negative upper bounds the slice takes exactly the clamped box, or nothing when it is inverted |
| ImgCrop.NegativeStopWraps | tool/img_crop2.py:57-61 | a box wholly left of the image keeps a negative `x2`, which the slice counts from the right edge: the crop is a 60-pixel band rather than empty |
| ImgCrop.OutputName | tool/img_crop2.py:65-68 | the crop is named after the file name without its last four characters, "_", and ends in ".jpg" |
| ImgCrop.TwoDigitPart | tool/img_crop2.py:67 | face parts 0 to 99 are written as exactly two digits |
| ImgCrop.PartsGetOwnNames | tool/img_crop2.py:65-68 | different face parts below 100 of one file get different names |
| ImgCrop.ExtensionIgnored | tool/img_crop2.py:67 | files that differ only in a four-character extension are written to the same name |
| ImgCrop.Crop | tool/img_crop2.py:49-61 | face part 0 takes the whole image; any other part takes the slice of the crop box |
| ImgCrop.Process | tool/img_crop2.py:28-69 | an unreadable image or a null box is skipped; a box of fewer than four numbers or an empty crop raises; otherwise exactly one non-empty crop is written under the crop directory |
| ImgCrop.WritesInSaveDir | tool/img_crop2.py:46-69 | every crop goes to a ".jpg" file of the crop directory and holds a non-empty part of its image |
| ImgCrop.WritesCount | tool/img_crop2.py:26-69 | as many crops are written as annotations with a readable image and a box |
| ImgCrop.Writes | tool/img_crop2.py:26-69 | the crops written by the loop, or the error that stopped it; `WritesInSaveDir` and `WritesCount` state them |
| ImgCrop.CropSubdirectory | tool/img_crop2.py:26-69 | the loop over one sub-directory's annotation files writes the crops in order, or stops at the first error |
| AppCustomizationService.ZeroAlphaKeeps | app/service/customization_service.py:37-38 | one mask with alpha 0 leaves every pixel of a byte image unchanged |

## Left out

- Model calls: CLIP, SegFormer, ResNet, MediaPipe, the face detector, SPIGA, the diffusion pipeline and Gemini. Each is a parameter: the model's answer is an input or a function value.
- Image operations: decoding and encoding (base64, JPEG, PNG), the Gaussian blur, the convex-hull masks and `cv2.resize`. These are foreign code. Images are sequences of RGB pixels, and a crop is the region of the source it takes.
- File system: existence and reads are given predicates or functions. Writes (`cv2.imwrite`, `img.save`, `os.makedirs`) appear only as the path and data they would write, or as a failure flag. The printed warnings and the `mkdir` helper of the crop tool are not modelled.
- Floating point: numbers are exact reals. `int(n * 0.8)` is `4n / 5` and `int(n * 0.1)` is `n / 10`, and the `uint8` cast of a clipped value is truncation.
- StyleService.Combine: the score's `round(..., 4)` is left out, because scores are exact reals.
- Prompt templates (the product and feedback prompts): only what goes into a prompt is modelled (concern lines, locale, product fields). The template text is not.
- `os.path.join` is modelled as joining with "/".
- Python's `str.lower` is modelled for the ASCII letters only. `str.strip` removes six characters here: space, tab, newline, carriage return, vertical tab and form feed. Python also strips the separators `\x1c` to `\x1f` and the non-ASCII spaces.
- `int()` of a character accepts only the ASCII digits here, where Python also accepts other Unicode digits.
- The outer loops of the data loader (over the dig and grade keys) and of the crop tool (over the device and sub-directories) are left out. One grade's split and one sub-directory's crops are modelled.
- The image content of a crop and the shuffling of the key list: the shuffled list is an input.
- `parse_landmarks`' float conversion and the numpy arrays of landmarks: landmarks are lists of real points.
- The bounding boxes of the crop tool are integers, so `list(map(int, bbox))` is not modelled.
- SpigaDraw.GetPatch: matplotlib's own check on a path (as many codes as vertices) is not modelled. An open empty slice is accepted here. Every face that reaches one also has an empty closed slice, so FacePatches fails on exactly the same faces, but the model's error message may differ.
- SpigaDraw.GetDraw: the rendering of the patches (matplotlib, the 72-dpi canvas and the buffer reshaping) is left out. The drawing is returned as its size and its patches.
- CustomizationService.ApplyIntensityMask, CustomizationService.RunInference, AppCustomizationService.ApplyMask and AppCustomizationService.RunInference, with the functions between them, require a non-empty image and masks of its size. A decoded JPEG or PNG is never empty, and the segmentation gives masks of the image's size. An empty image or a mismatched mask is not modelled.
- CustomizationApi.Respond, CustomizationApi.ServiceFailurePassesMessage, CustomizationApi.EmptyImageReported, CustomizationApi.ErrorsAreInternal and CustomizationApi.DictEditsAlwaysFail describe the endpoint with `result_image_base64` defaulting to `None`. As declared, pydantic 2 requires that field, so every error response fails validation; `ErrorsEscapeAsWritten` and `DictEditsEscapeAsWritten` state what the client then gets (see ## Findings).
- The validation of requests before they reach a service is not modelled, except for the three dumps `ProductService.DumpRequest`, `FeedbackService.Dump` and the response model of the customisation API. Each service receives its request as a dictionary.
- Wrappers.Entry: a dictionary entry is absent, `None` or a value of the expected type; entries of other types (a number where a string is expected) are not modelled.
- ProductService.DumpProduct: how `str()` renders a float review score is a parameter (`show`).
- FeedbackService.Dump: the request schema's docstring says a default file is used when no path is given, but the code passes `None` on and fails; the model follows the code (`DefaultRequestNeverLoads`).
- CustomizationService.ApplyEdit: an "intensity" entry that holds `None` is not modelled. `edit.get("intensity", 50)` then gives `None` (service/customization_service.py:132), and for a known region `(None - 50)` raises a `TypeError` (line 30). The API endpoint fails before it reaches the service this way.
- ProductService.Respond: a required field (`skin_analysis`, `recommended_categories`, `filtered_products`) whose key holds `None` is not modelled; the check at service/product_service.py:17-22 only tests that the key is present. The locale does distinguish an absent key from `None`.
- PyStr.IntLiteralMessage: the text is quoted with single quotes; Python's `repr` switches to double quotes for a text that contains a single quote.
- AppCustomizationService.EditAlpha: an "intensity" entry that holds `None`, or a colour dict whose components are not numbers, is not modelled (both raise in the source).
- AppCustomizationService.Respond: `"edits": null` is read as an absent entry (no edits, the default alphas), while the source's `for edit in None` fails with "'NoneType' object is not iterable".
- NiaService.FaceCrop: gives the crop bounds after the clamp; for a negative `x2` or `y2` NumPy's slice would count that stop from the end of the image, which is not modelled here (`ImgCrop.NegativeStopWraps` models that wrap for the crop tool).
- Model managers, HTTP routing, configuration, crawlers, the test scripts (except the client's "saved:" parse), the training loop and the embedding precomputation are outside the modelled core.

## Findings

| source | as written | input that shows it | evidently intended | confidence | as-written member | corrected member |
|---|---|---|---|---|---|---|
| app/service/customization_service.py:37-38 | the blend is cast to `uint8` without a clip | intensity 200 (alpha 2) on a channel of 200 with a black region colour gives −200 before the cast | clip into [0, 255] before the cast, as the other service does; for intensities in [0, 100] the two agree (`AppCustomizationService.RespondAgreesInRange`) | not executed | AppCustomizationService.RawBlendLeavesByteRange | AppCustomizationService.OutChannel |
| api/customization.py:41-44 | edits are read with attribute access while `schemas.py:146` declares them as dicts | the schema's own example `[{"region": "lip", "intensity": 50}]` raises the AttributeError at `e.region`; the handler's own error response then fails validation (last row), so the client gets the plain server error | normalise the region and intensity of each edit record | not executed | CustomizationApi.DictEditsEscapeAsWritten | CustomizationApi.ApplyCustomization |
| service/style_service.py:104-107 | `'img' not in locals()` sees an image opened for an earlier candidate | two candidates with stored embeddings: the second row shows the first candidate's image | each row carries its own candidate's image; ids, scores and order are the same either way (`StyleService.RankedKeysAgree`) | not executed | StyleService.StaleImageShown | StyleService.ScoreCandidates |
| schemas.py:150-152 | `result_image_base64: Optional[str]` has no default, so pydantic 2 requires it, and the error responses at api/customization.py:50, 56 and 71 leave it out | a service result `{"status": "failed", "message": "x"}`: the response at line 50 raises a ValidationError, the one at line 71 raises again, and the client gets the plain server error instead of "x" | `result_image_base64: Optional[str] = None` | not executed | CustomizationApi.ErrorsEscapeAsWritten | CustomizationApi.Respond |
