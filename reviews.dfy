/**
 * ReviewController: turning the JSON the two review providers return into
 * fixed-shape records, plus the configuration probe behind `/test-apis`.
 * The HTTP calls themselves are not modelled: each body function takes the
 * decoded provider response as its argument.
 */
module Reviews {
  import opened Json

  const Anonymous: string := "Anónimo"
  const NoComment: string := "Sin comentario"
  const Found: string := "Funciona"
  const NotFound: string := "No encontrado"

  // ---------------------------------------------------------------------------
  // Laravel's collect(...)->map(...)
  // ---------------------------------------------------------------------------

  /** Maps `f` over a list, keeping its length and order. */
  function MapItems(items: seq<Json>, f: Json -> Json): (r: seq<Json>)
    ensures |r| == |items|
    ensures forall i :: 0 <= i < |items| ==> r[i] == f(items[i])
  {
    if items == [] then [] else [f(items[0])] + MapItems(items[1..], f)
  }

  /** `collect($v)->map($f)` followed by JSON encoding: a list stays a list,
      an associative array keeps its keys, null is the empty collection and
      any other scalar is wrapped as a one-element collection. */
  function CollectMap(v: Json, f: Json -> Json): (r: Json)
    ensures v == JNull ==> r == JArr([])
    ensures v.JArr? ==> r.JArr? && |r.items| == |v.items|
                        && forall i :: 0 <= i < |v.items| ==> r.items[i] == f(v.items[i])
    ensures v.JObj? ==> r.JObj? && r.fields.Keys == v.fields.Keys
                        && forall k :: k in v.fields ==> r.fields[k] == f(v.fields[k])
  {
    match v
    case JNull => JArr([])
    case JArr(items) => JArr(MapItems(items, f))
    case JObj(fields) => JObj(map k | k in fields :: f(fields[k]))
    case _ => JArr([f(v)])
  }

  // ---------------------------------------------------------------------------
  // Google Places
  // ---------------------------------------------------------------------------

  const GoogleKeys: set<string> :=
    {"author_name", "profile_photo_url", "rating", "text", "relative_time_description"}

  /** The value each Google output field takes when the provider left it out or sent null. */
  function GoogleDefault(k: string): Json
  {
    if k == "author_name" then JStr(Anonymous)
    else if k == "rating" then JNum(0)
    else if k == "text" then JStr(NoComment)
    else if k == "relative_time_description" then JStr("")
    else JNull
  }

  /** The closure passed to `map` in getGoogleReviews. */
  function GoogleReview(review: Json): (r: Json)
    ensures r.JObj? && r.fields.Keys == GoogleKeys
    ensures forall k :: k in GoogleKeys ==>
              r.fields[k] == if PathPresent(review, [k]) then PathValue(review, [k]) else GoogleDefault(k)
  {
    JObj(map[
      "author_name" := Coalesce(Field(review, "author_name"), JStr(Anonymous)),
      "profile_photo_url" := Coalesce(Field(review, "profile_photo_url"), JNull),
      "rating" := Coalesce(Field(review, "rating"), JNum(0)),
      "text" := Coalesce(Field(review, "text"), JStr(NoComment)),
      "relative_time_description" := Coalesce(Field(review, "relative_time_description"), JStr(""))
    ])
  }

  const ReviewsPath: seq<string> := ["result", "reviews"]

  /** The JSON body getGoogleReviews returns for a decoded provider response. */
  function GoogleReviewsBody(response: Json): (r: Json)
    ensures !PathPresent(response, ReviewsPath) ==> r == JArr([])
    ensures PathPresent(response, ReviewsPath) && PathValue(response, ReviewsPath).JArr? ==>
              var items := PathValue(response, ReviewsPath).items;
              r.JArr? && |r.items| == |items|
              && forall i :: 0 <= i < |items| ==> r.items[i] == GoogleReview(items[i])
  {
    PathCoalesce(response, ReviewsPath, JArr([]));
    CollectMap(Coalesce(Path(response, ReviewsPath), JArr([])), GoogleReview)
  }

  /** Normalising a normalised Google record changes nothing: every output
      field is either a copied non-null value or its own default. */
  lemma GoogleReviewIdempotent(review: Json)
    ensures GoogleReview(GoogleReview(review)) == GoogleReview(review)
  {
  }

  // ---------------------------------------------------------------------------
  // Facebook Graph ratings
  // ---------------------------------------------------------------------------

  const FacebookKeys: set<string> :=
    {"reviewer_name", "reviewer_picture", "rating", "review_text", "created_time"}

  const NamePath: seq<string> := ["reviewer", "name"]
  const PicturePath: seq<string> := ["reviewer", "picture", "data", "url"]

  /** Where in a Graph API rating each Facebook output field is read from. */
  function FacebookSource(k: string): seq<string>
  {
    if k == "reviewer_name" then NamePath
    else if k == "reviewer_picture" then PicturePath
    else [k]
  }

  /** The value each Facebook output field takes when any level of its source is missing or null. */
  function FacebookDefault(k: string): Json
  {
    if k == "reviewer_name" then JStr(Anonymous)
    else if k == "rating" then JNum(0)
    else if k == "review_text" then JStr(NoComment)
    else if k == "created_time" then JStr("")
    else JNull
  }

  /** The closure passed to `map` in getFacebookReviews. */
  function FacebookReview(review: Json): (r: Json)
    ensures r.JObj? && r.fields.Keys == FacebookKeys
    ensures forall k :: k in FacebookKeys ==>
              r.fields[k] == if PathPresent(review, FacebookSource(k))
                             then PathValue(review, FacebookSource(k))
                             else FacebookDefault(k)
  {
    PathCoalesce(review, NamePath, JStr(Anonymous));
    PathCoalesce(review, PicturePath, JNull);
    JObj(map[
      "reviewer_name" := Coalesce(Field(Field(review, "reviewer"), "name"), JStr(Anonymous)),
      "reviewer_picture" :=
        Coalesce(Field(Field(Field(Field(review, "reviewer"), "picture"), "data"), "url"), JNull),
      "rating" := Coalesce(Field(review, "rating"), JNum(0)),
      "review_text" := Coalesce(Field(review, "review_text"), JStr(NoComment)),
      "created_time" := Coalesce(Field(review, "created_time"), JStr(""))
    ])
  }

  /** The JSON body getFacebookReviews returns for a decoded provider response. */
  function FacebookReviewsBody(response: Json): (r: Json)
    ensures !PathPresent(response, ["data"]) ==> r == JArr([])
    ensures PathPresent(response, ["data"]) && PathValue(response, ["data"]).JArr? ==>
              var items := PathValue(response, ["data"]).items;
              r.JArr? && |r.items| == |items|
              && forall i :: 0 <= i < |items| ==> r.items[i] == FacebookReview(items[i])
  {
    PathCoalesce(response, ["data"], JArr([]));
    CollectMap(Coalesce(Field(response, "data"), JArr([])), FacebookReview)
  }

  /** A rating shaped as the Graph API sends it, with every field present. */
  function FacebookRating(name: Json, picture: Json, rating: Json, text: Json, time: Json): Json
  {
    JObj(map[
      "reviewer" := JObj(map[
        "name" := name,
        "picture" := JObj(map["data" := JObj(map["url" := picture])])
      ]),
      "rating" := rating,
      "review_text" := text,
      "created_time" := time
    ])
  }

  /** Every non-null field of a complete Graph API rating reaches the output unchanged. */
  lemma FacebookReviewCopiesPresentFields(name: Json, picture: Json, rating: Json, text: Json, time: Json)
    requires name != JNull && picture != JNull && rating != JNull && text != JNull && time != JNull
    ensures FacebookReview(FacebookRating(name, picture, rating, text, time)) ==
      JObj(map["reviewer_name" := name, "reviewer_picture" := picture, "rating" := rating,
               "review_text" := text, "created_time" := time])
  {
  }

  /** A rating without a `reviewer` object gets the anonymous name and no picture,
      whatever else it carries. */
  lemma FacebookMissingReviewer(review: Json)
    requires Field(review, "reviewer") == JNull
    ensures FacebookReview(review).fields["reviewer_name"] == JStr(Anonymous)
    ensures FacebookReview(review).fields["reviewer_picture"] == JNull
  {
  }

  // ---------------------------------------------------------------------------
  // /test-apis
  // ---------------------------------------------------------------------------

  /** The body of testApis, from the two configuration values it reads. */
  function TestApisBody(googleApiKey: Json, facebookToken: Json): (r: Json)
    ensures r.JObj? && r.fields.Keys == {"google_api_key", "facebook_access_token"}
    ensures r.fields["google_api_key"] == JStr(if Truthy(googleApiKey) then Found else NotFound)
    ensures r.fields["facebook_access_token"] == JStr(if Truthy(facebookToken) then Found else NotFound)
  {
    JObj(map[
      "google_api_key" := JStr(if Truthy(googleApiKey) then Found else NotFound),
      "facebook_access_token" := JStr(if Truthy(facebookToken) then Found else NotFound)
    ])
  }

  /** Each flag depends on its own configuration value only. */
  lemma TestApisFlagsIndependent(g1: Json, g2: Json, f1: Json, f2: Json)
    ensures TestApisBody(g1, f1).fields["google_api_key"] == TestApisBody(g1, f2).fields["google_api_key"]
    ensures TestApisBody(g1, f1).fields["facebook_access_token"] == TestApisBody(g2, f1).fields["facebook_access_token"]
  {
  }

  /** PHP truthiness reports a credential configured as the string "0" as missing. */
  lemma TestApisZeroStringNotFound(f: Json)
    ensures TestApisBody(JStr("0"), f).fields["google_api_key"] == JStr(NotFound)
  {
  }
}
