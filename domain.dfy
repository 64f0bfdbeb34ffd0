/** The values the application passes around: a generated listing, the product form and a saved record. */
module Domain {
  import opened Wrappers
  import opened Entries

  /** A category is either a list of category paths or a single path string. */
  datatype Category = Path(parts: seq<string>) | Label(text: string)

  /**
   * The listing object the providers are asked to return. A field the JSON object lacks is
   * represented by its empty value, which every reader of the object (`x || ''`, `x || []`)
   * treats the same way.
   */
  datatype Listing = Listing(
    title: string,
    description: string,
    bulletPoints: seq<string>,
    keywords: seq<string>,
    category: Category,
    itemSpecifics: Entries,
    tips: seq<string>)

  /** The object with none of the listing's fields (`{}`). */
  const EmptyListing: Listing := Listing("", "", [], [], Label(""), [], [])

  /** The product form: name, description, optional extra information, the chosen image file
      (`None` for `null`) and the object URL of its preview. */
  datatype ProductInfo = ProductInfo(
    title: string,
    description: string,
    extraInfo: string,
    image: Option<string>,
    imagePreview: Option<string>)

  /** A saved record as the frontend builds it; `timestamp` is optional for other clients of the route. */
  datatype Record = Record(
    originalData: ProductInfo,
    generatedContent: Listing,
    translatedContent: Option<Listing>,
    platform: string,
    model: string,
    timestamp: Option<string>)
}
