/**
 * The page component: its state (the form, the platform and model choices, the generated and
 * translated listings, the error, which sections are expanded) and the handlers that change it.
 * Each async handler is modelled as one step from the state before it to the state after its
 * `finally`, given the server's answers as functions of the requests.
 */
module App {
  import opened Wrappers
  import opened Text
  import opened Entries
  import opened Domain
  import opened AiRoutes
  import opened ApiService
  import Records

  /** The collapsible result sections. */
  datatype Section =
    | TitleSection | DescriptionSection | BulletPointsSection | KeywordsSection
    | CategorySection | ItemSpecificsSection | TipsSection

  const AllSections: set<Section> := {TitleSection, DescriptionSection, BulletPointsSection, KeywordsSection,
                                      CategorySection, ItemSpecificsSection, TipsSection}

  lemma SectionListed(s: Section)
    ensures s in AllSections
  {
    match s
    case TitleSection =>
    case DescriptionSection =>
    case BulletPointsSection =>
    case KeywordsSection =>
    case CategorySection =>
    case ItemSpecificsSection =>
    case TipsSection =>
  }

  /** `expandedSections`; a section missing from the object reads as collapsed. */
  type Expanded = map<Section, bool>

  predicate IsExpanded(e: Expanded, s: Section) {
    s in e && e[s]
  }

  /** `toggleSection(section)`: `section` flips, every other section keeps its state. */
  function Toggle(e: Expanded, s: Section): (r: Expanded)
    ensures IsExpanded(r, s) == !IsExpanded(e, s)
    ensures forall t :: t != s ==> IsExpanded(r, t) == IsExpanded(e, t)
    ensures r.Keys == e.Keys + {s}
  {
    e[s := !IsExpanded(e, s)]
  }

  /** Toggling the same section twice restores the sections. */
  lemma ToggleTwice(e: Expanded, s: Section)
    requires s in e
    ensures Toggle(Toggle(e, s), s) == e
  {
    var r := Toggle(Toggle(e, s), s);
    forall t | t in e ensures r[t] == e[t] {
      assert IsExpanded(r, t) == IsExpanded(e, t);
    }
  }

  function Sections(title: bool, description: bool, bulletPoints: bool, keywords: bool,
                    category: bool, itemSpecifics: bool, tips: bool): (r: Expanded)
    ensures r.Keys == AllSections
  {
    map[TitleSection := title, DescriptionSection := description, BulletPointsSection := bulletPoints,
        KeywordsSection := keywords, CategorySection := category, ItemSpecificsSection := itemSpecifics,
        TipsSection := tips]
  }

  /** The sections on mount and at the start of every submit: only the tips are expanded. */
  const InitialSections: Expanded := Sections(false, false, false, false, false, false, true)

  /** The sections after a translation: all expanded. */
  const AllExpanded: Expanded := Sections(true, true, true, true, true, true, true)

  /** The update after a generation: title, description and bullet points are expanded. */
  function AfterGenerate(e: Expanded): (r: Expanded)
    ensures r.Keys == e.Keys + {TitleSection, DescriptionSection, BulletPointsSection}
    ensures IsExpanded(r, TitleSection) && IsExpanded(r, DescriptionSection) && IsExpanded(r, BulletPointsSection)
    ensures forall t :: t !in {TitleSection, DescriptionSection, BulletPointsSection} ==> IsExpanded(r, t) == IsExpanded(e, t)
  {
    e[TitleSection := true][DescriptionSection := true][BulletPointsSection := true]
  }

  /** After a successful generation exactly the title, description, bullet points and tips are
      expanded. */
  lemma GeneratedSections(s: Section)
    ensures IsExpanded(AfterGenerate(InitialSections), s) <==>
              s == TitleSection || s == DescriptionSection || s == BulletPointsSection || s == TipsSection
  {
  }

  const TitleLabel: string := "\n        商品名称: "
  const DescriptionLabel: string := "\n        \n        商品描述: "
  const ExtraLineStart: string := "\n        \n        "
  const ExtraLabel: string := "其他信息: "
  const TextEnd: string := "\n      "

  /** The extra-information line: labelled when the field is non-empty, otherwise empty. */
  function ExtraLine(extraInfo: string): (r: string)
    ensures extraInfo == "" <==> r == ""
    ensures extraInfo != "" ==> ExtraLabel <= r && r[|ExtraLabel|..] == extraInfo
  {
    if extraInfo != "" then ExtraLabel + extraInfo else ""
  }

  /** Where each piece of a seven-piece template sits in the text. */
  lemma TemplateSlices(p1: string, a: string, p2: string, b: string, p3: string, c: string, p4: string)
    ensures var r := p1 + a + p2 + b + p3 + c + p4;
      && |r| == |p1| + |a| + |p2| + |b| + |p3| + |c| + |p4|
      && p1 <= r
      && r[|p1|..|p1| + |a|] == a
      && r[|p1| + |a| + |p2|..|p1| + |a| + |p2| + |b|] == b
      && r[|r| - |p4| - |c|..|r| - |p4|] == c
      && r[|r| - |p4| - |c| - |p3|..|r| - |p4| - |c|] == p3
      && r[|r| - |p4|..] == p4
  {
    var r := p1 + a + p2 + b + p3 + c + p4;
    assert r == p1 + (a + (p2 + (b + (p3 + (c + p4)))));
  }

  /**
   * The description text sent for generation: the labelled title, the labelled description and
   * the extra-information line, each on its own indented line of the template literal.
   */
  function RequestText(info: ProductInfo): (r: string)
    ensures |r| == |TitleLabel| + |info.title| + |DescriptionLabel| + |info.description| + |ExtraLineStart|
                   + |ExtraLine(info.extraInfo)| + |TextEnd|
    ensures TitleLabel <= r && r[|TitleLabel|..|TitleLabel| + |info.title|] == info.title
    ensures var d := |TitleLabel| + |info.title| + |DescriptionLabel|;
      r[d..d + |info.description|] == info.description
    ensures EndsWith(r, TextEnd)
    ensures var e := |r| - |TextEnd|; r[e - |ExtraLine(info.extraInfo)|..e] == ExtraLine(info.extraInfo)
    ensures var e := |r| - |TextEnd| - |ExtraLine(info.extraInfo)|; r[e - |ExtraLineStart|..e] == ExtraLineStart
    ensures info.extraInfo == "" ==>
              |r| == |TitleLabel| + |info.title| + |DescriptionLabel| + |info.description| + |ExtraLineStart| + |TextEnd|
  {
    var r := TitleLabel + info.title + DescriptionLabel + info.description + ExtraLineStart + ExtraLine(info.extraInfo) + TextEnd;
    TemplateSlices(TitleLabel, info.title, DescriptionLabel, info.description, ExtraLineStart, ExtraLine(info.extraInfo), TextEnd);
    r
  }

  /** A submitted form always carries a truthy text, so the generate route never answers it
      with 400. */
  lemma SubmittedTextIsNeverMissing(info: ProductInfo, imagePath: Option<string>, platform: string, model: string)
    ensures var body := GenerateBody(Some(RequestText(info)), Some(platform), imagePath, Some(model));
      Truthy(body.text) && !(!Truthy(body.text) && !Truthy(body.imagePath))
  {
  }

  /** The keywords box: the keywords joined by ", ", empty when there are none. */
  function KeywordsText(l: Listing): (r: string)
    ensures l.keywords == [] ==> r == ""
    ensures |l.keywords| == 1 ==> r == l.keywords[0]
    ensures |l.keywords| > 1 ==> l.keywords[0] + ", " <= r
  {
    Join(l.keywords, ", ")
  }

  /** One more keyword appends ", " and that keyword to the box. */
  lemma KeywordsTextAppend(l: Listing, keyword: string)
    requires |l.keywords| > 0
    ensures KeywordsText(l.(keywords := l.keywords + [keyword])) == KeywordsText(l) + ", " + keyword
  {
    JoinAppend(l.keywords, keyword, ", ");
  }

  /** The category box: a list of paths joined by " > ", a single string as it is. */
  function CategoryText(c: Category): (r: string)
    ensures c.Label? ==> r == c.text
    ensures c.Path? && |c.parts| == 1 ==> r == c.parts[0]
    ensures c.Path? && c.parts == [] ==> r == ""
  {
    match c
    case Path(parts) => Join(parts, " > ")
    case Label(text) => text
  }

  /** Adding one more category level appends " > " and that level to the shown path. */
  lemma CategoryTextAppend(parts: seq<string>, level: string)
    requires |parts| > 0
    ensures CategoryText(Path(parts + [level])) == CategoryText(Path(parts)) + " > " + level
  {
    JoinAppend(parts, level, " > ");
  }

  /** The tips box is shown only for eBay and only when there are tips. */
  predicate TipsShown(platform: string, l: Listing) {
    platform == "ebay" && |l.tips| > 0
  }

  /** An Amazon listing never shows tips; an eBay listing shows them exactly when it has some. */
  lemma TipsShownOnlyForEbay(l: Listing, platform: string)
    ensures platform != "ebay" ==> !TipsShown(platform, l)
    ensures TipsShown("ebay", l) <==> l.tips != []
  {
  }

  /** The tips box text: one tip per line. */
  function TipsText(l: Listing): (r: string)
    ensures l.tips == [] ==> r == ""
    ensures |l.tips| == 1 ==> r == l.tips[0]
    ensures |l.tips| > 1 ==> l.tips[0] + "\n" <= r
  {
    Join(l.tips, "\n")
  }

  /** When no tip contains a newline, the tips box splits back into exactly the tips. */
  lemma TipsTextSplitsIntoTips(l: Listing)
    requires |l.tips| >= 1
    requires forall i :: 0 <= i < |l.tips| ==> '\n' !in l.tips[i]
    ensures Split(TipsText(l), '\n') == l.tips
  {
    SplitJoin(l.tips, '\n');
  }

  /**
   * The listing whose fields the translated boxes show: none unless `translateAll`; with
   * `translateAll` and no translation (`translatedResult?.x || ''`), every box shows the empty value.
   */
  function TranslatedView(translateAll: bool, translated: Option<Listing>): (r: Option<Listing>)
    ensures r.None? <==> !translateAll
    ensures translateAll && translated.Some? ==> r == translated
    ensures translateAll && translated.None? ==>
              && r.value.title == "" && r.value.description == "" && r.value.bulletPoints == []
              && KeywordsText(r.value) == "" && CategoryText(r.value.category) == ""
              && r.value.itemSpecifics == [] && TipsText(r.value) == ""
  {
    if translateAll then Some(translated.GetOr(EmptyListing)) else None
  }

  /** The three text inputs of the form, by their `name`. */
  datatype FormField = TitleField | DescriptionField | ExtraInfoField

  const SubmitFailedMessage: string := "提交失败，请稍后再试"
  const TranslateFailedMessage: string := "翻译失败，请稍后再试"

  /** `err.message || fallback`. */
  function ErrorText(message: string, fallback: string): (r: string)
    ensures message != "" ==> r == message
    ensures message == "" ==> r == fallback
  {
    if message != "" then message else fallback
  }

  class Page {
    var productInfo: ProductInfo
    var platform: string
    var model: string
    var isLoading: bool
    var isTranslating: bool
    var targetLanguage: string
    var result: Option<Listing>
    var translatedResult: Option<Listing>
    var error: Option<string>
    var translateAll: bool
    var expanded: Expanded

    /**
     * Between handlers: every section has a state, nothing is loading or translating, an image
     * always has its preview, and translated boxes are shown only over a result with a translation.
     */
    ghost predicate Valid()
      reads this
    {
      && expanded.Keys == AllSections
      && !isLoading && !isTranslating
      && (productInfo.image.Some? <==> productInfo.imagePreview.Some?)
      && (translateAll ==> result.Some? && translatedResult.Some?)
    }

    /** The initial state of every `useState`. */
    constructor ()
      ensures Valid()
      ensures productInfo == ProductInfo("", "", "", None, None)
      ensures platform == "amazon" && model == "openai" && targetLanguage == "en"
      ensures result.None? && translatedResult.None? && error.None? && !translateAll
      ensures expanded == InitialSections
    {
      productInfo := ProductInfo("", "", "", None, None);
      platform, model := "amazon", "openai";
      isLoading, isTranslating := false, false;
      targetLanguage := "en";
      result, translatedResult := None, None;
      error := None;
      translateAll := false;
      expanded := InitialSections;
    }

    /** A section header's click. */
    method ToggleSection(s: Section)
      requires Valid()
      modifies this
      ensures Valid()
      ensures expanded == Toggle(old(expanded), s)
      ensures productInfo == old(productInfo) && result == old(result) && translatedResult == old(translatedResult)
      ensures platform == old(platform) && model == old(model) && targetLanguage == old(targetLanguage)
      ensures error == old(error) && translateAll == old(translateAll)
    {
      SectionListed(s);
      expanded := Toggle(expanded, s);
    }

    /** `handleInputChange`: the named form field takes the input's value. */
    method InputChange(field: FormField, value: string)
      requires Valid()
      modifies this
      ensures Valid()
      ensures productInfo == match field
        case TitleField => old(productInfo).(title := value)
        case DescriptionField => old(productInfo).(description := value)
        case ExtraInfoField => old(productInfo).(extraInfo := value)
      ensures result == old(result) && translatedResult == old(translatedResult) && expanded == old(expanded)
      ensures platform == old(platform) && model == old(model) && targetLanguage == old(targetLanguage)
      ensures error == old(error) && translateAll == old(translateAll)
    {
      match field
      case TitleField => productInfo := productInfo.(title := value);
      case DescriptionField => productInfo := productInfo.(description := value);
      case ExtraInfoField => productInfo := productInfo.(extraInfo := value);
    }

    /** `handleImageChange`: with no file chosen nothing changes; otherwise the file and its object
        URL (`previewUrl`, made by the browser) replace the image and its preview. */
    method ImageChange(file: Option<string>, previewUrl: string)
      requires Valid()
      modifies this
      ensures Valid()
      ensures file.None? ==> productInfo == old(productInfo)
      ensures file.Some? ==> productInfo == old(productInfo).(image := file, imagePreview := Some(previewUrl))
      ensures result == old(result) && translatedResult == old(translatedResult) && expanded == old(expanded)
      ensures platform == old(platform) && model == old(model) && targetLanguage == old(targetLanguage)
      ensures error == old(error) && translateAll == old(translateAll)
    {
      if file.None? {
        return;
      }
      productInfo := productInfo.(image := file, imagePreview := Some(previewUrl));
    }

    /** The remove button under the preview. */
    method RemoveImage()
      requires Valid()
      modifies this
      ensures Valid()
      ensures productInfo == old(productInfo).(image := None, imagePreview := None)
      ensures result == old(result) && translatedResult == old(translatedResult) && expanded == old(expanded)
      ensures platform == old(platform) && model == old(model) && targetLanguage == old(targetLanguage)
      ensures error == old(error) && translateAll == old(translateAll)
    {
      productInfo := productInfo.(image := None, imagePreview := None);
    }

    /** The platform radio buttons. */
    method SetPlatform(p: string)
      requires Valid()
      modifies this
      ensures Valid()
      ensures platform == p
      ensures productInfo == old(productInfo) && result == old(result) && translatedResult == old(translatedResult)
      ensures model == old(model) && targetLanguage == old(targetLanguage) && expanded == old(expanded)
      ensures error == old(error) && translateAll == old(translateAll)
    {
      platform := p;
    }

    /** The model select. */
    method SetModel(m: string)
      requires Valid()
      modifies this
      ensures Valid()
      ensures model == m
      ensures productInfo == old(productInfo) && result == old(result) && translatedResult == old(translatedResult)
      ensures platform == old(platform) && targetLanguage == old(targetLanguage) && expanded == old(expanded)
      ensures error == old(error) && translateAll == old(translateAll)
    {
      model := m;
    }

    /** `handleBulletPointsChange`: the result takes the new bullet points (`{...null}` is the
        empty listing). */
    method BulletPointsChange(points: seq<string>)
      requires Valid()
      modifies this
      ensures Valid()
      ensures result == Some(old(result).GetOr(EmptyListing).(bulletPoints := points))
      ensures productInfo == old(productInfo) && translatedResult == old(translatedResult) && expanded == old(expanded)
      ensures platform == old(platform) && model == old(model) && targetLanguage == old(targetLanguage)
      ensures error == old(error) && translateAll == old(translateAll)
    {
      result := Some(result.GetOr(EmptyListing).(bulletPoints := points));
    }

    /** `handleItemSpecificsChange`: the result takes the new attribute map. */
    method ItemSpecificsChange(specifics: Entries)
      requires Valid()
      modifies this
      ensures Valid()
      ensures result == Some(old(result).GetOr(EmptyListing).(itemSpecifics := specifics))
      ensures productInfo == old(productInfo) && translatedResult == old(translatedResult) && expanded == old(expanded)
      ensures platform == old(platform) && model == old(model) && targetLanguage == old(targetLanguage)
      ensures error == old(error) && translateAll == old(translateAll)
    {
      result := Some(result.GetOr(EmptyListing).(itemSpecifics := specifics));
    }

    /**
     * `handleSubmit`: the result, the translation and the sections are reset; the image, if any,
     * is uploaded and its path sent with the built text; a returned listing becomes the result
     * with title, description and bullet points expanded, a thrown error becomes the error text.
     */
    method Submit(upload: string -> Http<UploadReply>, send: GenerateSender) returns (request: GenerateBody)
      requires Valid()
      modifies this
      ensures Valid()
      ensures var imagePath := if old(productInfo).image.Some? then UploadImage(upload(old(productInfo).image.value)).path else None;
        request == GenerateBody(Some(RequestText(old(productInfo))), Some(old(platform)), imagePath, Some(old(model)))
      ensures var outcome := ApiService.GenerateContent(request.text.value, old(platform), request.imagePath, old(model), send);
        && (outcome.Ok? ==> result == Some(outcome.value) && error.None? && expanded == AfterGenerate(InitialSections))
        && (outcome.Err? ==> result.None? && error == Some(ErrorText(outcome.message, SubmitFailedMessage))
                               && expanded == InitialSections)
      ensures translatedResult.None? && !translateAll
      ensures productInfo == old(productInfo) && platform == old(platform) && model == old(model)
      ensures targetLanguage == old(targetLanguage)
    {
      StartSubmit();
      var imagePath: Option<string> := None;
      if productInfo.image.Some? {
        var uploadResponse := UploadImage(upload(productInfo.image.value));
        imagePath := uploadResponse.path;
      }
      var text := RequestText(productInfo);
      request := GenerateBody(Some(text), Some(platform), imagePath, Some(model));
      var outcome := ApiService.GenerateContent(text, platform, imagePath, model, send);
      FinishSubmit(outcome);
    }

    /** The synchronous start of `handleSubmit`, before the first `await`. */
    method StartSubmit()
      modifies this
      ensures isLoading && error.None? && result.None? && translatedResult.None? && !translateAll
      ensures expanded == InitialSections
      ensures productInfo == old(productInfo) && platform == old(platform) && model == old(model)
      ensures targetLanguage == old(targetLanguage) && isTranslating == old(isTranslating)
    {
      isLoading := true;
      error := None;
      result := None;
      translatedResult := None;
      translateAll := false;
      expanded := InitialSections;
    }

    /** The end of `handleSubmit`, from the outcome of `generateContent` through `finally`. */
    method FinishSubmit(outcome: Result<Listing>)
      requires error.None? && result.None? && expanded == InitialSections
      modifies this
      ensures !isLoading
      ensures outcome.Ok? ==> result == Some(outcome.value) && error.None? && expanded == AfterGenerate(InitialSections)
      ensures outcome.Err? ==> result.None? && error == Some(ErrorText(outcome.message, SubmitFailedMessage))
                                && expanded == InitialSections
      ensures translatedResult == old(translatedResult) && translateAll == old(translateAll)
      ensures productInfo == old(productInfo) && platform == old(platform) && model == old(model)
      ensures targetLanguage == old(targetLanguage) && isTranslating == old(isTranslating)
    {
      match outcome {
        case Ok(generated) =>
          result := Some(generated);
          expanded := AfterGenerate(expanded);
        case Err(message) =>
          error := Some(ErrorText(message, SubmitFailedMessage));
      }
      isLoading := false;
    }

    /**
     * `handleTranslate`: nothing happens without a result. Otherwise the result is sent for
     * translation into the selected language; a returned listing becomes the translation, shown in
     * every box with every section expanded; a thrown error becomes the error text.
     */
    method Translate(send: TranslateSender) returns (request: Option<TranslateBody>)
      requires Valid()
      modifies this
      ensures Valid()
      ensures old(result).None? ==>
                && request.None? && translatedResult == old(translatedResult)
                && translateAll == old(translateAll) && error == old(error) && expanded == old(expanded)
      ensures old(result).Some? ==> request == Some(TranslateBody(old(result), Some(old(targetLanguage)), Some(old(model))))
      ensures old(result).Some? ==>
                var outcome := ApiService.TranslateContent(old(result).value, old(targetLanguage), old(model), send);
                && (outcome.Ok? ==> translatedResult == Some(outcome.value) && translateAll && error.None?
                                      && expanded == AllExpanded)
                && (outcome.Err? ==> error == Some(ErrorText(outcome.message, TranslateFailedMessage))
                                      && translatedResult == old(translatedResult) && translateAll == old(translateAll)
                                      && expanded == old(expanded))
      ensures result == old(result) && productInfo == old(productInfo)
      ensures platform == old(platform) && model == old(model) && targetLanguage == old(targetLanguage)
    {
      if result.None? {
        return None;
      }
      StartTranslate();
      request := Some(TranslateBody(result, Some(targetLanguage), Some(model)));
      var outcome := ApiService.TranslateContent(result.value, targetLanguage, model, send);
      FinishTranslate(outcome);
    }

    /**
     * `handleTranslate` over `translateContent` as written: with a result, no request is sent and
     * the page only ever shows the reference error; the translation and the sections stay as they
     * were.
     */
    method TranslateAsWritten(send: TranslateSender) returns (request: Option<TranslateBody>)
      requires Valid()
      modifies this
      ensures Valid()
      ensures request.None?
      ensures old(result).None? ==> error == old(error) && isTranslating == old(isTranslating)
      ensures old(result).Some? ==> error == Some(UndefinedBaseUrlMessage) && !isTranslating
      ensures translatedResult == old(translatedResult) && translateAll == old(translateAll) && expanded == old(expanded)
      ensures result == old(result) && productInfo == old(productInfo)
      ensures platform == old(platform) && model == old(model) && targetLanguage == old(targetLanguage)
    {
      request := None;
      if result.None? {
        return;
      }
      StartTranslate();
      var outcome := ApiService.TranslateContentAsWritten(result.value, targetLanguage, model, send);
      FinishTranslate(outcome);
    }

    /** The synchronous start of `handleTranslate`, before the `await`. */
    method StartTranslate()
      modifies this
      ensures isTranslating && error.None?
      ensures result == old(result) && translatedResult == old(translatedResult) && translateAll == old(translateAll)
      ensures expanded == old(expanded) && productInfo == old(productInfo) && isLoading == old(isLoading)
      ensures platform == old(platform) && model == old(model) && targetLanguage == old(targetLanguage)
    {
      isTranslating := true;
      error := None;
    }

    /** The end of `handleTranslate`, from the outcome of `translateContent` through `finally`. */
    method FinishTranslate(outcome: Result<Listing>)
      requires error.None?
      modifies this
      ensures !isTranslating
      ensures outcome.Ok? ==> translatedResult == Some(outcome.value) && translateAll && error.None? && expanded == AllExpanded
      ensures outcome.Err? ==> && error == Some(ErrorText(outcome.message, TranslateFailedMessage))
                               && translatedResult == old(translatedResult) && translateAll == old(translateAll)
                               && expanded == old(expanded)
      ensures result == old(result) && productInfo == old(productInfo) && isLoading == old(isLoading)
      ensures platform == old(platform) && model == old(model) && targetLanguage == old(targetLanguage)
    {
      match outcome {
        case Ok(translated) =>
          translatedResult := Some(translated);
          translateAll := true;
          expanded := AllExpanded;
        case Err(message) =>
          error := Some(ErrorText(message, TranslateFailedMessage));
      }
      isTranslating := false;
    }

    /** The language select: a new target language hides the translated boxes. */
    method ChangeTargetLanguage(code: string)
      requires Valid()
      modifies this
      ensures Valid()
      ensures targetLanguage == code && !translateAll
      ensures translatedResult == old(translatedResult) && result == old(result) && expanded == old(expanded)
      ensures productInfo == old(productInfo) && platform == old(platform) && model == old(model)
      ensures error == old(error)
    {
      targetLanguage := code;
      translateAll := false;
    }

    /**
     * `handleSaveRecord`: nothing is sent without a result. Otherwise the record of the form, the
     * result, the translation, the choices and the current time is saved; `saveRecord` never
     * throws, so the page state does not change.
     */
    method SaveRecord(now: string, send: Record -> Http<Records.RecordsResponse>)
      returns (sent: Option<Record>, outcome: Option<SaveOutcome>)
      ensures result.None? ==> sent.None? && outcome.None?
      ensures result.Some? ==>
                && sent == Some(Record(productInfo, result.value, translatedResult, platform, model, Some(now)))
                && outcome == Some(ApiService.SaveRecord(sent.value, send))
    {
      if result.None? {
        return None, None;
      }
      var record := Record(productInfo, result.value, translatedResult, platform, model, Some(now));
      var saved := ApiService.SaveRecord(record, send);
      sent, outcome := Some(record), Some(saved);
    }
  }

  /** The record the page saves is stored under its own timestamp with the colons replaced, so it
      is fetched back by that id. */
  lemma SavedRecordFileName(r: Record, now: string, clock: string)
    requires r.timestamp == Some(now) && now != ""
    ensures Records.FileName(Records.TimestampFor(r, clock)) == Records.IdFileName(Records.SafeTimestamp(now))
  {
    Records.SavedUnderSafeTimestamp(now, "");
  }
}
