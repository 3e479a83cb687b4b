/** The schema.org JSON-LD builders of src/components/seo/schemas.js. The
    page origin, read from `window.location` in the browser, is a parameter;
    the constant `@context` and `@type` members are left implicit in the
    datatype names. */
module Schemas {

  datatype Option<T> = None | Some(value: T)

  /** JavaScript truthiness of a string that may be missing: present and not empty. */
  predicate Truthy(s: Option<string>)
  {
    s.Some? && s.value != ""
  }

  /** `s || fallback` for a string fallback. */
  function OrElse(s: Option<string>, fallback: string): string
  {
    if Truthy(s) then s.value else fallback
  }

  const AppName: string := "Groceries App"
  const DefaultAuthor: string := "Groceries App Team"
  const LogoPath: string := "/groceries.webp"

  /** `window.location?.origin || ""`: `location` is the page origin, or
      None when the page has no location. */
  function Origin(location: Option<string>): string
  {
    OrElse(location, "")
  }

  /** `${origin}/groceries.webp` */
  function LogoUrl(location: Option<string>): string
  {
    Origin(location) + LogoPath
  }

  // ---------------------------------------------------------------------
  // The two fixed schemas

  datatype Organization = Organization(
    name: string, description: string, url: string, logo: string, sameAs: seq<string>)

  datatype Offer = Offer(price: string, priceCurrency: string)

  datatype AggregateRating = AggregateRating(
    ratingValue: string, ratingCount: string, bestRating: string, worstRating: string)

  datatype WebApplication = WebApplication(
    name: string, description: string, url: string, applicationCategory: string,
    operatingSystem: string, browserRequirements: string,
    offers: Offer, aggregateRating: AggregateRating)

  function OrganizationSchema(location: Option<string>): Organization
  {
    Organization(
      AppName,
      "Smart shopping list manager for organizing groceries",
      Origin(location),
      LogoUrl(location),
      [])
  }

  function WebApplicationSchema(location: Option<string>): WebApplication
  {
    WebApplication(
      AppName,
      "Smart shopping list manager for organizing groceries efficiently",
      Origin(location),
      "ProductivityApplication",
      "Web Browser",
      "Requires JavaScript. Requires HTML5.",
      Offer("0", "USD"),
      AggregateRating("4.8", "150", "5", "1"))
  }

  // ---------------------------------------------------------------------
  // Breadcrumbs

  datatype Breadcrumb = Breadcrumb(name: Option<string>, url: Option<string>)
  datatype ListItem = ListItem(position: nat, name: Option<string>, item: Option<string>)
  datatype BreadcrumbList = BreadcrumbList(itemListElement: seq<ListItem>)

  /** Breadcrumb i becomes the list item numbered i + 1, carrying its name and url. */
  function ListItems(bs: seq<Breadcrumb>): seq<ListItem>
  {
    if bs == [] then []
    else ListItems(bs[..|bs| - 1]) + [ListItem(|bs|, bs[|bs| - 1].name, bs[|bs| - 1].url)]
  }

  function GenerateBreadcrumbSchema(bs: seq<Breadcrumb>): BreadcrumbList
  {
    BreadcrumbList(ListItems(bs))
  }

  // ---------------------------------------------------------------------
  // FAQ page

  datatype Faq = Faq(question: Option<string>, answer: Option<string>)
  datatype Answer = Answer(text: Option<string>)
  datatype Question = Question(name: Option<string>, acceptedAnswer: Answer)
  datatype FAQPage = FAQPage(mainEntity: seq<Question>)

  /** Each faq becomes a question named by its question text, whose accepted
      answer is its answer text, in the same order. */
  function Questions(fs: seq<Faq>): seq<Question>
  {
    if fs == [] then []
    else [Question(fs[0].question, Answer(fs[0].answer))] + Questions(fs[1..])
  }

  function GenerateFaqSchema(fs: seq<Faq>): FAQPage
  {
    FAQPage(Questions(fs))
  }

  // ---------------------------------------------------------------------
  // Article

  /** The caller's article description; any field may be missing. */
  datatype ArticleInfo = ArticleInfo(
    title: Option<string>, description: Option<string>, image: Option<string>,
    author: Option<string>, datePublished: Option<string>, dateModified: Option<string>)

  datatype Person = Person(name: string)
  datatype ImageObject = ImageObject(url: string)
  datatype Publisher = Publisher(name: string, logo: ImageObject)

  datatype Article = Article(
    headline: Option<string>, description: Option<string>, image: Option<string>,
    author: Person, publisher: Publisher,
    datePublished: Option<string>, dateModified: Option<string>)

  function GenerateArticleSchema(a: ArticleInfo, location: Option<string>): Article
  {
    Article(
      a.title,
      a.description,
      a.image,
      Person(OrElse(a.author, DefaultAuthor)),
      Publisher(AppName, ImageObject(LogoUrl(location))),
      a.datePublished,
      if Truthy(a.dateModified) then a.dateModified else a.datePublished)
  }

  // ---------------------------------------------------------------------
  // How-to

  datatype StepInfo = StepInfo(name: Option<string>, description: Option<string>, image: Option<string>)

  /** The caller's how-to description; `supplies` and `steps` may be missing. */
  datatype HowToInfo = HowToInfo(
    name: Option<string>, description: Option<string>, image: Option<string>,
    totalTime: Option<string>, supplies: Option<seq<Option<string>>>, steps: Option<seq<StepInfo>>)

  datatype HowToSupply = HowToSupply(name: Option<string>)
  datatype HowToStep = HowToStep(position: nat, name: Option<string>, text: Option<string>, image: Option<string>)

  datatype HowTo = HowTo(
    name: Option<string>, description: Option<string>, image: Option<string>,
    totalTime: Option<string>, supply: seq<HowToSupply>, step: seq<HowToStep>)

  /** Each supply entry becomes a supply named by it, in the same order. */
  function Supplies(ss: seq<Option<string>>): seq<HowToSupply>
  {
    if ss == [] then [] else [HowToSupply(ss[0])] + Supplies(ss[1..])
  }

  /** Step i becomes the how-to step numbered i + 1, with its name, its
      description as text and its image. */
  function Steps(ss: seq<StepInfo>): seq<HowToStep>
  {
    if ss == [] then []
    else
      var last := ss[|ss| - 1];
      Steps(ss[..|ss| - 1]) + [HowToStep(|ss|, last.name, last.description, last.image)]
  }

  function GenerateHowToSchema(h: HowToInfo): HowTo
  {
    HowTo(
      h.name,
      h.description,
      h.image,
      h.totalTime,
      // a mapped array is truthy even when empty, so `|| []` only catches a missing list
      match h.supplies
      case None => []
      case Some(ss) => Supplies(ss),
      match h.steps
      case None => []
      case Some(ss) => Steps(ss))
  }

  // ---------------------------------------------------------------------
  // Properties

  /** The origin-derived fields: both fixed schemas carry the same url, the
      organisation logo and the article publisher logo are that url followed
      by the logo path, and the url is the origin when there is one, else "". */
  lemma OriginFields(location: Option<string>, a: ArticleInfo)
    ensures OrganizationSchema(location).url == WebApplicationSchema(location).url
    ensures OrganizationSchema(location).logo == OrganizationSchema(location).url + "/groceries.webp"
    ensures GenerateArticleSchema(a, location).publisher.logo.url == OrganizationSchema(location).logo
    ensures Truthy(location) ==> OrganizationSchema(location).url == location.value
    ensures !Truthy(location) ==> OrganizationSchema(location).url == ""
  {
  }

  /** Breadcrumb i becomes list item i, numbered from 1. */
  lemma {:induction false} BreadcrumbSchemaAt(bs: seq<Breadcrumb>)
    ensures |GenerateBreadcrumbSchema(bs).itemListElement| == |bs|
    ensures forall i :: 0 <= i < |bs| ==>
      GenerateBreadcrumbSchema(bs).itemListElement[i] == ListItem(i + 1, bs[i].name, bs[i].url)
  {
    if bs != [] {
      var init := bs[..|bs| - 1];
      BreadcrumbSchemaAt(init);
      forall i | 0 <= i < |init|
        ensures init[i] == bs[i]
      {
      }
    }
  }

  /** Question i is faq i, in the same order. */
  lemma {:induction false} FaqSchemaAt(fs: seq<Faq>)
    ensures |GenerateFaqSchema(fs).mainEntity| == |fs|
    ensures forall i :: 0 <= i < |fs| ==>
      GenerateFaqSchema(fs).mainEntity[i].name == fs[i].question &&
      GenerateFaqSchema(fs).mainEntity[i].acceptedAnswer.text == fs[i].answer
  {
    if fs != [] {
      FaqSchemaAt(fs[1..]);
      forall i | 1 <= i < |fs|
        ensures GenerateFaqSchema(fs).mainEntity[i] == GenerateFaqSchema(fs[1..]).mainEntity[i - 1]
      {
      }
    }
  }

  /** The author defaults to the team name when missing or empty, so the
      author name is never empty; the headline is the title. */
  lemma ArticleAuthor(a: ArticleInfo, location: Option<string>)
    ensures Truthy(a.author) ==> GenerateArticleSchema(a, location).author.name == a.author.value
    ensures !Truthy(a.author) ==> GenerateArticleSchema(a, location).author.name == "Groceries App Team"
    ensures GenerateArticleSchema(a, location).author.name != ""
    ensures GenerateArticleSchema(a, location).headline == a.title
  {
  }

  /** `dateModified` falls back to `datePublished` when missing or empty,
      so it is missing only when the publication date is missing too. */
  lemma ArticleDates(a: ArticleInfo, location: Option<string>)
    ensures Truthy(a.dateModified) ==> GenerateArticleSchema(a, location).dateModified == a.dateModified
    ensures !Truthy(a.dateModified) ==> GenerateArticleSchema(a, location).dateModified == a.datePublished
    ensures GenerateArticleSchema(a, location).datePublished == a.datePublished
    ensures GenerateArticleSchema(a, location).dateModified.None? ==> a.datePublished.None?
  {
  }

  /** Supply i of a present list names entry i; a missing list gives no supplies. */
  lemma {:induction false} HowToSupplyAt(h: HowToInfo)
    ensures h.supplies.None? ==> GenerateHowToSchema(h).supply == []
    ensures h.supplies.Some? ==> |GenerateHowToSchema(h).supply| == |h.supplies.value|
    ensures h.supplies.Some? ==> forall i :: 0 <= i < |h.supplies.value| ==>
      GenerateHowToSchema(h).supply[i] == HowToSupply(h.supplies.value[i])
  {
    if h.supplies.Some? {
      SuppliesAt(h.supplies.value);
    }
  }

  lemma {:induction false} SuppliesAt(ss: seq<Option<string>>)
    ensures |Supplies(ss)| == |ss|
    ensures forall i :: 0 <= i < |ss| ==> Supplies(ss)[i] == HowToSupply(ss[i])
  {
    if ss != [] {
      SuppliesAt(ss[1..]);
      forall i | 1 <= i < |ss|
        ensures Supplies(ss)[i] == Supplies(ss[1..])[i - 1]
      {
      }
    }
  }

  /** Step i of a present list is numbered i + 1 and carries step i's name
      and description; a missing list gives no steps. */
  lemma {:induction false} HowToStepAt(h: HowToInfo)
    ensures h.steps.None? ==> GenerateHowToSchema(h).step == []
    ensures h.steps.Some? ==> |GenerateHowToSchema(h).step| == |h.steps.value|
    ensures h.steps.Some? ==> forall i :: 0 <= i < |h.steps.value| ==>
      var s := h.steps.value[i];
      GenerateHowToSchema(h).step[i] == HowToStep(i + 1, s.name, s.description, s.image)
  {
    if h.steps.Some? {
      StepsAt(h.steps.value);
    }
  }

  lemma {:induction false} StepsAt(ss: seq<StepInfo>)
    ensures |Steps(ss)| == |ss|
    ensures forall i :: 0 <= i < |ss| ==>
      Steps(ss)[i] == HowToStep(i + 1, ss[i].name, ss[i].description, ss[i].image)
  {
    if ss != [] {
      var init := ss[..|ss| - 1];
      StepsAt(init);
      forall i | 0 <= i < |init|
        ensures init[i] == ss[i]
      {
      }
    }
  }
}
