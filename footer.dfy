/**
  The legal `Footer` component: the built-in English titles, the merge
  with caller-supplied translations, the six default entries, the
  `customElements` override, and the list items the component renders.
  Theming, class names and the DOM itself are outside the model; the
  rendered output is the abstract sequence of list items.
 */
module Footer {
  import opened Wrappers
  import Decimal

  /** The six recognised translation keys (`keyof TitleTranslations`). */
  datatype TitleKey = Copyright | TermsOfService | Privacy | TermsOfUse | Cookies | LegalNotices

  /** A title per translation key. */
  type Titles = map<TitleKey, string>

  /** Every translation key has a title. */
  predicate Complete(titles: Titles) {
    forall k: TitleKey :: k in titles
  }

  /** One footer entry: a title, an optional URL and an optional translation key. */
  datatype FooterElement = FooterElement(title: string, url: Option<string>, key: Option<TitleKey>)

  /**
    The `customElements` prop: an array appended after the defaults, or a
    function that receives the defaults and returns the final list.
   */
  datatype CustomElements =
    | Append(extra: seq<FooterElement>)
    | Transform(f: seq<FooterElement> -> seq<FooterElement>)

  /** The props the element list depends on. */
  datatype FooterProps = FooterProps(customElements: Option<CustomElements>, translatedTitles: Option<Titles>)

  /** What a list item shows: an external link, or the bare title. */
  datatype Content =
    | Link(href: string, target: string, rel: string, text: string)
    | Text(text: string)

  /** One rendered `<li>`: its React key, whether a separator precedes the content, and the content. */
  datatype Item = Item(key: string, separator: bool, content: Content)

  const LinkTarget: string := "_blank"
  const LinkRel: string := "noreferrer"

  /** The order of the default entries. */
  const DefaultOrder: seq<TitleKey> := [Copyright, TermsOfService, Privacy, TermsOfUse, Cookies, LegalNotices]

  /** The copyright notice for a given year; the year is read from the clock when the module loads. */
  function CopyrightNotice(year: int): (s: string)
    ensures |s| > 0 && s[0] == '\U{00A9}'
  {
    "\U{00A9} " + Decimal.IntToDecimal(year) + " Bentley Systems, Incorporated"
  }

  /** The built-in English titles (`footerTranslations`). */
  function FooterTranslations(year: int): (titles: Titles)
    ensures Complete(titles)
    ensures titles[Copyright] == CopyrightNotice(year)
  {
    var titles := map[
      Copyright := CopyrightNotice(year),
      Cookies := "Cookies",
      LegalNotices := "Legal notices",
      Privacy := "Privacy",
      TermsOfService := "Terms of service",
      TermsOfUse := "Terms of use"
    ];
    assert Complete(titles) by {
      forall k: TitleKey ensures k in titles {
        if k.Copyright? {} else if k.TermsOfService? {} else if k.Privacy? {}
        else if k.TermsOfUse? {} else if k.Cookies? {} else {}
      }
    }
    titles
  }

  /** `{ ...builtIn, ...translated }`: key by key, a translated title wins over the built-in one. */
  function MergeTitles(builtIn: Titles, translated: Option<Titles>): (titles: Titles)
    ensures translated.None? ==> titles.Keys == builtIn.Keys
    ensures translated.Some? ==> titles.Keys == builtIn.Keys + translated.value.Keys
    ensures forall k :: k in titles ==>
      titles[k] == if translated.Some? && k in translated.value then translated.value[k] else builtIn[k]
  {
    match translated
    case None => builtIn
    case Some(t) => builtIn + t
  }

  /** JavaScript truthiness of an optional string: present and non-empty. */
  predicate IsTruthy(url: Option<string>) {
    url.Some? && url.value != ""
  }

  /** The six default entries, in the fixed order, each with its fixed URL except the copyright line. */
  function DefaultElements(titles: Titles): (elements: seq<FooterElement>)
    requires Complete(titles)
    ensures |elements| == |DefaultOrder|
    ensures forall i :: 0 <= i < |elements| ==>
      elements[i].key == Some(DefaultOrder[i]) && elements[i].title == titles[DefaultOrder[i]]
    ensures forall i :: 0 <= i < |elements| ==> (IsTruthy(elements[i].url) <==> i != 0)
    ensures forall i :: 0 <= i < |elements| ==> (elements[i].url.None? <==> i == 0)
  {
    [
      FooterElement(titles[Copyright], None, Some(Copyright)),
      FooterElement(
        titles[TermsOfService],
        Some("https://connect-agreementportal.bentley.com/AgreementApp/Home/Eula/view/readonly/BentleyConnect"),
        Some(TermsOfService)),
      FooterElement(titles[Privacy], Some("https://www.bentley.com/en/privacy-policy"), Some(Privacy)),
      FooterElement(
        titles[TermsOfUse],
        Some("https://www.bentley.com/en/terms-of-use-and-select-online-agreement"),
        Some(TermsOfUse)),
      FooterElement(titles[Cookies], Some("https://www.bentley.com/en/cookie-policy"), Some(Cookies)),
      FooterElement(titles[LegalNotices], Some("https://connect.bentley.com/Legal"), Some(LegalNotices))
    ]
  }

  /**
    The final element list: the defaults when there is no customisation,
    the defaults followed by an appended array, or whatever a transform
    function returns when given the defaults.
   */
  function ResolveElements(defaults: seq<FooterElement>, custom: Option<CustomElements>): (elements: seq<FooterElement>)
    ensures custom.None? ==> elements == defaults
    ensures custom.Some? && custom.value.Append? ==>
      && |elements| == |defaults| + |custom.value.extra|
      && elements[..|defaults|] == defaults
      && elements[|defaults|..] == custom.value.extra
    ensures custom.Some? && custom.value.Transform? ==> elements == custom.value.f(defaults)
  {
    match custom
    case None => defaults
    case Some(Transform(f)) => f(defaults)
    case Some(Append(extra)) => defaults + extra
  }

  /** The default entries titled from the built-in table merged with the translated titles. */
  function Defaults(translated: Option<Titles>, year: int): (defaults: seq<FooterElement>)
    ensures |defaults| == 6
    ensures forall i :: 0 <= i < 6 ==> defaults[i].key == Some(DefaultOrder[i])
  {
    DefaultElements(MergeTitles(FooterTranslations(year), translated))
  }

  /** The element list a `Footer` with these props renders, the year being the one read at module load. */
  function Elements(props: FooterProps, year: int): (elements: seq<FooterElement>)
    ensures props.customElements.None? ==> elements == Defaults(props.translatedTitles, year)
    ensures props.customElements.Some? && props.customElements.value.Append? ==>
      && |elements| == 6 + |props.customElements.value.extra|
      && elements[..6] == Defaults(props.translatedTitles, year)
      && elements[6..] == props.customElements.value.extra
    ensures props.customElements.Some? && props.customElements.value.Transform? ==>
      elements == props.customElements.value.f(Defaults(props.translatedTitles, year))
  {
    ResolveElements(Defaults(props.translatedTitles, year), props.customElements)
  }

  /** The React key of the item at `index`: the title, a dash, and the index in decimal. */
  function ItemKey(title: string, index: nat): (key: string)
    ensures |key| > |title| + 1
    ensures key[..|title|] == title && key[|title|] == '-'
    ensures Decimal.AllDigits(key[|title| + 1..]) && Decimal.DecimalValue(key[|title| + 1..]) == index
    ensures |key| > |title| + 2 ==> key[|title| + 1] != '0'
  {
    var key := title + "-" + Decimal.NatToDecimal(index);
    assert key[|title| + 1..] == Decimal.NatToDecimal(index);
    Decimal.DecimalRoundTrip(index);
    key
  }

  /** The list item for one element at a given position. */
  function RenderElement(element: FooterElement, index: nat): Item {
    Item(
      ItemKey(element.title, index),
      index > 0,
      if IsTruthy(element.url) then Link(element.url.value, LinkTarget, LinkRel, element.title)
      else Text(element.title))
  }

  /**
    `elements.map(...)`: one item per element, in order; a separator
    before every item but the first; a link opening in a new browsing
    context exactly when the URL is truthy, the bare title otherwise.
   */
  function RenderElements(elements: seq<FooterElement>): (items: seq<Item>)
    ensures |items| == |elements|
    ensures forall i :: 0 <= i < |items| ==> (items[i].separator <==> i > 0)
    ensures forall i :: 0 <= i < |items| ==> items[i].key == ItemKey(elements[i].title, i)
    ensures forall i :: 0 <= i < |items| && IsTruthy(elements[i].url) ==>
      items[i].content == Link(elements[i].url.value, "_blank", "noreferrer", elements[i].title)
    ensures forall i :: 0 <= i < |items| && !IsTruthy(elements[i].url) ==>
      items[i].content == Text(elements[i].title)
  {
    seq(|elements|, i requires 0 <= i < |elements| => RenderElement(elements[i], i))
  }

  /** The items the `Footer` renders for these props. */
  function Render(props: FooterProps, year: int): (items: seq<Item>)
    ensures |items| == |Elements(props, year)|
    ensures props.customElements.None? ==> |items| == 6
    ensures props.customElements.Some? && props.customElements.value.Append? ==>
      |items| == 6 + |props.customElements.value.extra|
    ensures forall i :: 0 <= i < |items| ==> (items[i].separator <==> i > 0)
    ensures forall i :: 0 <= i < |items| ==> items[i].key == ItemKey(Elements(props, year)[i].title, i)
    ensures forall i :: 0 <= i < |items| ==>
      (items[i].content.Link? <==> IsTruthy(Elements(props, year)[i].url))
  {
    RenderElements(Elements(props, year))
  }
}
