# Legal footer of iTwinUI-react, modelled in Dafny

This project models the `Footer` component of iTwinUI-react
(`src/core/Footer/Footer.tsx`): the legal footer placed at the bottom of a
page. From its props the component

1. merges its built-in English titles (`footerTranslations`) with the
   caller's `translatedTitles`, key by key, the caller winning;
2. builds the six default entries (copyright, terms of service, privacy,
   terms of use, cookies, legal notices) in that fixed order, each with its
   fixed URL except the copyright line;
3. resolves `customElements`: absent, the defaults are the list; an array,
   it is appended after the defaults; a function, it is called with the
   defaults and its result is the list, verbatim;
4. maps every element to a list item: a separator before every item but
   the first, an external link (`target="_blank"`, `rel="noreferrer"`) when
   the element's `url` is truthy and the bare title otherwise, and the React
   key `${title}-${index}`.

The code is pure, so the model is made of datatypes and functions
(`footer.dfy`), the decimal notation that template literals give integers
(`decimal.dfy`), and lemmas about them (`footer_properties.dfy`).

Modelling choices:

- `translatedTitles` is `Option<map<TitleKey, string>>`. A partial map lets
  a caller omit keys, which then fall back to the English text, as the
  object spread does; Dafny's right-biased map union `+` is that spread.
- The year of the copyright line is read from the clock once, when the
  module loads (`Footer.tsx:62`). It is a parameter `year: int` here.
- JavaScript truthiness of `url` is `url.Some? && url.value != ""`.
- The rendered output is a `seq<Item>`. Each `Item` has the React key, a
  `separator` flag and a `Content` that is `Link(href, target, rel, text)`
  or `Text(text)`.

## Model

| member | source | states |
|---|---|---|
| `Decimal.NatToDecimal` | src/core/Footer/Footer.tsx:130 | the index in a key is written as at least one decimal digit, with no dash and no leading zero |
| `Decimal.DecimalRoundTrip` | src/core/Footer/Footer.tsx:130 | reading the digits of `${index}` back gives the index |
| `Decimal.NatToDecimalInjective` | src/core/Footer/Footer.tsx:130 | distinct indices are written differently |
| `Decimal.IntToDecimal` | src/core/Footer/Footer.tsx:62 | `${year}` is a '-' exactly for negative years, then digits with no leading zero (unless the year is 0) that read back as the magnitude |
| `Footer.CopyrightNotice` | src/core/Footer/Footer.tsx:62 | the copyright title starts with the copyright sign |
| `Footer.FooterTranslations` | src/core/Footer/Footer.tsx:61-68 | the built-in table has a title for every one of the six keys, the copyright one built from the year |
| `Footer.MergeTitles` | src/core/Footer/Footer.tsx:82 | the merged titles have the keys of both tables; per key, a translated title wins, the built-in one is kept otherwise |
| `Footer.DefaultElements` | src/core/Footer/Footer.tsx:83-115 | six entries keyed copyright, termsOfService, privacy, termsOfUse, cookies, legalNotices, in that order, each titled from the merged titles; only the first (copyright) lacks a URL, every other URL is non-empty |
| `Footer.Defaults` | src/core/Footer/Footer.tsx:82-115 | the defaults the component builds from the merged titles: six entries keyed copyright, termsOfService, privacy, termsOfUse, cookies, legalNotices in that order |
| `Footer.ResolveElements` | src/core/Footer/Footer.tsx:117-123 | no custom elements: the defaults; an array: the unchanged defaults first and the array after them, lengths adding up; a function: exactly its result on the defaults |
| `Footer.Elements` | src/core/Footer/Footer.tsx:82-123 | the final list for given props: the defaults without `customElements`; the six unchanged defaults then the array for an array; exactly the function's result on the defaults for a function |
| `Footer.ItemKey` | src/core/Footer/Footer.tsx:130 | the key `${title}-${index}` starts with the title, then a dash, then the shortest decimal digits of the index: they read back as the index and have no leading zero |
| `Footer.RenderElements` | src/core/Footer/Footer.tsx:128-141 | the `elements.map` (one item per element, built by `RenderElement`): separator iff index > 0; key `ItemKey(title, index)`; a link to the URL with target `_blank` and rel `noreferrer` iff the URL is truthy (`IsTruthy`, line 132), else the bare title |
| `Footer.Render` | src/core/Footer/Footer.tsx:77-145 | the items the component renders for these props: one per resolved element (six without customisation, 6 + n for an appended array), separator iff index > 0, key from title and index, a link iff the element's URL is truthy |
| `FooterProperties.DefaultUrls` | src/core/Footer/Footer.tsx:83-115 | the copyright entry has no URL and the five others have exactly the agreement-portal EULA, privacy-policy, terms-of-use, cookie-policy and legal URLs of the source |
| `FooterProperties.NoCustomisationKeepsDefaults` | src/core/Footer/Footer.tsx:83-123 | without `customElements` the list is the six defaults in key order copyright, termsOfService, privacy, termsOfUse, cookies, legalNotices |
| `FooterProperties.DefaultTitleResolution` | src/core/Footer/Footer.tsx:82-115 | each default's title is the translated title for its key when supplied, the built-in one otherwise |
| `FooterProperties.BuiltInEnglishTitles` | src/core/Footer/Footer.tsx:61-68 | the built-in texts: "© <year> Bentley Systems, Incorporated", "Terms of service", "Privacy", "Terms of use", "Cookies", "Legal notices" |
| `FooterProperties.WithoutKey` | src/core/Footer/Footer.tsx:30 | the documented filter callback keeps no element with the given key and never lengthens the list |
| `FooterProperties.WithoutKeyUnchanged` | src/core/Footer/Footer.tsx:30 | the filter changes nothing when no element has the key |
| `FooterProperties.WithoutKeyKeepsOnlyInput` | src/core/Footer/Footer.tsx:30 | every element the filter keeps was in the input |
| `FooterProperties.WithoutKeyKeepsOthers` | src/core/Footer/Footer.tsx:30 | every input element without the key is kept |
| `FooterProperties.WithoutKeyConcat` | src/core/Footer/Footer.tsx:30 | filtering a concatenation is concatenating the filtered parts |
| `FooterProperties.WithoutPrivacyInDefaultOrder` | src/core/Footer/Footer.tsx:30 | filtering privacy out of six entries in default key order leaves entries 0, 1, 3, 4, 5 in order |
| `FooterProperties.FilterOutPrivacy` | src/core/Footer/Footer.tsx:28-31 | the documented privacy filter, passed as `customElements`, yields the other five defaults in order |
| `FooterProperties.WithUrl` | src/core/Footer/Footer.tsx:34 | the documented URL-changing callback keeps the length, sets the URL of the entries with the key and leaves the others unchanged |
| `FooterProperties.ReplacePrivacyUrl` | src/core/Footer/Footer.tsx:32-34 | with that callback and a non-empty URL, the privacy item links to the new URL and the five other items render as without customisation |
| `FooterProperties.SeparatorsBetween` | src/core/Footer/Footer.tsx:131 | when exactly the items after the first carry a separator, there are n - 1 separators for n >= 1 items and none for no items |
| `FooterProperties.RenderedSeparators` | src/core/Footer/Footer.tsx:128-131 | a rendered list of n >= 1 elements has exactly n - 1 separators, an empty one none |
| `FooterProperties.DefaultsRenderOnePlainText` | src/core/Footer/Footer.tsx:83-141 | without customisation, exactly the first item (the copyright title) is plain text and the five others are links |
| `FooterProperties.AfterLastDashOfKey` | src/core/Footer/Footer.tsx:130 | the dash-free suffix of `title-suffix` is recovered whatever the title contains |
| `FooterProperties.DashSuffixDetermined` | src/core/Footer/Footer.tsx:130 | two `prefix-suffix` strings with dash-free suffixes are equal only when prefixes and suffixes are |
| `FooterProperties.KeyIndexRoundTrip` | src/core/Footer/Footer.tsx:130 | the index is recovered from an item's key by reading the digits after its last dash, whatever the title holds |
| `FooterProperties.ItemKeysDistinct` | src/core/Footer/Footer.tsx:128-130 | items at distinct positions have distinct keys, even when titles repeat or contain dashes; this follows from `ItemKey`'s contract |

## Left out

- `stories/core/Tabs.stories.tsx` is a Storybook demonstration with no logic of its own; the Tabs component it renders (`src/core/Tabs/Tabs`) is not part of this model, so tab selection and keyboard navigation are not modelled.
- `useTheme()`, the CSS import, the `classnames` call on `className` and the spread of the remaining props onto `<footer>` are theming and DOM side effects of libraries outside this model.
- The clock read `new Date().getFullYear()` is replaced by the `year` parameter.
- JSX and React rendering: only the abstract sequence of list items is modelled, not the DOM nodes or the `iui-separator` span's markup.
- A `translatedTitles` entry whose value is `undefined` (the spread would copy it over the built-in title) is not modelled; the TypeScript type excludes it. Keys outside the six are excluded by the key type.
- A `customElements` function is a total, side-effect-free Dafny function; a callback that throws or has effects is not modelled.
- FooterProperties.WithoutKey: kept elements are exactly the input elements without the key (`WithoutKeyKeepsOnlyInput`, `WithoutKeyKeepsOthers`), but that they keep their relative order is proved only for the six defaults (`WithoutPrivacyInDefaultOrder`), not for every list.
