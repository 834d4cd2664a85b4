/**
  What the `Footer` promises about the list it builds and renders: the
  order of the defaults, how titles are resolved, the two kinds of
  `customElements`, the separator rule and the uniqueness of item keys.
 */
module FooterProperties {
  import opened Wrappers
  import Decimal
  import opened Footer

  /** With no `customElements`, the list is the six defaults in their fixed key order. */
  lemma NoCustomisationKeepsDefaults(props: FooterProps, year: int)
    requires props.customElements.None?
    ensures var elements := Elements(props, year);
      && elements == Defaults(props.translatedTitles, year)
      && |elements| == 6
      && elements[0].key == Some(Copyright)
      && elements[1].key == Some(TermsOfService)
      && elements[2].key == Some(Privacy)
      && elements[3].key == Some(TermsOfUse)
      && elements[4].key == Some(Cookies)
      && elements[5].key == Some(LegalNotices)
  {
    var d := Defaults(props.translatedTitles, year);
    assert Elements(props, year) == d;
    assert DefaultOrder == [Copyright, TermsOfService, Privacy, TermsOfUse, Cookies, LegalNotices];
  }

  /** A default entry's title is the translated one for its key when supplied, the built-in English one otherwise. */
  lemma DefaultTitleResolution(translated: Option<Titles>, year: int, i: nat)
    requires i < 6
    ensures var key := DefaultOrder[i];
      Defaults(translated, year)[i].title ==
        if translated.Some? && key in translated.value then translated.value[key]
        else FooterTranslations(year)[key]
  {
  }

  /** The built-in English titles, the copyright one carrying the given year. */
  lemma BuiltInEnglishTitles(year: int)
    ensures var titles := FooterTranslations(year);
      && titles[Copyright] == "\U{00A9} " + Decimal.IntToDecimal(year) + " Bentley Systems, Incorporated"
      && titles[TermsOfService] == "Terms of service"
      && titles[Privacy] == "Privacy"
      && titles[TermsOfUse] == "Terms of use"
      && titles[Cookies] == "Cookies"
      && titles[LegalNotices] == "Legal notices"
  {
  }

  /** The fixed URLs of the five linked defaults, and none for the copyright line. */
  lemma DefaultUrls(titles: Titles)
    requires Complete(titles)
    ensures var d := DefaultElements(titles);
      && d[0].url == None
      && d[1].url == Some("https://connect-agreementportal.bentley.com/AgreementApp/Home/Eula/view/readonly/BentleyConnect")
      && d[2].url == Some("https://www.bentley.com/en/privacy-policy")
      && d[3].url == Some("https://www.bentley.com/en/terms-of-use-and-select-online-agreement")
      && d[4].url == Some("https://www.bentley.com/en/cookie-policy")
      && d[5].url == Some("https://connect.bentley.com/Legal")
  {
  }

  /** `elements.filter(({ key }) => key !== k)`: the elements whose key is not `k`, in order. */
  function WithoutKey(elements: seq<FooterElement>, k: TitleKey): (kept: seq<FooterElement>)
    ensures |kept| <= |elements|
    ensures forall i :: 0 <= i < |kept| ==> kept[i].key != Some(k)
  {
    if |elements| == 0 then []
    else (if elements[0].key == Some(k) then [] else [elements[0]]) + WithoutKey(elements[1..], k)
  }

  /** The filter changes nothing when no element has the key. */
  lemma {:induction false} WithoutKeyUnchanged(elements: seq<FooterElement>, k: TitleKey)
    requires forall i :: 0 <= i < |elements| ==> elements[i].key != Some(k)
    ensures WithoutKey(elements, k) == elements
  {
    if |elements| > 0 {
      WithoutKeyUnchanged(elements[1..], k);
      assert elements == [elements[0]] + elements[1..];
    }
  }

  /** Every element the filter keeps comes from the input. */
  lemma {:induction false} WithoutKeyKeepsOnlyInput(elements: seq<FooterElement>, k: TitleKey, e: FooterElement)
    requires e in WithoutKey(elements, k)
    ensures e in elements
  {
    if e != elements[0] {
      WithoutKeyKeepsOnlyInput(elements[1..], k, e);
    }
  }

  /** Every input element without the key survives the filter. */
  lemma {:induction false} WithoutKeyKeepsOthers(elements: seq<FooterElement>, k: TitleKey, e: FooterElement)
    requires e in elements && e.key != Some(k)
    ensures e in WithoutKey(elements, k)
  {
    if e != elements[0] {
      WithoutKeyKeepsOthers(elements[1..], k, e);
    }
  }

  /** Filtering a concatenation filters each part. */
  lemma {:induction false} WithoutKeyConcat(a: seq<FooterElement>, b: seq<FooterElement>, k: TitleKey)
    ensures WithoutKey(a + b, k) == WithoutKey(a, k) + WithoutKey(b, k)
  {
    if |a| == 0 {
      assert a + b == b;
    } else {
      assert (a + b)[1..] == a[1..] + b;
      WithoutKeyConcat(a[1..], b, k);
    }
  }

  /** Filtering `privacy` out of six entries keyed in the default order leaves the other five, in order. */
  lemma {:induction false} WithoutPrivacyInDefaultOrder(d: seq<FooterElement>)
    requires |d| == 6
    requires forall i :: 0 <= i < 6 ==> d[i].key == Some(DefaultOrder[i])
    ensures WithoutKey(d, Privacy) == [d[0], d[1], d[3], d[4], d[5]]
  {
    assert d[2].key == Some(Privacy) && d[0].key != Some(Privacy) && d[1].key != Some(Privacy);
    assert d[3].key != Some(Privacy) && d[4].key != Some(Privacy) && d[5].key != Some(Privacy);
    assert d == [d[0], d[1]] + [d[2]] + [d[3], d[4], d[5]];
    WithoutKeyConcat([d[0], d[1]] + [d[2]], [d[3], d[4], d[5]], Privacy);
    WithoutKeyConcat([d[0], d[1]], [d[2]], Privacy);
    assert WithoutKey([d[2]], Privacy) == [] by {
      assert [d[2]][1..] == [];
    }
    assert WithoutKey([d[0], d[1]], Privacy) == [d[0], d[1]] by {
      assert [d[0], d[1]][1..] == [d[1]];
      assert [d[1]][1..] == [];
    }
    assert WithoutKey([d[5]], Privacy) == [d[5]] by {
      assert [d[5]][1..] == [];
    }
    assert WithoutKey([d[4], d[5]], Privacy) == [d[4], d[5]] by {
      assert [d[4], d[5]][1..] == [d[5]];
    }
    assert WithoutKey([d[3], d[4], d[5]], Privacy) == [d[3], d[4], d[5]] by {
      assert [d[3], d[4], d[5]][1..] == [d[4], d[5]];
    }
  }

  /** Filtering out `privacy` with a transform leaves the other five defaults, in order. */
  lemma FilterOutPrivacy(translated: Option<Titles>, year: int)
    ensures var props := FooterProps(Some(Transform(es => WithoutKey(es, Privacy))), translated);
      var d := Defaults(translated, year);
      Elements(props, year) == [d[0], d[1], d[3], d[4], d[5]]
  {
    WithoutPrivacyInDefaultOrder(Defaults(translated, year));
  }

  /** `elements.map(e => ({ ...e, url: e.key === k ? url : e.url }))`: replace the URL of the `k` entry. */
  function WithUrl(elements: seq<FooterElement>, k: TitleKey, url: string): (changed: seq<FooterElement>)
    ensures |changed| == |elements|
    ensures forall i :: 0 <= i < |elements| && elements[i].key == Some(k) ==>
      changed[i] == elements[i].(url := Some(url))
    ensures forall i :: 0 <= i < |elements| && elements[i].key != Some(k) ==> changed[i] == elements[i]
  {
    seq(|elements|, i requires 0 <= i < |elements| =>
      if elements[i].key == Some(k) then elements[i].(url := Some(url)) else elements[i])
  }

  /** Changing the privacy URL with a transform changes only the privacy item, which links to the new URL. */
  lemma ReplacePrivacyUrl(translated: Option<Titles>, year: int, url: string)
    requires url != ""
    ensures var custom := FooterProps(Some(Transform(es => WithUrl(es, Privacy, url))), translated);
      var plain := FooterProps(None, translated);
      var items := Render(custom, year);
      && |items| == 6
      && items[2].content == Link(url, "_blank", "noreferrer", Defaults(translated, year)[2].title)
      && forall i :: 0 <= i < 6 && i != 2 ==> items[i] == Render(plain, year)[i]
  {
    var d := Defaults(translated, year);
    var custom := FooterProps(Some(Transform(es => WithUrl(es, Privacy, url))), translated);
    var plain := FooterProps(None, translated);
    var changed := WithUrl(d, Privacy, url);
    assert Elements(custom, year) == changed;
    assert Elements(plain, year) == d;
    assert d[2].key == Some(Privacy);
    assert forall i :: 0 <= i < 6 && i != 2 ==> d[i].key != Some(Privacy);
    assert changed[2] == d[2].(url := Some(url));
    assert forall i :: 0 <= i < 6 && i != 2 ==> changed[i] == d[i];
    assert Render(custom, year) == RenderElements(changed);
    assert Render(plain, year) == RenderElements(d);
  }

  /** The number of items preceded by a separator. */
  function SeparatorCount(items: seq<Item>): nat {
    if |items| == 0 then 0
    else SeparatorCount(items[..|items| - 1]) + (if items[|items| - 1].separator then 1 else 0)
  }

  /** When exactly the items after the first carry a separator, there is one separator fewer than items. */
  lemma {:induction false} SeparatorsBetween(items: seq<Item>)
    requires forall i :: 0 <= i < |items| ==> (items[i].separator <==> i > 0)
    ensures SeparatorCount(items) == if |items| == 0 then 0 else |items| - 1
  {
    if |items| > 0 {
      var front := items[..|items| - 1];
      assert forall i :: 0 <= i < |front| ==> front[i] == items[i];
      SeparatorsBetween(front);
    }
  }

  /** A list of n >= 1 elements renders n - 1 separators, an empty list none. */
  lemma RenderedSeparators(elements: seq<FooterElement>)
    ensures SeparatorCount(RenderElements(elements)) == if |elements| == 0 then 0 else |elements| - 1
  {
    SeparatorsBetween(RenderElements(elements));
  }

  /** With no customisation exactly the first item, the copyright line, is plain text; the rest are links. */
  lemma DefaultsRenderOnePlainText(props: FooterProps, year: int)
    requires props.customElements.None?
    ensures var items := Render(props, year);
      && |items| == 6
      && items[0].content == Text(Defaults(props.translatedTitles, year)[0].title)
      && forall i :: 0 <= i < |items| ==> (items[i].content.Text? <==> i == 0)
  {
  }

  /** The part of a string after its last dash (all of it when there is none). */
  function AfterLastDash(s: string): string {
    if |s| == 0 then ""
    else if s[|s| - 1] == '-' then ""
    else AfterLastDash(s[..|s| - 1]) + [s[|s| - 1]]
  }

  /** A dash-free suffix is recovered from `a + "-" + x`, whatever `a` holds. */
  lemma {:induction false} AfterLastDashOfKey(a: string, x: string)
    requires '-' !in x
    ensures AfterLastDash(a + "-" + x) == x
  {
    var s := a + "-" + x;
    if |x| > 0 {
      var front := x[..|x| - 1];
      assert s[..|s| - 1] == a + "-" + front;
      assert forall c :: c in front ==> c in x;
      AfterLastDashOfKey(a, front);
      assert x == front + [x[|x| - 1]];
    }
  }

  /** Two strings ending in a dash and a dash-free suffix are equal only if the suffixes and prefixes are. */
  lemma DashSuffixDetermined(a: string, x: string, b: string, y: string)
    requires '-' !in x && '-' !in y
    requires a + "-" + x == b + "-" + y
    ensures x == y && a == b
  {
    AfterLastDashOfKey(a, x);
    AfterLastDashOfKey(b, y);
    var s := a + "-" + x;
    assert a == s[..|a|] == b;
  }

  /** The index an item key carries: the digits after its last dash, read back as a number. */
  function KeyIndex(key: string): Option<nat> {
    var digits := AfterLastDash(key);
    if |digits| > 0 && Decimal.AllDigits(digits) then Some(Decimal.DecimalValue(digits)) else None
  }

  /** An item's index is read back from its key, whatever dashes or digits the title holds. */
  lemma KeyIndexRoundTrip(title: string, index: nat)
    ensures KeyIndex(ItemKey(title, index)) == Some(index)
  {
    var key := ItemKey(title, index);
    var digits := key[|title| + 1..];
    assert key == title + "-" + digits;
    AfterLastDashOfKey(title, digits);
  }

  /**
    Items at distinct positions get distinct keys, whatever their titles:
    this follows from the contract of `ItemKey`, whose digits after the
    title and the dash read back as the index.
   */
  lemma ItemKeysDistinct(elements: seq<FooterElement>, i: nat, j: nat)
    requires i < |elements| && j < |elements| && i != j
    ensures RenderElements(elements)[i].key != RenderElements(elements)[j].key
  {
  }
}
