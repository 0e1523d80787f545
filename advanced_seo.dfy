/** The front-page meta description of the advanced SEO module: which site
    option holds it, how it is read back, and how an update writes it and retires
    the option used before the feature required a plan. The site's options are a
    map from option name to stored string; WordPress's `update_option` and
    `delete_option` are given the contract the module relies on:
    - `update_option` stores the value under the name and reports whether the
      stored value changed (a missing option is added, which counts as a change);
    - `delete_option` removes the name. */
module AdvancedSeo {
  import opened Common

  /** The option the description is stored under. */
  const FrontPageMetaOption: string := "advanced_seo_front_page_description"

  /** The option used while the description was available without a plan. */
  const GrandfatheredMetaOption: string := "seo_meta_description"

  /** The maximum length in characters when no filter changes it. */
  const DefaultMaxLength: int := 300

  /** What the module asks of its environment: whether it runs on WordPress.com
      (`IS_WPCOM`), and whether the blog has the 'unlimited-premium-themes'
      sticker there. */
  datatype SeoSite = SeoSite(isWpcom: bool, hasPremiumThemesSticker: bool)

  /** `is_enabled_advanced_seo`. */
  predicate IsEnabledAdvancedSeo(site: SeoSite) {
    !site.isWpcom || site.hasPremiumThemesSticker
  }

  /** Outside WordPress.com the features are always on; on it, exactly for
      blogs with the sticker. */
  lemma EnabledExactly(site: SeoSite)
    ensures !site.isWpcom ==> IsEnabledAdvancedSeo(site)
    ensures site.isWpcom ==> (IsEnabledAdvancedSeo(site) <==> site.hasPremiumThemesSticker)
  {
  }

  /** `get_option(name)`: nothing for a missing option. */
  function GetOption(options: map<string, string>, name: string): (r: Option<string>)
    ensures r.Some? <==> name in options
    ensures r.Some? ==> r.value == options[name]
  {
    if name in options then Some(options[name]) else None
  }

  /** `get_option(name, default)`. */
  function GetOptionOr(options: map<string, string>, name: string, default: string): (r: string)
    ensures name in options ==> r == options[name]
    ensures name !in options ==> r == default
  {
    match GetOption(options, name)
    case Some(v) => v
    case None => default
  }

  /** PHP truthiness of an option read: a missing option (`false`), the empty
      string and "0" are false. `! empty(...)` is the same test. */
  predicate Truthy(v: Option<string>) {
    v.Some? && v.value != "" && v.value != "0"
  }

  /** `has_grandfathered_front_page_meta`. */
  predicate HasGrandfatheredFrontPageMeta(site: SeoSite, options: map<string, string>) {
    !IsEnabledAdvancedSeo(site) && Truthy(GetOption(options, GrandfatheredMetaOption))
  }

  /** Grandfathering applies only where the features are off, and there exactly
      when the old option holds a truthy value. In particular it never applies
      outside WordPress.com. */
  lemma GrandfatheredExactly(site: SeoSite, options: map<string, string>)
    ensures HasGrandfatheredFrontPageMeta(site, options) ==>
      && !IsEnabledAdvancedSeo(site)
      && GrandfatheredMetaOption in options
      && options[GrandfatheredMetaOption] != ""
      && options[GrandfatheredMetaOption] != "0"
    ensures !IsEnabledAdvancedSeo(site) && Truthy(GetOption(options, GrandfatheredMetaOption)) ==>
      HasGrandfatheredFrontPageMeta(site, options)
    ensures !site.isWpcom ==> !HasGrandfatheredFrontPageMeta(site, options)
  {
  }

  /** `get_front_page_meta_description`. */
  function GetFrontPageMetaDescription(site: SeoSite, options: map<string, string>): (r: string)
    ensures IsEnabledAdvancedSeo(site) && Truthy(GetOption(options, FrontPageMetaOption)) ==>
      r == options[FrontPageMetaOption]
    ensures (!IsEnabledAdvancedSeo(site) || !Truthy(GetOption(options, FrontPageMetaOption))) ==>
      r == GetOptionOr(options, GrandfatheredMetaOption, "")
  {
    if IsEnabledAdvancedSeo(site) then
      var frontPageMeta := GetOption(options, FrontPageMetaOption);
      if Truthy(frontPageMeta) then frontPageMeta.value else GetOptionOr(options, GrandfatheredMetaOption, "")
    else
      GetOptionOr(options, GrandfatheredMetaOption, "")
  }

  /** `mb_substr(s, 0, length)` on a string of characters: the first `length`
      characters, or, for a negative length, all but the last `-length`. */
  function Truncate(s: string, length: int): (r: string)
    ensures r <= s
    ensures length >= 0 ==> |r| == if length < |s| then length else |s|
    ensures length < 0 ==> |r| == if -length < |s| then |s| + length else 0
  {
    if length >= 0 then
      if length < |s| then s[..length] else s
    else
      if -length < |s| then s[..|s| + length] else ""
  }

  /** The option an update writes: the old one while grandfathered, the new one otherwise. */
  function TargetOption(site: SeoSite, options: map<string, string>): string {
    if HasGrandfatheredFrontPageMeta(site, options) then GrandfatheredMetaOption else FrontPageMetaOption
  }

  /** The description an update stores: sanitised, then cut to the maximum length. */
  function StoredDescription(sanitize: string -> string, maxLength: int, value: string): string {
    Truncate(sanitize(value), maxLength)
  }

  /** Whether `update_option(name, value)` changes anything. */
  predicate Changes(options: map<string, string>, name: string, value: string) {
    !(name in options && options[name] == value)
  }

  /** The options after an update and the value the update returns. */
  datatype UpdateResult = UpdateResult(options: map<string, string>, saved: string)

  /** `update_front_page_meta_description` on the options `options`, with
      `sanitize` for `sanitize_text_field` and `maxLength` for the filtered
      maximum length:
      - the target option holds the stored description afterwards;
      - the old option survives, unchanged, unless the update changed something,
        the old option was truthy before the call and the features are on, in
        which case it is deleted;
      - every other option is untouched;
      - the result is the stored description when the update changed
        something, and '' otherwise. */
  function FrontPageUpdate(site: SeoSite, options: map<string, string>, sanitize: string -> string, maxLength: int, value: string)
    : (r: UpdateResult)
    ensures var d := StoredDescription(sanitize, maxLength, value);
            var target := TargetOption(site, options);
            var didUpdate := Changes(options, target, d);
            && target in r.options && r.options[target] == d
            && (GrandfatheredMetaOption !in r.options <==>
                  (didUpdate && Truthy(GetOption(options, GrandfatheredMetaOption)) && IsEnabledAdvancedSeo(site))
                  || (GrandfatheredMetaOption !in options && target != GrandfatheredMetaOption))
            && (target != GrandfatheredMetaOption && GrandfatheredMetaOption in r.options ==>
                  GrandfatheredMetaOption in options && r.options[GrandfatheredMetaOption] == options[GrandfatheredMetaOption])
            && (target != FrontPageMetaOption ==>
                  (FrontPageMetaOption in r.options <==> FrontPageMetaOption in options)
                  && (FrontPageMetaOption in options ==> r.options[FrontPageMetaOption] == options[FrontPageMetaOption]))
            && (forall k :: k != FrontPageMetaOption && k != GrandfatheredMetaOption ==>
                  (k in r.options <==> k in options) && (k in options ==> r.options[k] == options[k]))
            && (didUpdate ==> r.saved == d)
            && (!didUpdate ==> r.saved == "" && r.options == options)
  {
    var description := StoredDescription(sanitize, maxLength, value);
    var canSetMeta := IsEnabledAdvancedSeo(site);
    var hasOldMeta := Truthy(GetOption(options, GrandfatheredMetaOption));
    var optionName := TargetOption(site, options);
    var didUpdate := Changes(options, optionName, description);
    var written := options[optionName := description];
    var after := if didUpdate && hasOldMeta && canSetMeta then written - {GrandfatheredMetaOption} else written;
    UpdateResult(after, if didUpdate then description else "")
  }

  /** The stored description never exceeds a non-negative maximum length: 300
      characters unless a filter changes it. */
  lemma StoredWithinLength(site: SeoSite, options: map<string, string>, sanitize: string -> string, maxLength: int, value: string)
    requires maxLength >= 0
    ensures var r := FrontPageUpdate(site, options, sanitize, maxLength, value);
            var target := TargetOption(site, options);
            |r.options[target]| <= maxLength && r.options[target] <= sanitize(value)
  {
  }

  /** A grandfathered site writes the old option and keeps it: the deletion
      needs the features to be on, and grandfathering needs them off. */
  lemma GrandfatheredWriteKept(site: SeoSite, options: map<string, string>, sanitize: string -> string, maxLength: int, value: string)
    requires HasGrandfatheredFrontPageMeta(site, options)
    ensures var r := FrontPageUpdate(site, options, sanitize, maxLength, value);
            && GrandfatheredMetaOption in r.options
            && r.options[GrandfatheredMetaOption] == StoredDescription(sanitize, maxLength, value)
            && (FrontPageMetaOption in r.options <==> FrontPageMetaOption in options)
            && (FrontPageMetaOption in options ==> r.options[FrontPageMetaOption] == options[FrontPageMetaOption])
  {
    assert TargetOption(site, options) == GrandfatheredMetaOption;
  }

  /** What the getter reads after an update:
      - a grandfathered site reads the stored description back;
      - a site with the features on reads it back when it is truthy;
      - a site with the features off and no grandfathered value reads what it
        read before: the new option it wrote is not shown. */
  lemma {:induction false} UpdateThenGet(site: SeoSite, options: map<string, string>, sanitize: string -> string, maxLength: int, value: string)
    ensures var r := FrontPageUpdate(site, options, sanitize, maxLength, value);
            var d := StoredDescription(sanitize, maxLength, value);
            && (HasGrandfatheredFrontPageMeta(site, options) ==> GetFrontPageMetaDescription(site, r.options) == d)
            && (IsEnabledAdvancedSeo(site) && Truthy(Some(d)) ==> GetFrontPageMetaDescription(site, r.options) == d)
            && (!IsEnabledAdvancedSeo(site) && !HasGrandfatheredFrontPageMeta(site, options) ==>
                  GetFrontPageMetaDescription(site, r.options) == GetFrontPageMetaDescription(site, options))
  {
    var r := FrontPageUpdate(site, options, sanitize, maxLength, value);
    var d := StoredDescription(sanitize, maxLength, value);
    if IsEnabledAdvancedSeo(site) {
      assert TargetOption(site, options) == FrontPageMetaOption;
      assert GetOption(r.options, FrontPageMetaOption) == Some(d);
    } else if !HasGrandfatheredFrontPageMeta(site, options) {
      assert TargetOption(site, options) == FrontPageMetaOption;
      assert GetOptionOr(r.options, GrandfatheredMetaOption, "") == GetOptionOr(options, GrandfatheredMetaOption, "");
    }
  }

  /** A repeated update with the same value changes nothing and returns '',
      except on a grandfathered site that stores a falsy description ('' or
      "0"): that write ends the grandfathering, so the second call writes the
      new option instead. */
  lemma {:induction false} UpdateTwice(site: SeoSite, options: map<string, string>, sanitize: string -> string, maxLength: int, value: string)
    requires HasGrandfatheredFrontPageMeta(site, options) ==> Truthy(Some(StoredDescription(sanitize, maxLength, value)))
    ensures var r1 := FrontPageUpdate(site, options, sanitize, maxLength, value);
            var r2 := FrontPageUpdate(site, r1.options, sanitize, maxLength, value);
            r2.options == r1.options && r2.saved == ""
  {
    var r1 := FrontPageUpdate(site, options, sanitize, maxLength, value);
    if HasGrandfatheredFrontPageMeta(site, options) {
      GrandfatheredWriteKept(site, options, sanitize, maxLength, value);
      assert HasGrandfatheredFrontPageMeta(site, r1.options);
    } else {
      assert TargetOption(site, options) == FrontPageMetaOption;
      assert !HasGrandfatheredFrontPageMeta(site, r1.options) by {
        if !IsEnabledAdvancedSeo(site) {
          assert GetOption(r1.options, GrandfatheredMetaOption) == GetOption(options, GrandfatheredMetaOption);
        }
      }
    }
  }

  /** The exception: on a grandfathered site without the new option, clearing
      the description twice writes the new option the second time. */
  lemma ClearTwiceWritesNewOption()
    ensures var site := SeoSite(true, false);
            var options := map[GrandfatheredMetaOption := "old"];
            var r1 := FrontPageUpdate(site, options, s => s, DefaultMaxLength, "");
            var r2 := FrontPageUpdate(site, r1.options, s => s, DefaultMaxLength, "");
            FrontPageMetaOption !in r1.options && FrontPageMetaOption in r2.options
  {
    var site := SeoSite(true, false);
    var options := map[GrandfatheredMetaOption := "old"];
    assert HasGrandfatheredFrontPageMeta(site, options);
    var r1 := FrontPageUpdate(site, options, s => s, DefaultMaxLength, "");
    assert r1.options == map[GrandfatheredMetaOption := ""];
    assert !HasGrandfatheredFrontPageMeta(site, r1.options);
  }

  /** The site's options, updated in place. */
  class OptionStore {
    var values: map<string, string>

    constructor (values: map<string, string>)
      ensures this.values == values
    {
      this.values := values;
    }

    /** `update_option`: store `value` under `name`; false when it was already stored. */
    method UpdateOption(name: string, value: string) returns (updated: bool)
      modifies this
      ensures updated == Changes(old(values), name, value)
      ensures values == old(values)[name := value]
    {
      updated := Changes(values, name, value);
      values := values[name := value];
    }

    /** `delete_option`. */
    method DeleteOption(name: string)
      modifies this
      ensures values == old(values) - {name}
    {
      values := values - {name};
    }
  }

  /** `update_front_page_meta_description` on a store, step by step: it leaves
      the store as `FrontPageUpdate` describes and returns its saved value. */
  method UpdateFrontPageMetaDescription(site: SeoSite, store: OptionStore, sanitize: string -> string, maxLength: int, value: string)
    returns (saved: string)
    modifies store
    ensures var r := FrontPageUpdate(site, old(store.values), sanitize, maxLength, value);
            store.values == r.options && saved == r.saved
  {
    var frontPageDescription := sanitize(value);
    frontPageDescription := Truncate(frontPageDescription, maxLength);
    var canSetMeta := IsEnabledAdvancedSeo(site);
    var hasOldMeta := Truthy(GetOption(store.values, GrandfatheredMetaOption));
    var optionName := if HasGrandfatheredFrontPageMeta(site, store.values) then GrandfatheredMetaOption else FrontPageMetaOption;
    var didUpdate := store.UpdateOption(optionName, frontPageDescription);
    if didUpdate && hasOldMeta && canSetMeta {
      store.DeleteOption(GrandfatheredMetaOption);
    }
    if didUpdate {
      saved := frontPageDescription;
    } else {
      saved := "";
    }
  }
}
