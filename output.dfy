/** The later generation of the buttons output, ScriptlessSocialSharingOutput
    (version 1.3.0): eligibility, the attributes and share URLs of each
    network, the filtering of disabled networks and the rendered markup. */
module SharingOutput {
  import opened Php
  import opened PhpStrings
  import opened WordPress

  /** The entries of the plugin setting that this class reads. */
  datatype Setting = Setting(
    postTypes: Value,       // 'post_types': post type => boolean or per-location array
    buttons: Value,         // 'buttons': network => enabled
    heading: string,        // 'heading'
    twitterHandle: string,  // 'twitter_handle'
    emailSubject: string)   // 'email_subject'

  /** What get_post_types hands to is_singular: the setting as it is, or a
      list with one name (or "") per post type. */
  datatype PostTypes = AsSetting(setting: Value) | List(names: seq<string>)

  /** What WordPress reports about the current request and post. */
  datatype Request = Request(
    isMainQuery: bool,               // is_main_query()
    isSingular: PostTypes -> bool,   // is_singular( $post_types )
    isFeed: bool,                    // is_feed()
    disableMeta: string,             // the '_scriptlesssocialsharing_disable' post meta
    yoastTwitterTitle: string,       // the '_yoast_wpseo_twitter-title' post meta
    title: string,                   // the_title_attribute(), after its filter
    permalink: string,               // get_the_permalink()
    home: string,                    // home_url()
    image: string,                   // featured_image(), "" when there is none
    hasExcerpt: bool,                // has_excerpt()
    excerpt: string,                 // get_the_excerpt()
    emailBody: string)               // the translated default e-mail body

  /** One button: network name, label and share URL. A key that gains a URL
      without having been listed by the settings class gets "" for name and
      label, which renders as PHP's null does. */
  datatype Button = Button(name: string, labelText: string, url: string)

  /** The strings the share URLs are built from. */
  datatype Attributes = Attributes(
    title: string,
    permalink: string,
    twitter: string,
    home: string,
    image: string,
    description: string,
    emailBody: string,
    emailSubject: string)

  // ---------------------------------------------------------------------
  // Post types and eligibility
  // ---------------------------------------------------------------------

  /** The list entry get_post_types writes for one setting entry: the post
      type's name when its value is truthy, "" otherwise. */
  function PostTypeName(entry: (string, Value)): (name: string)
    ensures Truthy(entry.1) ==> name == entry.0
    ensures !Truthy(entry.1) ==> name == ""
  {
    if Truthy(entry.1) then entry.0 else ""
  }

  /** The list get_post_types builds, in the setting's order. */
  function PostTypeNames(entries: seq<(string, Value)>): (names: seq<string>)
    ensures |names| == |entries|
    ensures forall i :: 0 <= i < |entries| ==> names[i] == PostTypeName(entries[i])
  {
    if entries == [] then [] else [PostTypeName(entries[0])] + PostTypeNames(entries[1..])
  }

  /** The value get_post_types returns (its filter taken as the identity). */
  function PostTypesOf(postTypes: Value): PostTypes {
    if Isset(postTypes, "post") then List(PostTypeNames(postTypes.entries)) else AsSetting(postTypes)
  }

  /** get_post_types: a list is built only when 'post' is set, with one
      entry per setting entry, in order. */
  method GetPostTypes(setting: Setting) returns (r: PostTypes)
    ensures !Isset(setting.postTypes, "post") ==> r == AsSetting(setting.postTypes)
    ensures Isset(setting.postTypes, "post") ==>
              && r.List?
              && |r.names| == |setting.postTypes.entries|
              && forall i :: 0 <= i < |r.names| ==> r.names[i] == PostTypeName(setting.postTypes.entries[i])
    ensures r == PostTypesOf(setting.postTypes)
  {
    var postTypes := setting.postTypes;
    r := AsSetting(postTypes);
    if Isset(postTypes, "post") {
      var entries := postTypes.entries;
      var names: seq<string> := [];
      var i := 0;
      while i < |entries|
        invariant 0 <= i <= |entries|
        invariant names == PostTypeNames(entries[..i])
      {
        assert entries[..i + 1] == entries[..i] + [entries[i]];
        PostTypeNamesAppend(entries[..i], entries[i]);
        names := names + [PostTypeName(entries[i])];
        i := i + 1;
      }
      assert entries[..i] == entries;
      r := List(names);
    }
  }

  lemma PostTypeNamesAppend(entries: seq<(string, Value)>, e: (string, Value))
    ensures PostTypeNames(entries + [e]) == PostTypeNames(entries) + [PostTypeName(e)]
  {
  }

  /** The conjunction can_do_buttons computes before its filter. */
  predicate Eligible(req: Request, setting: Setting, cando: bool) {
    && cando
    && req.isMainQuery
    && req.isSingular(PostTypesOf(setting.postTypes))
    && !req.isFeed
    && !TruthyString(req.disableMeta)
  }

  /** can_do_buttons: each failed condition forces false; otherwise the
      caller's default comes back. */
  method CanDoButtons(req: Request, setting: Setting, cando: bool := true) returns (r: bool)
    ensures !req.isMainQuery ==> !r
    ensures !req.isSingular(PostTypesOf(setting.postTypes)) ==> !r
    ensures req.isFeed ==> !r
    ensures TruthyString(req.disableMeta) ==> !r
    ensures (req.isMainQuery && req.isSingular(PostTypesOf(setting.postTypes))
             && !req.isFeed && !TruthyString(req.disableMeta)) ==> r == cando
    ensures r == Eligible(req, setting, cando)
  {
    r := cando;
    if !req.isMainQuery {
      r := false;
    }
    var postTypes := GetPostTypes(setting);
    var isDisabled := TruthyString(req.disableMeta);
    if !req.isSingular(postTypes) || req.isFeed || isDisabled {
      r := false;
    }
  }

  // ---------------------------------------------------------------------
  // Attributes and share URLs
  // ---------------------------------------------------------------------

  /** description( $description ): the excerpt when the post has one. */
  function Description(req: Request, default: string := ""): (d: string)
    ensures req.hasExcerpt ==> d == req.excerpt
    ensures !req.hasExcerpt ==> d == default
  {
    if req.hasExcerpt then req.excerpt else default
  }

  /** attributes(): the optional fragments are present exactly when their
      source is truthy. */
  function AttributesOf(req: Request, setting: Setting): (a: Attributes)
    ensures a.title == req.title && a.permalink == req.permalink && a.home == req.home
    ensures a.image == req.image && a.emailBody == req.emailBody
    ensures a.emailSubject == setting.emailSubject
    ensures a.twitter == "" <==> !TruthyString(setting.twitterHandle)
    ensures a.twitter != "" ==> a.twitter == "&via=" + setting.twitterHandle
    ensures a.description == "" <==> !TruthyString(Description(req, ""))
    ensures a.description != "" ==> a.description == "&summary=" + Description(req, "")
  {
    var twitter := setting.twitterHandle;
    var description := Description(req, "");
    Attributes(
      req.title,
      req.permalink,
      if TruthyString(twitter) then "&via=" + twitter else "",
      req.home,
      req.image,
      if TruthyString(description) then "&summary=" + description else "",
      req.emailBody,
      setting.emailSubject)
  }

  /** The tweet text: the Yoast twitter title when it is truthy, the post
      title otherwise. */
  function TweetText(req: Request, a: Attributes): (t: string)
    ensures TruthyString(req.yoastTwitterTitle) ==> t == req.yoastTwitterTitle
    ensures !TruthyString(req.yoastTwitterTitle) ==> t == a.title
  {
    if TruthyString(req.yoastTwitterTitle) then req.yoastTwitterTitle else a.title
  }

  /** The share URL of each network, as the sprintf templates of
      make_buttons write them. */
  function TwitterUrl(a: Attributes, tweetText: string): string {
    "https://twitter.com/intent/tweet?text=" + tweetText + "&url=" + a.permalink + a.twitter
  }

  function FacebookUrl(a: Attributes): string {
    "http://www.facebook.com/sharer/sharer.php?u=" + a.permalink
  }

  function GoogleUrl(a: Attributes): string {
    "https://plus.google.com/share?url=" + a.permalink
  }

  function PinterestUrl(a: Attributes, san: Sanitizers): string {
    "http://pinterest.com/pin/create/button/?url=" + a.permalink + "&description=" + a.title
      + "&media=" + san.escUrl(a.image)
  }

  function LinkedinUrl(a: Attributes, san: Sanitizers): string {
    "http://www.linkedin.com/shareArticle?mini=true&url=" + a.permalink + "&title=" + a.title
      + san.stripTags(a.description) + "&source=" + a.home
  }

  function EmailUrl(a: Attributes): string {
    "mailto:?body=" + a.emailBody + "+" + a.permalink + "&subject=" + a.emailSubject + "+" + a.title
  }

  function RedditUrl(a: Attributes): string {
    "https://www.reddit.com/submit?url=" + a.permalink
  }

  /** The seven share URLs make_buttons writes, in the order it writes them. */
  function ShareUrls(a: Attributes, tweetText: string, san: Sanitizers): seq<(string, string)> {
    [ ("twitter", TwitterUrl(a, tweetText)),
      ("facebook", FacebookUrl(a)),
      ("google", GoogleUrl(a)),
      ("pinterest", PinterestUrl(a, san)),
      ("linkedin", LinkedinUrl(a, san)),
      ("email", EmailUrl(a)),
      ("reddit", RedditUrl(a)) ]
  }

  /** `$buttons[$k]['url'] = $url`. */
  function SetUrl(m: seq<(string, Button)>, k: string, url: string): seq<(string, Button)> {
    if m == [] then [(k, Button("", "", url))]
    else if m[0].0 == k then [(k, m[0].1.(url := url))] + m[1..]
    else [m[0]] + SetUrl(m[1..], k, url)
  }

  /** The assignment gives key k the new URL, keeping the entry's other
      fields, or creates the entry when the key is missing. */
  lemma {:induction false} SetUrlSpec(m: seq<(string, Button)>, k: string, url: string)
    ensures Lookup(m, k).Some? ==> Lookup(SetUrl(m, k, url), k) == Some(Lookup(m, k).value.(url := url))
    ensures Lookup(m, k).None? ==> Lookup(SetUrl(m, k, url), k) == Some(Button("", "", url))
    decreases |m|
  {
    if m != [] && m[0].0 != k {
      SetUrlSpec(m[1..], k, url);
      assert SetUrl(m, k, url)[1..] == SetUrl(m[1..], k, url);
    }
  }

  /** An existing key keeps its place; a missing key is appended at the end. */
  lemma {:induction false} SetUrlKeys(m: seq<(string, Button)>, k: string, url: string)
    ensures Lookup(m, k).Some? ==> Keys(SetUrl(m, k, url)) == Keys(m)
    ensures Lookup(m, k).None? ==> Keys(SetUrl(m, k, url)) == Keys(m) + [k]
    decreases |m|
  {
    if m != [] {
      var r := SetUrl(m, k, url);
      assert Keys(m) == [m[0].0] + Keys(m[1..]);
      if m[0].0 != k {
        SetUrlKeys(m[1..], k, url);
        assert r[1..] == SetUrl(m[1..], k, url);
        assert Keys(r) == [m[0].0] + Keys(r[1..]);
      } else {
        assert r[1..] == m[1..];
        assert Keys(r) == [k] + Keys(r[1..]);
      }
    }
  }

  /** Every other key keeps its entry. */
  lemma {:induction false} SetUrlOther(m: seq<(string, Button)>, k: string, url: string, other: string)
    requires other != k
    ensures Lookup(SetUrl(m, k, url), other) == Lookup(m, other)
    decreases |m|
  {
    if m != [] {
      var r := SetUrl(m, k, url);
      if m[0].0 == k {
        assert r[1..] == m[1..];
      } else {
        SetUrlOther(m[1..], k, url, other);
        assert r[1..] == SetUrl(m[1..], k, url);
      }
    }
  }

  /** Setting a URL keeps the keys of a PHP array distinct. */
  lemma SetUrlUniqueKeys(m: seq<(string, Button)>, k: string, url: string)
    requires UniqueKeys(m)
    ensures UniqueKeys(SetUrl(m, k, url))
  {
    SetUrlKeys(m, k, url);
    var r := SetUrl(m, k, url);
    var ks, kr := Keys(m), Keys(r);
    forall i, j | 0 <= i < j < |r| ensures r[i].0 != r[j].0 {
      assert kr[i] == r[i].0 && kr[j] == r[j].0;
      if Lookup(m, k).None? && j == |m| {
        assert kr[j] == k && kr[i] == ks[i];
      } else {
        assert kr[i] == ks[i] && kr[j] == ks[j];
      }
    }
  }

  /** The URL assignments of make_buttons, one after the other. */
  function WithUrls(m: seq<(string, Button)>, urls: seq<(string, string)>): (r: seq<(string, Button)>)
    decreases |urls|
  {
    if urls == [] then m else WithUrls(SetUrl(m, urls[0].0, urls[0].1), urls[1..])
  }

  /** Seven assignments in a row are the fold over seven URLs. */
  lemma WithSevenUrls(m: seq<(string, Button)>, u: seq<(string, string)>)
    requires |u| == 7
    ensures WithUrls(m, u)
         == SetUrl(SetUrl(SetUrl(SetUrl(SetUrl(SetUrl(SetUrl(m, u[0].0, u[0].1), u[1].0, u[1].1),
              u[2].0, u[2].1), u[3].0, u[3].1), u[4].0, u[4].1), u[5].0, u[5].1), u[6].0, u[6].1)
  {
    var m1 := SetUrl(m, u[0].0, u[0].1);
    var m2 := SetUrl(m1, u[1].0, u[1].1);
    var m3 := SetUrl(m2, u[2].0, u[2].1);
    var m4 := SetUrl(m3, u[3].0, u[3].1);
    var m5 := SetUrl(m4, u[4].0, u[4].1);
    var m6 := SetUrl(m5, u[5].0, u[5].1);
    var m7 := SetUrl(m6, u[6].0, u[6].1);
    assert WithUrls(m6, u[6..]) == WithUrls(m7, []) == m7;
    assert WithUrls(m5, u[5..]) == WithUrls(m6, u[6..]);
    assert WithUrls(m4, u[4..]) == WithUrls(m5, u[5..]);
    assert WithUrls(m3, u[3..]) == WithUrls(m4, u[4..]);
    assert WithUrls(m2, u[2..]) == WithUrls(m3, u[3..]);
    assert WithUrls(m1, u[1..]) == WithUrls(m2, u[2..]);
    assert WithUrls(m, u) == WithUrls(m1, u[1..]);
  }

  /** After the assignments every listed network has its URL, and every
      other entry is as the settings class gave it. */
  lemma {:induction false} WithUrlsSpec(m: seq<(string, Button)>, urls: seq<(string, string)>)
    requires UniqueKeys(m) && UniqueKeys(urls)
    ensures UniqueKeys(WithUrls(m, urls))
    ensures forall i :: 0 <= i < |urls| ==>
              Lookup(WithUrls(m, urls), urls[i].0).Some?
              && Lookup(WithUrls(m, urls), urls[i].0).value.url == urls[i].1
    ensures forall k :: k !in Keys(urls) ==> Lookup(WithUrls(m, urls), k) == Lookup(m, k)
    decreases |urls|
  {
    if urls != [] {
      var m' := SetUrl(m, urls[0].0, urls[0].1);
      SetUrlUniqueKeys(m, urls[0].0, urls[0].1);
      SetUrlSpec(m, urls[0].0, urls[0].1);
      forall k' | k' != urls[0].0 ensures Lookup(m', k') == Lookup(m, k') {
        SetUrlOther(m, urls[0].0, urls[0].1, k');
      }
      var rest := urls[1..];
      assert UniqueKeys(rest);
      WithUrlsSpec(m', rest);
      assert Keys(urls) == [urls[0].0] + Keys(rest);
      assert urls[0].0 !in Keys(rest) by {
        forall i | 0 <= i < |rest| ensures Keys(rest)[i] != urls[0].0 {
          assert rest[i] == urls[i + 1];
        }
      }
      forall i | 0 <= i < |urls|
        ensures Lookup(WithUrls(m, urls), urls[i].0).Some?
        ensures Lookup(WithUrls(m, urls), urls[i].0).value.url == urls[i].1
      {
        if i > 0 {
          assert urls[i] == rest[i - 1];
        }
      }
    }
  }

  // ---------------------------------------------------------------------
  // Filtering
  // ---------------------------------------------------------------------

  /** The networks a 'buttons' setting switches off: every key whose value
      is falsy. */
  function DisabledKeys(entries: seq<(string, Value)>): set<string> {
    if entries == [] then {}
    else
      var last := entries[|entries| - 1];
      DisabledKeys(entries[..|entries| - 1]) + (if !Truthy(last.1) then {last.0} else {})
  }

  /** A key is disabled exactly when the setting gives it a falsy value. */
  lemma {:induction false} DisabledKeysSpec(entries: seq<(string, Value)>, k: string)
    ensures k in DisabledKeys(entries) <==> exists v :: (k, v) in entries && !Truthy(v)
    decreases |entries|
  {
    if entries != [] {
      var init, last := entries[..|entries| - 1], entries[|entries| - 1];
      assert entries == init + [last];
      DisabledKeysSpec(init, k);
      if k in DisabledKeys(entries) && k !in DisabledKeys(init) {
        assert (k, last.1) in entries;
      }
    }
  }

  /** One more entry disables its key when its value is falsy. */
  lemma DisabledKeysSnoc(entries: seq<(string, Value)>, i: nat)
    requires i < |entries|
    ensures DisabledKeys(entries[..i + 1])
         == DisabledKeys(entries[..i]) + (if !Truthy(entries[i].1) then {entries[i].0} else {})
  {
    assert entries[..i + 1][..i] == entries[..i];
  }

  /** The networks the 'buttons' setting removes: its disabled keys when it
      is a truthy array, none otherwise (foreach over anything else does
      nothing). */
  function SettingDisabled(setting: Setting): set<string> {
    if Truthy(setting.buttons) && setting.buttons.Arr? then DisabledKeys(setting.buttons.entries) else {}
  }

  /** The keys make_buttons unsets: the disabled networks, and pinterest
      when there is no image. */
  function RemovedKeys(setting: Setting, a: Attributes): set<string> {
    SettingDisabled(setting) + (if !TruthyString(a.image) then {"pinterest"} else {})
  }

  /** The array make_buttons returns (its filter taken as the identity). */
  function ButtonsOf(req: Request, setting: Setting, networks: seq<(string, Button)>, san: Sanitizers)
    : seq<(string, Button)>
  {
    var a := AttributesOf(req, setting);
    RemoveKeys(WithUrls(networks, ShareUrls(a, TweetText(req, a), san)), RemovedKeys(setting, a))
  }

  /** make_buttons: URLs first, then one unset per disabled network, then
      pinterest when there is no image. */
  method MakeButtons(req: Request, setting: Setting, networks: seq<(string, Button)>, san: Sanitizers)
    returns (buttons: seq<(string, Button)>)
    ensures buttons == ButtonsOf(req, setting, networks, san)
  {
    var a := AttributesOf(req, setting);
    var tweetText := TweetText(req, a);
    buttons := networks;
    buttons := SetUrl(buttons, "twitter", TwitterUrl(a, tweetText));
    buttons := SetUrl(buttons, "facebook", FacebookUrl(a));
    buttons := SetUrl(buttons, "google", GoogleUrl(a));
    buttons := SetUrl(buttons, "pinterest", PinterestUrl(a, san));
    buttons := SetUrl(buttons, "linkedin", LinkedinUrl(a, san));
    buttons := SetUrl(buttons, "email", EmailUrl(a));
    buttons := SetUrl(buttons, "reddit", RedditUrl(a));
    ghost var filled := buttons;
    WithSevenUrls(networks, ShareUrls(a, tweetText, san));

    ghost var disabled: set<string> := {};
    RemoveNoKeys(filled);
    if Truthy(setting.buttons) {
      // foreach over a value that is not an array does nothing
      var entries := if setting.buttons.Arr? then setting.buttons.entries else [];
      var i := 0;
      while i < |entries|
        invariant 0 <= i <= |entries|
        invariant disabled == DisabledKeys(entries[..i])
        invariant buttons == RemoveKeys(filled, disabled)
      {
        var (key, value) := entries[i];
        DisabledKeysSnoc(entries, i);
        if !Truthy(value) {
          RemoveKeysTwice(filled, disabled, {key});
          buttons := RemoveKeys(buttons, {key});
          disabled := disabled + {key};
        }
        i := i + 1;
      }
      assert entries[..|entries|] == entries;
    }
    assert disabled == SettingDisabled(setting);
    if !TruthyString(a.image) {
      RemoveKeysTwice(filled, disabled, {"pinterest"});
      buttons := RemoveKeys(buttons, {"pinterest"});
      disabled := disabled + {"pinterest"};
    }
    assert disabled == RemovedKeys(setting, a);
  }

  /** What make_buttons keeps: a key is present exactly when the settings
      class or the URL assignments put it there and it was not removed, its
      entry is the one after the URL assignments, and the kept entries stay
      in order. */
  lemma MakeButtonsFilter(req: Request, setting: Setting, networks: seq<(string, Button)>, san: Sanitizers, k: string)
    requires UniqueKeys(networks)
    ensures var a := AttributesOf(req, setting);
            var filled := WithUrls(networks, ShareUrls(a, TweetText(req, a), san));
            && Lookup(ButtonsOf(req, setting, networks, san), k)
               == (if k in RemovedKeys(setting, a) then None else Lookup(filled, k))
            && Subsequence(ButtonsOf(req, setting, networks, san), filled)
            && UniqueKeys(filled)
  {
    var a := AttributesOf(req, setting);
    var urls := ShareUrls(a, TweetText(req, a), san);
    var filled := WithUrls(networks, urls);
    assert UniqueKeys(urls);
    WithUrlsSpec(networks, urls);
    LookupRemoveKeys(filled, RemovedKeys(setting, a), k);
    RemoveKeysKeepsOrder(filled, RemovedKeys(setting, a));
  }

  /** A network whose setting value is falsy never survives, nor does
      pinterest without an image. */
  lemma MakeButtonsDropsDisabled(req: Request, setting: Setting, networks: seq<(string, Button)>, san: Sanitizers,
                                 k: string, v: Value)
    requires UniqueKeys(networks)
    requires (Truthy(setting.buttons) && setting.buttons.Arr? && (k, v) in setting.buttons.entries && !Truthy(v))
             || (k == "pinterest" && !TruthyString(req.image))
    ensures Lookup(ButtonsOf(req, setting, networks, san), k).None?
  {
    if setting.buttons.Arr? {
      DisabledKeysSpec(setting.buttons.entries, k);
    }
    MakeButtonsFilter(req, setting, networks, san, k);
  }

  /** Every one of the seven networks that is not removed is present with
      the URL make_buttons wrote for it. */
  lemma MakeButtonsUrls(req: Request, setting: Setting, networks: seq<(string, Button)>, san: Sanitizers, i: nat)
    requires UniqueKeys(networks)
    requires i < 7
    ensures var a := AttributesOf(req, setting);
            var (k, url) := ShareUrls(a, TweetText(req, a), san)[i];
            k !in RemovedKeys(setting, a) ==>
              && Lookup(ButtonsOf(req, setting, networks, san), k).Some?
              && Lookup(ButtonsOf(req, setting, networks, san), k).value.url == url
  {
    var a := AttributesOf(req, setting);
    var urls := ShareUrls(a, TweetText(req, a), san);
    assert UniqueKeys(urls);
    WithUrlsSpec(networks, urls);
    MakeButtonsFilter(req, setting, networks, san, urls[i].0);
  }

  // ---------------------------------------------------------------------
  // Rendering
  // ---------------------------------------------------------------------

  /** heading(): nothing for a falsy heading setting, an h3 otherwise. */
  function Heading(setting: Setting): (h: string)
    ensures h == "" <==> !TruthyString(setting.heading)
    ensures h != "" ==> h == "<h3>" + setting.heading + "</h3>"
  {
    if !TruthyString(setting.heading) then "" else "<h3>" + setting.heading + "</h3>"
  }

  /** The URL an anchor hands to esc_url: e-mail links as they are, every
      other link with its spaces turned into plus signs. */
  function Href(b: Button): string {
    if b.name == "email" then b.url else Replace(b.url)
  }

  lemma HrefSpec(b: Button)
    ensures b.name == "email" ==> Href(b) == b.url
    ensures b.name != "email" ==>
              && ' ' !in Href(b)
              && |Href(b)| == |b.url|
              && forall i :: 0 <= i < |b.url| && b.url[i] != ' ' ==> Href(b)[i] == b.url[i]
  {
    ReplaceHasNoSpace(b.url);
  }

  const PinAttributes := " data-pin-no-hover=\"true\" data-pin-custom=\"true\" data-pin-do=\"skip\""

  /** The extra attributes of an anchor: only pinterest gets any. */
  function DataPin(name: string): (d: string)
    ensures d != "" <==> name == "pinterest"
    ensures d != "" ==> d == PinAttributes
  {
    if name == "pinterest" then PinAttributes else ""
  }

  const AnchorOpen := "<a class=\"button "
  const AnchorClose := "</span></a>"

  /** One anchor, as the sprintf of do_buttons writes it: it opens with the
      escaped network name as a class and ends with the label, which this
      version does not escape, inside the closing tags. */
  function Anchor(b: Button, san: Sanitizers): (r: string)
    ensures |r| >= |AnchorOpen| + |san.escAttr(b.name)| + |b.labelText| + |AnchorClose|
    ensures r[..|AnchorOpen| + |san.escAttr(b.name)|] == AnchorOpen + san.escAttr(b.name)
    ensures r[|r| - |b.labelText| - |AnchorClose|..] == b.labelText + AnchorClose
  {
    var open := AnchorOpen + san.escAttr(b.name);
    var middle := "\" target=\"_blank\" href=\"" + san.escUrl(Href(b)) + "\"" + DataPin(b.name) + "><span class=\"sss-name\">";
    var close := b.labelText + AnchorClose;
    PrefixAndSuffix(open, middle, close);
    open + middle + close
  }

  /** The anchor of an entry of the buttons array. */
  function AnchorOf(san: Sanitizers): ((string, Button)) -> string {
    (e: (string, Button)) => Anchor(e.1, san)
  }

  /** The anchors of all buttons, in order. */
  function Anchors(buttons: seq<(string, Button)>, san: Sanitizers): string {
    ConcatMap(buttons, AnchorOf(san))
  }

  /** Exactly one anchor per button, in the buttons' order. */
  lemma AnchorsInOrder(buttons: seq<(string, Button)>, san: Sanitizers, i: nat)
    requires i < |buttons|
    ensures Anchors(buttons, san)
         == Anchors(buttons[..i], san) + Anchor(buttons[i].1, san) + Anchors(buttons[i + 1..], san)
  {
    ConcatMapInOrder(buttons, AnchorOf(san), i);
  }

  const WrapperOpen := "<div class=\"scriptlesssocialsharing\">"
  const ButtonsOpen := "<div class=\"scriptlesssocialsharing-buttons\">"
  const CloseDiv := "</div>"

  /** The markup do_buttons hands to wp_kses_post. */
  function Markup(heading: string, withHeading: bool, buttons: seq<(string, Button)>, san: Sanitizers): string {
    WrapperOpen + (if withHeading then heading else "") + ButtonsOpen + Anchors(buttons, san) + CloseDiv + CloseDiv
  }

  /** The markup opens the wrapper, carries the heading right after it only
      when asked to, then opens the buttons' div, and closes both divs at the
      end. */
  lemma MarkupShape(heading: string, withHeading: bool, buttons: seq<(string, Button)>, san: Sanitizers)
    ensures var m := Markup(heading, withHeading, buttons, san);
            var h := if withHeading then heading else "";
            && |m| >= |WrapperOpen| + |h| + |ButtonsOpen| + 2 * |CloseDiv|
            && m[..|WrapperOpen|] == WrapperOpen
            && m[|WrapperOpen|..|WrapperOpen| + |h|] == h
            && m[|WrapperOpen| + |h|..|WrapperOpen| + |h| + |ButtonsOpen|] == ButtonsOpen
            && m[|m| - 2 * |CloseDiv|..] == CloseDiv + CloseDiv
  {
    var h := if withHeading then heading else "";
    ConcatPieces(WrapperOpen, h, ButtonsOpen, Anchors(buttons, san), CloseDiv + CloseDiv);
    var m := Markup(heading, withHeading, buttons, san);
    assert m == WrapperOpen + h + ButtonsOpen + Anchors(buttons, san) + (CloseDiv + CloseDiv);
  }

  /** The markup do_buttons builds with `.=`: the wrapper, the heading when
      asked for, one anchor per button in order, and the closing tags. */
  method RenderMarkup(heading: string, withHeading: bool, buttons: seq<(string, Button)>, san: Sanitizers)
    returns (output: string)
    ensures output == Markup(heading, withHeading, buttons, san)
  {
    output := WrapperOpen;
    if withHeading {
      output := output + heading;
    }
    output := output + ButtonsOpen;
    ghost var start := output;
    var i := 0;
    while i < |buttons|
      invariant 0 <= i <= |buttons|
      invariant output == start + Anchors(buttons[..i], san)
    {
      var anchor := Anchor(buttons[i].1, san);
      ConcatMapSnoc(buttons, i, AnchorOf(san));
      ConcatAssoc(start, Anchors(buttons[..i], san), anchor);
      output := output + anchor;
      i := i + 1;
    }
    assert buttons[..|buttons|] == buttons;
    output := output + CloseDiv;
    output := output + CloseDiv;
  }

  /** do_buttons (its filters taken as the identity): nothing when the
      request is not eligible or no button is left, otherwise the markup of
      the buttons make_buttons keeps, sanitised by wp_kses_post after
      filter_allowed_html has been hooked onto 'wp_kses_allowed_html', so
      with the post allow-list extended by the pinterest attributes. */
  method DoButtons(req: Request, setting: Setting, networks: seq<(string, Button)>, san: Sanitizers, withHeading: bool := true)
    returns (out: string)
    ensures !Eligible(req, setting, true) ==> out == ""
    ensures Eligible(req, setting, true) && ButtonsOf(req, setting, networks, san) == [] ==> out == ""
    ensures Eligible(req, setting, true) && ButtonsOf(req, setting, networks, san) != [] ==>
              out == san.kses(FilterAllowedHtml(san.postTags, "post"),
                              Markup(Heading(setting), withHeading, ButtonsOf(req, setting, networks, san), san))
  {
    var cando := CanDoButtons(req, setting, true);
    if !cando {
      return "";
    }
    var buttons := MakeButtons(req, setting, networks, san);
    if buttons == [] {
      return "";
    }
    var output := RenderMarkup(Heading(setting), withHeading, buttons, san);
    var allowed := FilterAllowedHtml(san.postTags, "post");
    out := san.kses(allowed, output);
  }

  // ---------------------------------------------------------------------
  // Sanitiser allow-list
  // ---------------------------------------------------------------------

  const PinAttributeNames: set<string> := {"data-pin-custom", "data-pin-no-hover", "data-pin-do"}

  /** filter_allowed_html: in the 'post' context the anchor tag gains the
      three pinterest attributes; nothing else changes. */
  function FilterAllowedHtml(allowed: AllowedHtml, context: string): (r: AllowedHtml)
    ensures context != "post" ==> r == allowed
    ensures context == "post" ==>
              && r.Keys == allowed.Keys + {"a"}
              && (forall tag :: tag in allowed && tag != "a" ==> r[tag] == allowed[tag])
              && r["a"].Keys == (if "a" in allowed then allowed["a"].Keys else {}) + PinAttributeNames
              && (forall attr :: attr in PinAttributeNames ==> r["a"][attr])
              && (forall attr :: attr in r["a"] && attr !in PinAttributeNames ==> r["a"][attr] == allowed["a"][attr])
  {
    if context == "post" then
      var a := if "a" in allowed then allowed["a"] else map[];
      allowed["a" := a["data-pin-custom" := true]["data-pin-no-hover" := true]["data-pin-do" := true]]
    else
      allowed
  }
}
