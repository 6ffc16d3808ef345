/** The original generation of the plugin, class ScriptlessSocialSharing:
    six fixed networks, URL text with spaces turned into plus signs, and the
    buttons appended to the post content. */
module SharingOriginal {
  import opened Php
  import opened PhpStrings
  import opened WordPress

  /** What WordPress reports about the current post, and the values the
      plugin's filters return for its translatable defaults. */
  datatype Context = Context(
    isSingularPost: bool,      // is_singular( 'post' )
    title: string,             // the_title_attribute()
    permalink: string,         // get_the_permalink()
    home: string,              // home_url()
    imageUrl: Option<string>,  // featured_image(): None without a post thumbnail
    hasExcerpt: bool,          // has_excerpt()
    excerpt: string,           // get_the_excerpt()
    twitterHandle: string,     // 'scriptlesssocialsharing_twitter_handle' applied to ''
    headingText: string,       // 'scriptlesssocialsharing_heading' applied to 'Share this post:'
    emailSubjectText: string,  // 'scriptlesssocialsharing_email_subject' applied to 'A post worth sharing:'
    emailBodyText: string)     // 'scriptlesssocialsharing_email_body' applied to the default body

  /** One button: network name, title and share URL. */
  datatype Button = Button(name: string, title: string, url: string)

  /** The strings the share URLs are built from. */
  datatype Attributes = Attributes(
    title: string,
    permalink: string,
    twitter: string,
    home: string,
    image: string,
    description: string)

  /** description(): nothing without an excerpt, otherwise the excerpt made
      fit for a URL. */
  function Description(ctx: Context): (d: Option<string>)
    ensures !ctx.hasExcerpt ==> d == None
    ensures ctx.hasExcerpt ==> d.Some? && ' ' !in d.value && PlusForSpace(ctx.excerpt, d.value)
  {
    if !ctx.hasExcerpt then None
    else
      ReplaceHasNoSpace(ctx.excerpt);
      Some(Replace(ctx.excerpt))
  }

  /** email_subject(): the filtered subject, made fit for a URL. */
  function EmailSubject(ctx: Context): (r: string)
    ensures ' ' !in r && PlusForSpace(ctx.emailSubjectText, r)
  {
    ReplaceHasNoSpace(ctx.emailSubjectText);
    Replace(ctx.emailSubjectText)
  }

  /** email_body(): the filtered body, made fit for a URL. */
  function EmailBody(ctx: Context): (r: string)
    ensures ' ' !in r && PlusForSpace(ctx.emailBodyText, r)
  {
    ReplaceHasNoSpace(ctx.emailBodyText);
    Replace(ctx.emailBodyText)
  }

  const HeadingOpen := "<h3>"
  const HeadingClose := "</h3>"

  /** heading(): the filtered heading in an h3, whatever it is. There is no
      empty-heading case: the h3 tags are there even around "". */
  function Heading(ctx: Context): (h: string)
    ensures |h| == |HeadingOpen| + |ctx.headingText| + |HeadingClose|
    ensures h[..|HeadingOpen|] == HeadingOpen
    ensures h[|HeadingOpen|..|h| - |HeadingClose|] == ctx.headingText
    ensures h[|h| - |HeadingClose|..] == HeadingClose
  {
    PrefixAndSuffix(HeadingOpen, ctx.headingText, HeadingClose);
    var h := HeadingOpen + ctx.headingText + HeadingClose;
    assert h == HeadingOpen + (ctx.headingText + HeadingClose);
    assert h[|HeadingOpen|..] == ctx.headingText + HeadingClose;
    h
  }

  /** Whether the post has an image URL PHP would take as true. */
  predicate HasImage(ctx: Context) {
    ctx.imageUrl.Some? && TruthyString(ctx.imageUrl.value)
  }

  /** Whether description() gives a value PHP would take as true. */
  predicate HasDescription(ctx: Context) {
    ctx.hasExcerpt && TruthyString(ctx.excerpt)
  }

  /** attributes(): a title without spaces, and optional fragments present
      exactly when their source is truthy. */
  function AttributesOf(ctx: Context): (a: Attributes)
    ensures ' ' !in a.title && PlusForSpace(ctx.title, a.title)
    ensures a.permalink == ctx.permalink && a.home == ctx.home
    ensures a.twitter == "" <==> !TruthyString(ctx.twitterHandle)
    ensures a.twitter != "" ==> a.twitter == "&via=" + ctx.twitterHandle
    ensures a.image == "" <==> !HasImage(ctx)
    ensures a.image != "" ==> a.image == "&media=" + ctx.imageUrl.value
    ensures a.description == "" <==> !HasDescription(ctx)
    ensures a.description != "" ==> a.description == "&summary=" + Description(ctx).value
  {
    ReplaceHasNoSpace(ctx.title);
    var description := Description(ctx);
    if ctx.hasExcerpt then ReplaceKeepsTruthiness(ctx.excerpt); AttributesFrom(ctx, description)
    else AttributesFrom(ctx, description)
  }

  /** The attributes array, given the value description() returned. */
  function AttributesFrom(ctx: Context, description: Option<string>): Attributes {
    Attributes(
      Replace(ctx.title),
      ctx.permalink,
      if TruthyString(ctx.twitterHandle) then "&via=" + ctx.twitterHandle else "",
      ctx.home,
      if HasImage(ctx) then "&media=" + ctx.imageUrl.value else "",
      if description.Some? && TruthyString(description.value) then "&summary=" + description.value else "")
  }

  /** The share URL of each network, as the sprintf templates of
      make_buttons write them. */
  function TwitterUrl(a: Attributes): string {
    "https://twitter.com/intent/tweet?text=" + a.title + "&url=" + a.permalink + a.twitter
  }

  const FacebookPrefix := "http://www.facebook.com/sharer/sharer.php?u="
  const GooglePrefix := "https://plus.google.com/share?url="

  function FacebookUrl(a: Attributes): string {
    FacebookPrefix + a.permalink
  }

  function GoogleUrl(a: Attributes): string {
    GooglePrefix + a.permalink
  }

  function PinterestUrl(a: Attributes): string {
    "http://pinterest.com/pin/create/button/?url=" + a.permalink + "&description=" + a.title + a.image
  }

  function LinkedinUrl(a: Attributes, san: Sanitizers): string {
    "http://www.linkedin.com/shareArticle?mini=true&url=" + a.permalink + "&title=" + a.title
      + san.stripTags(a.description) + "&source=" + a.home
  }

  function EmailUrl(ctx: Context, a: Attributes): string {
    "mailto:?body=" + EmailBody(ctx) + "+" + a.permalink + "&subject=" + EmailSubject(ctx) + "+" + a.title
  }

  const Networks: seq<string> := ["twitter", "facebook", "google", "pinterest", "linkedin", "email"]

  /** make_buttons() before its filter: the six networks of this version,
      in this order, each entry named after its key, so the array is never
      empty. */
  function MakeButtons(ctx: Context, san: Sanitizers): (b: seq<(string, Button)>)
    ensures Keys(b) == Networks
    ensures UniqueKeys(b)
    ensures forall i :: 0 <= i < |b| ==> b[i].1.name == b[i].0
  {
    ButtonsFrom(ctx, AttributesOf(ctx), san)
  }

  /** The array literal of make_buttons, given the attributes: one entry per
      network, keyed by the network's name. */
  function ButtonsFrom(ctx: Context, a: Attributes, san: Sanitizers): (b: seq<(string, Button)>)
    ensures Keys(b) == Networks
    ensures UniqueKeys(b)
    ensures forall i :: 0 <= i < |b| ==> b[i].1.name == b[i].0
  {
    var b := [ ("twitter", Button("twitter", "Twitter", TwitterUrl(a))),
               ("facebook", Button("facebook", "Facebook", FacebookUrl(a))),
               ("google", Button("google", "Google+", GoogleUrl(a))),
               ("pinterest", Button("pinterest", "Pinterest", PinterestUrl(a))),
               ("linkedin", Button("linkedin", "Linkedin", LinkedinUrl(a, san))),
               ("email", Button("email", "Email", EmailUrl(ctx, a))) ];
    var ks := Keys(b);
    assert ks[0] == "twitter" && ks[1] == "facebook" && ks[2] == "google";
    assert ks[3] == "pinterest" && ks[4] == "linkedin" && ks[5] == "email";
    b
  }

  /** The facebook and google buttons share the bare permalink after a fixed
      prefix. */
  lemma MakeButtonsPermalinkUrls(ctx: Context, san: Sanitizers)
    ensures Lookup(MakeButtons(ctx, san), "facebook") == Some(Button("facebook", "Facebook", FacebookPrefix + ctx.permalink))
    ensures Lookup(MakeButtons(ctx, san), "google") == Some(Button("google", "Google+", GooglePrefix + ctx.permalink))
  {
    ButtonsFromLookup(ctx, AttributesOf(ctx), san);
  }

  lemma ButtonsFromLookup(ctx: Context, a: Attributes, san: Sanitizers)
    ensures Lookup(ButtonsFrom(ctx, a, san), "facebook") == Some(Button("facebook", "Facebook", FacebookUrl(a)))
    ensures Lookup(ButtonsFrom(ctx, a, san), "google") == Some(Button("google", "Google+", GoogleUrl(a)))
  {
    var b := ButtonsFrom(ctx, a, san);
    assert b[0].0 == "twitter" && b[1].0 == "facebook" && b[2].0 == "google";
    assert b[1..][1..] == b[2..];
  }

  /** The pinterest URL carries an image only when the post has one. */
  lemma PinterestMedia(ctx: Context)
    ensures HasImage(ctx) ==>
              PinterestUrl(AttributesOf(ctx)) == "http://pinterest.com/pin/create/button/?url=" + ctx.permalink
                + "&description=" + Replace(ctx.title) + "&media=" + ctx.imageUrl.value
    ensures !HasImage(ctx) ==>
              PinterestUrl(AttributesOf(ctx)) == "http://pinterest.com/pin/create/button/?url=" + ctx.permalink
                + "&description=" + Replace(ctx.title)
  {
  }

  const AnchorOpen := "<a class=\"button "
  const AnchorClose := "</span></a>"

  /** One anchor, as the sprintf of do_buttons writes it: it opens with the
      escaped network name as a class and ends with the escaped title inside
      the closing tags. */
  function Anchor(b: Button, san: Sanitizers): (r: string)
    ensures |r| >= |AnchorOpen| + |san.escAttr(b.name)| + |san.escAttr(b.title)| + |AnchorClose|
    ensures r[..|AnchorOpen| + |san.escAttr(b.name)|] == AnchorOpen + san.escAttr(b.name)
    ensures r[|r| - |san.escAttr(b.title)| - |AnchorClose|..] == san.escAttr(b.title) + AnchorClose
  {
    var open := AnchorOpen + san.escAttr(b.name);
    var middle := "\" target=\"_blank\" href=\"" + san.escUrl(b.url) + "\"><span class=\"sss-name\">";
    var close := san.escAttr(b.title) + AnchorClose;
    PrefixAndSuffix(open, middle, close);
    open + middle + close
  }

  /** The anchor of an entry of the buttons array. */
  function AnchorOf(san: Sanitizers): ((string, Button)) -> string {
    (e: (string, Button)) => Anchor(e.1, san)
  }

  const ButtonsOpen := "<div class=\"scriptlesssocialsharing-buttons\">"
  const CloseDiv := "</div>"

  /** The markup do_buttons appends to the content. */
  function Rendered(ctx: Context, buttons: seq<(string, Button)>, san: Sanitizers): string {
    Heading(ctx) + ButtonsOpen + ConcatMap(buttons, AnchorOf(san)) + CloseDiv
  }

  /** do_buttons( $content ), given the buttons the
      'scriptlesssocialsharing_default_buttons' filter returned: the content
      as it is for anything but a singular post or when no button is left,
      otherwise the content followed by the buttons' markup. */
  method DoButtons(content: string, ctx: Context, buttons: seq<(string, Button)>, san: Sanitizers)
    returns (out: string)
    ensures !ctx.isSingularPost ==> out == content
    ensures buttons == [] ==> out == content
    ensures ctx.isSingularPost && buttons != [] ==> out == content + Rendered(ctx, buttons, san)
  {
    if !ctx.isSingularPost {
      return content;
    }
    if buttons == [] {
      return content;
    }
    var output := Heading(ctx);
    output := output + ButtonsOpen;
    ghost var start := output;
    var i := 0;
    while i < |buttons|
      invariant 0 <= i <= |buttons|
      invariant output == start + ConcatMap(buttons[..i], AnchorOf(san))
    {
      var anchor := Anchor(buttons[i].1, san);
      ConcatMapSnoc(buttons, i, AnchorOf(san));
      ConcatAssoc(start, ConcatMap(buttons[..i], AnchorOf(san)), anchor);
      output := output + anchor;
      i := i + 1;
    }
    assert buttons[..|buttons|] == buttons;
    output := output + CloseDiv;
    out := content + output;
  }

  /** The buttons never replace the content: it is a prefix of the result,
      followed by the heading and then the buttons' div. */
  lemma RenderedAfterContent(content: string, ctx: Context, buttons: seq<(string, Button)>, san: Sanitizers)
    ensures var out := content + Rendered(ctx, buttons, san);
            var h := Heading(ctx);
            && out[..|content|] == content
            && out[|content|..|content| + |h|] == h
            && out[|content| + |h|..|content| + |h| + |ButtonsOpen|] == ButtonsOpen
  {
    var h, anchors := Heading(ctx), ConcatMap(buttons, AnchorOf(san));
    var r := Rendered(ctx, buttons, san);
    assert r == h + ButtonsOpen + anchors + CloseDiv;
    ConcatAssoc(content, h + ButtonsOpen + anchors, CloseDiv);
    ConcatAssoc(content, h + ButtonsOpen, anchors);
    ConcatAssoc(content, h, ButtonsOpen);
    ConcatPieces(content, h, ButtonsOpen, anchors, CloseDiv);
  }

  /** Exactly one anchor per button, in the buttons' order. */
  lemma AnchorsInOrder(buttons: seq<(string, Button)>, san: Sanitizers, i: nat)
    requires i < |buttons|
    ensures ConcatMap(buttons, AnchorOf(san))
         == ConcatMap(buttons[..i], AnchorOf(san)) + Anchor(buttons[i].1, san) + ConcatMap(buttons[i + 1..], AnchorOf(san))
  {
    ConcatMapInOrder(buttons, AnchorOf(san), i);
  }

  /** With the filter left as the identity, the array is never empty, and
      the markup appended to a singular post holds the six default anchors,
      twitter to email, in that order. */
  lemma {:induction false} DefaultButtonsAppended(ctx: Context, san: Sanitizers)
    ensures MakeButtons(ctx, san) != []
    ensures var a := AttributesOf(ctx);
            Rendered(ctx, MakeButtons(ctx, san), san)
            == Heading(ctx) + ButtonsOpen
               + (Anchor(Button("twitter", "Twitter", TwitterUrl(a)), san)
                  + Anchor(Button("facebook", "Facebook", FacebookUrl(a)), san)
                  + Anchor(Button("google", "Google+", GoogleUrl(a)), san)
                  + Anchor(Button("pinterest", "Pinterest", PinterestUrl(a)), san)
                  + Anchor(Button("linkedin", "Linkedin", LinkedinUrl(a, san)), san)
                  + Anchor(Button("email", "Email", EmailUrl(ctx, a)), san))
               + CloseDiv
  {
    var a := AttributesOf(ctx);
    var b := ButtonsFrom(ctx, a, san);
    ConcatMapSix(b, AnchorOf(san));
    assert b[0].1 == Button("twitter", "Twitter", TwitterUrl(a));
    assert b[1].1 == Button("facebook", "Facebook", FacebookUrl(a));
    assert b[2].1 == Button("google", "Google+", GoogleUrl(a));
    assert b[3].1 == Button("pinterest", "Pinterest", PinterestUrl(a));
    assert b[4].1 == Button("linkedin", "Linkedin", LinkedinUrl(a, san));
    assert b[5].1 == Button("email", "Email", EmailUrl(ctx, a));
  }
}
