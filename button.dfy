/** The abstract base of the per-network buttons,
    ScriptlessSocialSharingButton: the three values it is built from, the
    share URL assembled from two hooks of the concrete button, the
    percent-encoded permalink, and the post description. */
module SharingButton {
  import opened Php
  import opened PhpStrings

  /** A PHP string seen as the bytes rawurlencode works on. */
  type Bytes = seq<Byte>

  /** A button: its network name, the post attributes and the plugin
      setting. No method changes them after construction. */
  datatype Button = Button(buttonName: string, attributes: seq<(string, Bytes)>, setting: Value)

  /** The constructor: it stores the three values it is given. */
  function NewButton(buttonName: string, attributes: seq<(string, Bytes)>, setting: Value): (b: Button)
    ensures b.buttonName == buttonName && b.attributes == attributes && b.setting == setting
  {
    Button(buttonName, attributes, setting)
  }

  /** Nothing but the three values is set: two buttons built from different
      values differ, and equal values give the same button. */
  lemma NewButtonInjective(n1: string, a1: seq<(string, Bytes)>, s1: Value,
                           n2: string, a2: seq<(string, Bytes)>, s2: Value)
    ensures NewButton(n1, a1, s1) == NewButton(n2, a2, s2) <==> n1 == n2 && a1 == a2 && s1 == s2
  {
  }

  /** The two hooks a concrete button supplies: get_query_args and
      get_url_base. */
  datatype Hooks = Hooks(
    queryArgs: Button -> seq<(string, string)>,
    urlBase: Button -> string)

  /** get_url(): add_query_arg applied to the two hooks' results. */
  function GetUrl(b: Button, hooks: Hooks, addQueryArg: (seq<(string, string)>, string) -> string): (url: string)
    ensures url == addQueryArg(hooks.queryArgs(b), hooks.urlBase(b))
  {
    addQueryArg(hooks.queryArgs(b), hooks.urlBase(b))
  }

  /** A concrete button can change its URL only through the two hooks: two
      buttons whose hooks agree have the same URL. */
  lemma GetUrlThroughHooks(b1: Button, h1: Hooks, b2: Button, h2: Hooks,
                           addQueryArg: (seq<(string, string)>, string) -> string)
    requires h1.queryArgs(b1) == h2.queryArgs(b2) && h1.urlBase(b1) == h2.urlBase(b2)
    ensures GetUrl(b1, h1, addQueryArg) == GetUrl(b2, h2, addQueryArg)
  {
  }

  /** `$this->attributes['permalink']`. A missing entry is PHP's null, which
      the permalink filter sees as such; the model hands the filter "" in its
      place. */
  function Permalink(attributes: seq<(string, Bytes)>): (p: Bytes)
    ensures Lookup(attributes, "permalink").Some? ==> p == Lookup(attributes, "permalink").value
    ensures Lookup(attributes, "permalink").None? ==> p == []
  {
    match Lookup(attributes, "permalink")
    case Some(p) => p
    case None => []
  }

  /** The 'scriptlesssocialsharing_get_permalink' filter: it sees the
      permalink, the button name and the attributes. */
  type PermalinkFilter = (Bytes, string, seq<(string, Bytes)>) -> Bytes

  /** The filtered permalink of a button. */
  function FilteredPermalink(b: Button, filter: PermalinkFilter): Bytes {
    filter(Permalink(b.attributes), b.buttonName, b.attributes)
  }

  /** get_permalink(): the filtered permalink, percent-encoded. Decoding it
      gives the filtered permalink back, and it holds only unreserved bytes
      and percent signs, so none of a URL's separators. */
  function GetPermalink(b: Button, filter: PermalinkFilter): (r: Bytes)
    ensures r == RawUrlEncode(FilteredPermalink(b, filter))
    ensures RawUrlDecode(r) == FilteredPermalink(b, filter)
    ensures forall i :: 0 <= i < |r| ==> Unreserved(r[i]) || r[i] == '%'
    ensures forall c :: c in r ==> c !in ":/?#&= +"
  {
    var p := FilteredPermalink(b, filter);
    RawUrlRoundTrip(p);
    RawUrlEncodeAlphabet(p);
    RawUrlEncodeHasNoSeparator(p);
    RawUrlEncode(p)
  }

  /** A filtered permalink scheme://host/section/id whose scheme, host,
      section and id are unreserved keeps them and has only its separators
      encoded: https://example.com/p/1 becomes
      https%3A%2F%2Fexample.com%2Fp%2F1. */
  lemma GetPermalinkOfUrl(b: Button, filter: PermalinkFilter, scheme: Bytes, host: Bytes, section: Bytes, id: Bytes)
    requires forall i :: 0 <= i < |scheme| ==> Unreserved(scheme[i])
    requires forall i :: 0 <= i < |host| ==> Unreserved(host[i])
    requires forall i :: 0 <= i < |section| ==> Unreserved(section[i])
    requires forall i :: 0 <= i < |id| ==> Unreserved(id[i])
    requires FilteredPermalink(b, filter) == scheme + "://" + host + "/" + section + "/" + id
    ensures GetPermalink(b, filter) == scheme + "%3A%2F%2F" + host + "%2F" + section + "%2F" + id
  {
    RawUrlEncodePermalink(scheme, host, section, id);
  }

  /** description( $description ): the excerpt when the post has one, the
      argument (by default "") otherwise. */
  function Description(hasExcerpt: bool, excerpt: string, default: string := ""): (d: string)
    ensures hasExcerpt ==> d == excerpt
    ensures !hasExcerpt ==> d == default
  {
    if hasExcerpt then excerpt else default
  }
}
