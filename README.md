# Scriptless Social Sharing, modelled in Dafny

Scriptless Social Sharing is a WordPress plugin. It appends plain share
links for Twitter, Facebook, Google+, Pinterest, LinkedIn, e-mail and
Reddit to a post, and it does so without any client-side script. This
project models the plugin's core in three parts and proves properties of
each:

- **`SharingOutput`** (`output.dfy`) is the later output class,
  `ScriptlessSocialSharingOutput` (version 1.3.0). It covers:
  - the normalisation of the post-types setting (`get_post_types`);
  - the eligibility test (`can_do_buttons`);
  - the attributes and the seven `sprintf` share URLs (`make_buttons`,
    `attributes`);
  - the removal of disabled networks, and of pinterest when there is no
    image;
  - the rendered markup (`do_buttons`, `heading`, `replace`);
  - the sanitiser allow-list (`filter_allowed_html`).
- **`SharingOriginal`** (`original.dfy`) is the first generation,
  `ScriptlessSocialSharing`. It has six fixed networks, URL text whose
  spaces become plus signs, and buttons appended to the post content by
  `do_buttons`.
- **`SharingButton`** (`button.dfy`) is the abstract button base,
  `ScriptlessSocialSharingButton`. It covers the constructor, `get_url`
  built from the two hooks of a concrete button, `get_permalink`
  (`rawurlencode` of the filtered permalink) and `description`.

Shared foundations:

- **`Php`** (`php.dfy`) holds PHP values, PHP's conversion to boolean
  (`""` and `"0"` are false), and arrays with string keys seen as ordered
  maps: `$m[$k]`, `isset` and `unset`.
- **`PhpStrings`** (`php_strings.dfy`) holds `str_replace(' ', '+', ...)`,
  `rawurlencode` with its inverse `rawurldecode`, and the string a `.=`
  loop builds. `rawurlencode` follows sections 2.1 and 2.3 of RFC 3986.
- **`WordPress`** (`wordpress.dfy`) holds the escaping functions the
  plugin calls. They are passed in as uninterpreted functions.

The parts of the source that are imperative are methods with loops:

- `GetPostTypes` builds its list with `[]=`;
- `MakeButtons` makes seven URL assignments and then an `unset` loop;
- the original `DoButtons` accumulates output with `.=`; the later
  `DoButtons` hands its `.=` loop to `RenderMarkup`.

Each of these methods is proved against a function:

- `PostTypesOf` for `GetPostTypes`;
- `ButtonsOf` for `MakeButtons`;
- `Markup` for `RenderMarkup`;
- `Rendered` for the original `DoButtons`.

The properties the plugin promises are then proved about those functions
as lemmas.

Request facts are fields of an input record. These are `is_main_query`,
`is_singular`, `is_feed`, post meta, the permalink, the title, the
excerpt, the image URL and the home URL. Each `apply_filters` call is the
identity, with three exceptions:

- Where the value being filtered is a constant, the filtered value is an
  input. This covers the original heading, e-mail subject and e-mail body,
  and the original Twitter handle.
- The original `do_buttons` receives the array that the
  `scriptlesssocialsharing_default_buttons` filter returns. With the
  identity filter that array is never empty and the markup holds the six
  default anchors (`DefaultButtonsAppended`), so the "no buttons" branch
  could otherwise never be reached.
- The permalink filter of the button base is an uninterpreted function.
  The round trip holds whatever that filter does.

Only the button base percent-encodes the permalink: its `get_permalink`
applies `rawurlencode` (includes/buttons/class-scriptlesssocialsharing-button.php:80-88,
`SharingButton.GetPermalinkOfUrl`). The later output class puts
`get_the_permalink()` into its `sprintf` templates as it is
(includes/class-scriptlesssocialsharing-output.php:130-136,
`SharingOutput.ShareUrls`), and this model does the same.

Three promises of the button base hold by the shape of the model rather
than by proof: `NewButtonInjective` (the constructor sets nothing but its
three values) is datatype injectivity, `GetUrl` (the URL is
`add_query_arg` of the two hooks' results) holds by definition, and
`GetUrlThroughHooks` (a URL depends only on the two hooks) is the
congruence of a function. They are listed for completeness, not as
evidence.

PHP's default arguments are Dafny default parameters: `$cando = true`
(`SharingOutput.CanDoButtons`), `$heading = true`
(`SharingOutput.DoButtons`) and `$description = ''` (both
`Description` functions).

## Model

| member | source | states |
|---|---|---|
| PhpStrings.Replace | includes/class-scriptlesssocialsharing-output.php:259-261 | same length; every space becomes `+`; every other character is kept |
| PhpStrings.ReplaceHasNoSpace | includes/class-scriptlesssocialsharing-output.php:259-261 | the result of `replace` contains no space |
| PhpStrings.ReplaceIdempotent | includes/class-scriptlesssocialsharing-output.php:259-261 | applying `replace` twice equals applying it once |
| PhpStrings.ReplaceNoSpaceUnchanged | includes/class-scriptlesssocialsharing.php:177-179 | a string without spaces is returned unchanged, so `replace` only touches spaces |
| PhpStrings.ReplaceConcat | includes/class-scriptlesssocialsharing.php:177-179 | `replace` works piece by piece over a concatenation |
| PhpStrings.ReplaceKeepsTruthiness | includes/class-scriptlesssocialsharing.php:118-123 | `replace` maps `""` and `"0"` only to themselves, so it never changes PHP's truth value of a string |
| PhpStrings.EncodeByte | includes/buttons/class-scriptlesssocialsharing-button.php:81-87 | an unreserved byte is kept; any other byte becomes `%` and two upper-case hex digits that spell its value |
| PhpStrings.RawUrlEncodeSnoc | includes/buttons/class-scriptlesssocialsharing-button.php:81-87 | one more byte of input adds, at the end of the output, either that byte or its `%XX` form |
| PhpStrings.RawUrlEncodeAlphabet | includes/buttons/class-scriptlesssocialsharing-button.php:81-87 | every output byte is unreserved or `%` |
| PhpStrings.RawUrlRoundTrip | includes/buttons/class-scriptlesssocialsharing-button.php:81-87 | `rawurldecode(rawurlencode(s)) == s` for every byte string |
| PhpStrings.RawUrlEncodeHasNoSeparator | includes/buttons/class-scriptlesssocialsharing-button.php:81-87 | the output contains none of `: / ? # & = +` or space |
| PhpStrings.RawUrlEncodeConcat | includes/buttons/class-scriptlesssocialsharing-button.php:81-87 | encoding distributes over concatenation |
| PhpStrings.RawUrlEncodeUnreserved | includes/buttons/class-scriptlesssocialsharing-button.php:81-87 | a run of unreserved bytes is its own encoding |
| PhpStrings.RawUrlEncodePermalink | includes/buttons/class-scriptlesssocialsharing-button.php:81-87 | `scheme://host/section/id` with unreserved parts encodes to `scheme%3A%2F%2Fhost%2Fsection%2Fid` |
| Php.RemoveKeys | includes/class-scriptlesssocialsharing-output.php:142 | `unset` keeps exactly the entries whose key is not removed |
| Php.RemoveKeysKeepsOrder | includes/class-scriptlesssocialsharing-output.php:138-148 | the entries left after `unset` keep their relative order |
| Php.RemoveKeysTwice | includes/class-scriptlesssocialsharing-output.php:138-148 | two rounds of `unset` equal one round over both key sets |
| Php.LookupRemoveKeys | includes/class-scriptlesssocialsharing-output.php:138-148 | after `unset`, a removed key is missing and every other key keeps its value |
| SharingOutput.PostTypeNames | includes/class-scriptlesssocialsharing-output.php:27-30 | one name per settings entry, in order: the key when its value is truthy, otherwise `''` |
| SharingOutput.GetPostTypes | includes/class-scriptlesssocialsharing-output.php:24-33 | when `post` is set: a list with one entry per settings entry, the key when truthy else `''`; otherwise the setting unchanged |
| SharingOutput.CanDoButtons | includes/class-scriptlesssocialsharing-output.php:40-49 | false when not the main query, not singular for the post types, a feed, or disabled by meta; otherwise the default argument |
| SharingOutput.Description | includes/class-scriptlesssocialsharing-output.php:224-229 | the excerpt when the post has one, otherwise the argument |
| SharingOutput.AttributesOf | includes/class-scriptlesssocialsharing-output.php:157-171 | `&via=`+handle exactly when the handle is truthy, else `''`; `&summary=`+description exactly when it is truthy, else `''`; the other fields are copied from the request |
| SharingOutput.TweetText | includes/class-scriptlesssocialsharing-output.php:124-125 | the Yoast twitter title when truthy, otherwise the post title |
| SharingOutput.SetUrlSpec | includes/class-scriptlesssocialsharing-output.php:130-136 | `$buttons[k]['url'] = u` gives key k the URL u and keeps the entry's other fields, or creates the entry |
| SharingOutput.SetUrlKeys | includes/class-scriptlesssocialsharing-output.php:130-136 | an existing key keeps its place; a missing key is appended at the end |
| SharingOutput.SetUrlOther | includes/class-scriptlesssocialsharing-output.php:130-136 | every other key keeps its entry |
| SharingOutput.SetUrlUniqueKeys | includes/class-scriptlesssocialsharing-output.php:130-136 | the array keeps distinct keys |
| SharingOutput.WithUrlsSpec | includes/class-scriptlesssocialsharing-output.php:129-136 | after the URL assignments every listed network has its URL and every other entry is unchanged |
| SharingOutput.DisabledKeysSpec | includes/class-scriptlesssocialsharing-output.php:139-145 | a key is disabled exactly when the setting gives it a falsy value |
| SharingOutput.MakeButtons | includes/class-scriptlesssocialsharing-output.php:121-151 | the array after the seven URL assignments, the `unset` loop and the pinterest removal equals `ButtonsOf` |
| SharingOutput.MakeButtonsFilter | includes/class-scriptlesssocialsharing-output.php:138-148 | a key survives exactly when it is not removed, keeps its entry, and survivors keep their relative order |
| SharingOutput.MakeButtonsDropsDisabled | includes/class-scriptlesssocialsharing-output.php:138-148 | a network whose setting is falsy is absent, and so is pinterest without an image |
| SharingOutput.MakeButtonsUrls | includes/class-scriptlesssocialsharing-output.php:130-136 | each of the seven networks that is not removed is present with the URL its template builds |
| SharingOutput.Heading | includes/class-scriptlesssocialsharing-output.php:245-252 | `''` exactly when the heading setting is falsy, otherwise `<h3>`heading`</h3>` |
| SharingOutput.HrefSpec | includes/class-scriptlesssocialsharing-output.php:106 | the email URL is left as it is; every other URL has no spaces, the same length and its other characters kept |
| SharingOutput.DataPin | includes/class-scriptlesssocialsharing-output.php:107 | the three `data-pin-*` attributes are present exactly for pinterest |
| SharingOutput.Anchor | includes/class-scriptlesssocialsharing-output.php:108 | the anchor opens with `<a class="button ` and the escaped name, and ends with the label, unescaped, and `</span></a>` |
| SharingOutput.AnchorsInOrder | includes/class-scriptlesssocialsharing-output.php:105-109 | exactly one anchor per button, in the buttons' order |
| SharingOutput.MarkupShape | includes/class-scriptlesssocialsharing-output.php:100-111 | starts with the wrapper div, has the heading right after it only when asked for, then the buttons div, and ends with `</div></div>` |
| SharingOutput.RenderMarkup | includes/class-scriptlesssocialsharing-output.php:100-111 | the `.=` loop builds exactly `Markup` |
| SharingOutput.DoButtons | includes/class-scriptlesssocialsharing-output.php:88-115 | `''` when not eligible or when no button is left; otherwise `wp_kses` of the markup of the kept buttons under the post allow-list as `filter_allowed_html` extends it |
| SharingOutput.FilterAllowedHtml | includes/class-scriptlesssocialsharing-output.php:289-298 | in context `post` exactly the three `data-pin-*` attributes are added as true under `a` and nothing else changes; any other context returns the input |
| SharingOriginal.Description | includes/class-scriptlesssocialsharing.php:146-153 | nothing without an excerpt; otherwise the excerpt with spaces turned into `+`, containing no space |
| SharingOriginal.EmailSubject | includes/class-scriptlesssocialsharing.php:185-188 | the filtered subject with spaces turned into `+`, containing no space |
| SharingOriginal.EmailBody | includes/class-scriptlesssocialsharing.php:194-197 | the filtered body with spaces turned into `+`, containing no space |
| SharingOriginal.Heading | includes/class-scriptlesssocialsharing.php:167-170 | always `<h3>` + heading + `</h3>`, at exact offsets, with no empty-heading case |
| SharingOriginal.AttributesOf | includes/class-scriptlesssocialsharing.php:112-126 | the title has no spaces; the `&via=`, `&media=` and `&summary=` fragments are `''` exactly when their source is falsy, otherwise the prefix followed by the source |
| SharingOriginal.MakeButtons | includes/class-scriptlesssocialsharing.php:68-106 | keys exactly twitter, facebook, google, pinterest, linkedin, email in order; all distinct; each `name` equals its key |
| SharingOriginal.ButtonsFrom | includes/class-scriptlesssocialsharing.php:71-103 | for any attributes, the array literal has the six keys in order, all distinct, each `name` equal to its key |
| SharingOriginal.MakeButtonsPermalinkUrls | includes/class-scriptlesssocialsharing.php:78-87 | the facebook and google URLs are their fixed prefix followed by the permalink |
| SharingOriginal.PinterestMedia | includes/class-scriptlesssocialsharing.php:88-92 | the pinterest URL ends with `&media=`+image exactly when the post has an image |
| SharingOriginal.DoButtons | includes/class-scriptlesssocialsharing.php:44-63 | the content unchanged when not a singular post or when no button is left; otherwise the content followed by heading, buttons div and anchors |
| SharingOriginal.Anchor | includes/class-scriptlesssocialsharing.php:58 | the anchor opens with `<a class="button ` and the escaped name, and ends with the escaped title and `</span></a>` |
| SharingOriginal.DefaultButtonsAppended | includes/class-scriptlesssocialsharing.php:55-60 | the default array is never empty, and the appended markup is the heading, the buttons div, the six anchors twitter to email in order, and `</div>` |
| SharingOriginal.RenderedAfterContent | includes/class-scriptlesssocialsharing.php:55-62 | the content is a prefix of the result, followed by the heading and then the buttons div |
| SharingOriginal.AnchorsInOrder | includes/class-scriptlesssocialsharing.php:57-59 | exactly one anchor per button, in the buttons' order |
| SharingButton.NewButton | includes/buttons/class-scriptlesssocialsharing-button.php:37-41 | the button holds exactly the name, attributes and setting it was given |
| SharingButton.NewButtonInjective | includes/buttons/class-scriptlesssocialsharing-button.php:37-41 | two buttons are equal exactly when they were built from equal values, so nothing else is set |
| SharingButton.GetUrl | includes/buttons/class-scriptlesssocialsharing-button.php:50-55 | the URL is `add_query_arg` of `get_query_args()` and `get_url_base()` |
| SharingButton.GetUrlThroughHooks | includes/buttons/class-scriptlesssocialsharing-button.php:50-55 | the URL depends only on `get_query_args()` and `get_url_base()` |
| SharingButton.Permalink | includes/buttons/class-scriptlesssocialsharing-button.php:83 | the `permalink` attribute, or `''` when it is missing |
| SharingButton.GetPermalink | includes/buttons/class-scriptlesssocialsharing-button.php:80-88 | the result is `RawUrlEncode` of the filtered permalink; decoding it gives back the filtered permalink; only unreserved bytes and `%` occur, so no URL separator does |
| SharingButton.GetPermalinkOfUrl | includes/buttons/class-scriptlesssocialsharing-button.php:80-88 | `https://example.com/p/1`-shaped permalinks become `https%3A%2F%2Fexample.com%2Fp%2F1` |
| SharingButton.Description | includes/buttons/class-scriptlesssocialsharing-button.php:97-103 | the excerpt when the post has one, otherwise the argument (default `''`) |

## Left out

- `load_styles` of both classes and `run()` are left out. Besides enqueueing stylesheets and registering hooks, the later `load_styles` assigns `$this->setting` from `scriptlesssocialsharing_get_setting()` (includes/class-scriptlesssocialsharing-output.php:56); in the model the setting is a parameter of every member that reads it.
- The image lookup is left out: `featured_image` and `get_fallback_image` query the WordPress database. The image URL is an input.
- `ScriptlessSocialSharingSettings::get_networks()` is not part of this model. The network array it returns is an input of `SharingOutput.MakeButtons`.
- `esc_url`, `esc_attr`, `wp_kses`, `strip_tags` and `add_query_arg` are library code. They are uninterpreted functions, and nothing is claimed about their results.
- `wp_kses_post( $s )` is modelled as `wp_kses` of `$s` under WordPress's post allow-list passed through `filter_allowed_html`, the hook `do_buttons` registers just before; hooks other plugins add to `wp_kses_allowed_html` are not modelled, and that the registration outlives the call is not modelled either.
- `apply_filters` is the identity, except for the inputs named above. Hooks registered by other plugins are not modelled.
- `get_query_args` and `get_url_base` are abstract, and no concrete button class is part of this model. They are function-valued inputs.
- SharingOutput.MakeButtons: an entry created by a URL assignment on a key that `get_networks()` did not list has no `name` or `label` in PHP. The model stores `""` for both, which renders identically: `'email' === null` is false, and `esc_attr(null)` and `sprintf('%s', null)` both give `''`.
- SharingOutput.GetPostTypes: `is_singular` is an uninterpreted function of the value `get_post_types` returns. How WordPress matches that value against the current post type is not modelled.
- SharingOriginal.DoButtons: the buttons array is an input (the value the `scriptlesssocialsharing_default_buttons` filter returns), so that the empty-array branch is reachable. Its relation to `MakeButtons` under the identity filter is stated by `SharingOriginal.DefaultButtonsAppended`.
- SharingButton.Permalink: a missing `permalink` attribute reaches the permalink filter as PHP's null; the model hands the filter `""` instead, so a filter that tells null from `""` apart is not modelled.
- SharingButton.GetPermalink: PHP strings are byte strings. The model takes the permalink as a sequence of bytes (`char` values below 256); decoding multi-byte characters is not modelled.
- Filters that return a different type (a number, an array where a string is expected) are not modelled. Every filtered value keeps the type of its default.
- The shortcode and the "insert buttons here" marker are not modelled. They are in files outside this model.
