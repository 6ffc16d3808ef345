/** The WordPress library functions the plugin calls but whose behaviour
    this model does not fix: escaping, sanitising and tag stripping. They
    are passed in as uninterpreted functions, and nothing is claimed about
    their results. */
module WordPress {

  /** An allow-list of wp_kses: tag => attribute => allowed. */
  type AllowedHtml = map<string, map<string, bool>>

  datatype Sanitizers = Sanitizers(
    escUrl: string -> string,               // esc_url
    escAttr: string -> string,              // esc_attr
    kses: (AllowedHtml, string) -> string,  // wp_kses with the allow-list it was given
    postTags: AllowedHtml,                  // $allowedposttags, before the 'wp_kses_allowed_html' filter
    stripTags: string -> string)            // strip_tags
}
