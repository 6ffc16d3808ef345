/** The two PHP string built-ins the plugin relies on: `str_replace( ' ',
    '+', $s )` and `rawurlencode`, with `rawurldecode` as its inverse. */
module PhpStrings {

  /** r is s with every space turned into a plus sign and every other
      character kept. */
  predicate PlusForSpace(s: string, r: string) {
    && |r| == |s|
    && forall i :: 0 <= i < |s| ==> r[i] == (if s[i] == ' ' then '+' else s[i])
  }

  /** `str_replace( ' ', '+', $s )`: every space becomes a plus sign. */
  function Replace(s: string): (r: string)
    ensures PlusForSpace(s, r)
  {
    if s == [] then [] else [if s[0] == ' ' then '+' else s[0]] + Replace(s[1..])
  }

  /** The result of Replace holds no space. */
  lemma ReplaceHasNoSpace(s: string)
    ensures ' ' !in Replace(s)
  {
    var r := Replace(s);
    forall i | 0 <= i < |r| ensures r[i] != ' ' {
    }
  }

  /** Replacing twice is replacing once. */
  lemma {:induction false} ReplaceIdempotent(s: string)
    ensures Replace(Replace(s)) == Replace(s)
  {
    var r := Replace(s);
    ReplaceHasNoSpace(s);
    ReplaceNoSpaceUnchanged(r);
  }

  /** A string without spaces is left as it is. */
  lemma {:induction false} ReplaceNoSpaceUnchanged(s: string)
    requires ' ' !in s
    ensures Replace(s) == s
  {
    var r := Replace(s);
    forall i | 0 <= i < |s| ensures r[i] == s[i] {
      assert s[i] != ' ' by { assert s[i] in s; }
    }
  }

  /** Replace works piece by piece. */
  lemma {:induction false} ReplaceConcat(a: string, b: string)
    ensures Replace(a + b) == Replace(a) + Replace(b)
  {
    var l, r := Replace(a + b), Replace(a) + Replace(b);
    forall i | 0 <= i < |a + b| ensures l[i] == r[i] {
      if i < |a| {
        assert (a + b)[i] == a[i];
      } else {
        assert (a + b)[i] == b[i - |a|];
      }
    }
  }

  /** Replace maps "" to "" and "0" to "0" and nothing else to them, so it
      leaves PHP's truthiness of a string as it was. */
  lemma ReplaceKeepsTruthiness(s: string)
    ensures Replace(s) == "" <==> s == ""
    ensures Replace(s) == "0" <==> s == "0"
  {
    var r := Replace(s);
    if r == "0" {
      assert r[0] == (if s[0] == ' ' then '+' else s[0]);
      assert s == "0";
    }
  }

  /** The string a `foreach` loop builds with `.=`, appending f of each
      element in turn. */
  function ConcatMap<T>(xs: seq<T>, f: T -> string): string
    decreases |xs|
  {
    if xs == [] then "" else ConcatMap(xs[..|xs| - 1], f) + f(xs[|xs| - 1])
  }

  /** One more element appends its piece at the end. */
  lemma ConcatMapSnoc<T>(xs: seq<T>, i: nat, f: T -> string)
    requires i < |xs|
    ensures ConcatMap(xs[..i + 1], f) == ConcatMap(xs[..i], f) + f(xs[i])
  {
    assert xs[..i + 1][..i] == xs[..i];
  }

  /** The pieces of two runs are the pieces of each run. */
  lemma {:induction false} ConcatMapConcat<T>(a: seq<T>, b: seq<T>, f: T -> string)
    ensures ConcatMap(a + b, f) == ConcatMap(a, f) + ConcatMap(b, f)
    decreases |b|
  {
    if b == [] {
      assert a + b == a;
    } else {
      var init := b[..|b| - 1];
      assert (a + b)[..|a + b| - 1] == a + init;
      ConcatMapConcat(a, init, f);
    }
  }

  /** Exactly one piece per element, in the elements' order: the piece of
      element i sits between the pieces of the elements before and after it. */
  lemma ConcatMapInOrder<T>(xs: seq<T>, f: T -> string, i: nat)
    requires i < |xs|
    ensures ConcatMap(xs, f) == ConcatMap(xs[..i], f) + f(xs[i]) + ConcatMap(xs[i + 1..], f)
  {
    assert xs == xs[..i + 1] + xs[i + 1..];
    ConcatMapConcat(xs[..i + 1], xs[i + 1..], f);
    ConcatMapSnoc(xs, i, f);
  }

  /** The pieces of a six-element run, written out. */
  lemma ConcatMapSix<T>(xs: seq<T>, f: T -> string)
    requires |xs| == 6
    ensures ConcatMap(xs, f) == f(xs[0]) + f(xs[1]) + f(xs[2]) + f(xs[3]) + f(xs[4]) + f(xs[5])
  {
    assert xs[..0] == [];
    ConcatMapSnoc(xs, 0, f);
    assert ConcatMap(xs[..1], f) == f(xs[0]);
    ConcatMapSnoc(xs, 1, f);
    ConcatMapSnoc(xs, 2, f);
    ConcatMapSnoc(xs, 3, f);
    ConcatMapSnoc(xs, 4, f);
    ConcatMapSnoc(xs, 5, f);
    assert xs[..6] == xs;
  }

  /** Associativity of concatenation, for a step Dafny does not take alone. */
  lemma ConcatAssoc(a: string, b: string, c: string)
    ensures (a + b) + c == a + (b + c)
  {
  }

  /** A concatenation starts with its first piece and ends with its last. */
  lemma PrefixAndSuffix(p: string, m: string, s: string)
    ensures |p + m + s| == |p| + |m| + |s|
    ensures (p + m + s)[..|p|] == p
    ensures (p + m + s)[|p| + |m|..] == s
  {
  }

  /** The pieces of a concatenation sit one after the other. */
  lemma ConcatPieces(a: string, b: string, c: string, d: string, e: string)
    ensures var m := a + b + c + d + e;
            && m[..|a|] == a
            && m[|a|..|a| + |b|] == b
            && m[|a| + |b|..|a| + |b| + |c|] == c
            && m[|m| - |e|..] == e
  {
    var m := a + b + c + d + e;
    assert m == a + (b + (c + (d + e)));
  }

  /** A byte of a PHP string. */
  type Byte = c: char | c as int < 256 witness 'a'

  /** The unreserved characters of section 2.3 of RFC 3986, which
      `rawurlencode` leaves as they are. */
  predicate Unreserved(c: char) {
    || 'A' <= c <= 'Z'
    || 'a' <= c <= 'z'
    || '0' <= c <= '9'
    || c == '-' || c == '_' || c == '.' || c == '~'
  }

  /** The digits of an upper-case hexadecimal number, as `rawurlencode`
      writes them. */
  const HexDigits: seq<Byte> := "0123456789ABCDEF"

  predicate IsHexDigit(c: char) {
    '0' <= c <= '9' || 'a' <= c <= 'f' || 'A' <= c <= 'F'
  }

  /** A hexadecimal digit as rawurlencode writes it: upper case. */
  predicate IsUpperHexDigit(c: char) {
    '0' <= c <= '9' || 'A' <= c <= 'F'
  }

  /** The value of one hexadecimal digit, either case. */
  function HexValue(c: char): (v: int)
    requires IsHexDigit(c)
    ensures 0 <= v < 16
  {
    if '0' <= c <= '9' then c as int - '0' as int
    else if 'a' <= c <= 'f' then c as int - 'a' as int + 10
    else c as int - 'A' as int + 10
  }

  /** Reading back a digit written with HexDigits gives its value. */
  lemma HexDigitRoundTrip(n: int)
    requires 0 <= n < 16
    ensures IsHexDigit(HexDigits[n]) && HexValue(HexDigits[n]) == n
    ensures IsUpperHexDigit(HexDigits[n]) && Unreserved(HexDigits[n])
  {
  }

  /** Section 2.1 of RFC 3986: a byte outside the unreserved set becomes a
      percent sign followed by two upper-case hexadecimal digits. */
  function EncodeByte(b: Byte): (r: seq<Byte>)
    ensures Unreserved(b) ==> r == [b]
    ensures !Unreserved(b) ==>
              && |r| == 3 && r[0] == '%'
              && IsUpperHexDigit(r[1]) && IsUpperHexDigit(r[2])
              && HexValue(r[1]) * 16 + HexValue(r[2]) == b as int
  {
    if Unreserved(b) then [b]
    else
      HexDigitRoundTrip(b as int / 16);
      HexDigitRoundTrip(b as int % 16);
      ['%', HexDigits[b as int / 16], HexDigits[b as int % 16]]
  }

  /** PHP's `rawurlencode`. */
  function RawUrlEncode(s: seq<Byte>): (r: seq<Byte>)
    ensures |r| >= |s|
  {
    if s == [] then [] else EncodeByte(s[0]) + RawUrlEncode(s[1..])
  }

  /** Every byte rawurlencode writes is unreserved or a percent sign: the
      hexadecimal digits are themselves unreserved. */
  lemma {:induction false} RawUrlEncodeAlphabet(s: seq<Byte>)
    ensures forall i :: 0 <= i < |RawUrlEncode(s)| ==> Unreserved(RawUrlEncode(s)[i]) || RawUrlEncode(s)[i] == '%'
  {
    if s != [] {
      RawUrlEncodeAlphabet(s[1..]);
      var head, tail := EncodeByte(s[0]), RawUrlEncode(s[1..]);
      if !Unreserved(s[0]) {
        HexDigitRoundTrip(s[0] as int / 16);
        HexDigitRoundTrip(s[0] as int % 16);
      }
      assert forall i :: 0 <= i < |head| ==> Unreserved(head[i]) || head[i] == '%';
      assert RawUrlEncode(s) == head + tail;
    }
  }

  /** PHP's `rawurldecode`: a percent sign followed by two hexadecimal
      digits of either case stands for one byte; anything else is kept. */
  function RawUrlDecode(s: seq<Byte>): (r: seq<Byte>)
    ensures |r| <= |s|
  {
    if s == [] then []
    else if s[0] == '%' && |s| >= 3 && IsHexDigit(s[1]) && IsHexDigit(s[2]) then
      [(HexValue(s[1]) * 16 + HexValue(s[2])) as char] + RawUrlDecode(s[3..])
    else
      [s[0]] + RawUrlDecode(s[1..])
  }

  /** Decoding what rawurlencode wrote gives back the original bytes. */
  lemma {:induction false} RawUrlRoundTrip(s: seq<Byte>)
    ensures RawUrlDecode(RawUrlEncode(s)) == s
  {
    if s != [] {
      var head, tail := EncodeByte(s[0]), RawUrlEncode(s[1..]);
      var e := head + tail;
      assert RawUrlEncode(s) == e;
      RawUrlRoundTrip(s[1..]);
      if Unreserved(s[0]) {
        assert e[0] == s[0] && e[0] != '%';
        assert e[1..] == tail;
      } else {
        assert e[0] == '%' && e[1] == head[1] && e[2] == head[2];
        assert e[3..] == tail;
      }
    }
  }

  /** The encoded form can stand as one query value: it holds none of the
      separators of a URL. */
  lemma RawUrlEncodeHasNoSeparator(s: seq<Byte>)
    ensures forall c :: c in RawUrlEncode(s) ==> c !in ":/?#&= +"
  {
    RawUrlEncodeAlphabet(s);
  }

  /** Encoding works byte by byte, so it distributes over concatenation. */
  lemma {:induction false} RawUrlEncodeConcat(a: seq<Byte>, b: seq<Byte>)
    ensures RawUrlEncode(a + b) == RawUrlEncode(a) + RawUrlEncode(b)
  {
    if a != [] {
      assert (a + b)[1..] == a[1..] + b;
      RawUrlEncodeConcat(a[1..], b);
    } else {
      assert a + b == b;
    }
  }

  /** A run of unreserved bytes is its own encoding. */
  lemma {:induction false} RawUrlEncodeUnreserved(s: seq<Byte>)
    requires forall i :: 0 <= i < |s| ==> Unreserved(s[i])
    ensures RawUrlEncode(s) == s
  {
    if s != [] {
      RawUrlEncodeUnreserved(s[1..]);
      assert [s[0]] + s[1..] == s;
    }
  }

  /** Encoding six pieces is encoding each piece. */
  lemma RawUrlEncodeSixParts(a: seq<Byte>, b: seq<Byte>, c: seq<Byte>, d: seq<Byte>, e: seq<Byte>, f: seq<Byte>)
    ensures RawUrlEncode(a + b + c + d + e + f)
         == RawUrlEncode(a) + RawUrlEncode(b) + RawUrlEncode(c) + RawUrlEncode(d) + RawUrlEncode(e) + RawUrlEncode(f)
  {
    RawUrlEncodeConcat(a, b);
    RawUrlEncodeConcat(a + b, c);
    RawUrlEncodeConcat(a + b + c, d);
    RawUrlEncodeConcat(a + b + c + d, e);
    RawUrlEncodeConcat(a + b + c + d + e, f);
  }

  /** A single byte is encoded by EncodeByte. */
  lemma RawUrlEncodeOneByte(b: Byte)
    ensures RawUrlEncode([b]) == EncodeByte(b)
  {
    assert [b][1..] == [];
  }

  /** Byte by byte: one more byte at the end of the input adds, at the end
      of the output, the byte itself when it is unreserved, and otherwise a
      percent sign and two upper-case hexadecimal digits that spell its
      value. */
  lemma RawUrlEncodeSnoc(p: seq<Byte>, c: Byte)
    ensures Unreserved(c) ==> RawUrlEncode(p + [c]) == RawUrlEncode(p) + [c]
    ensures !Unreserved(c) ==>
              var r := RawUrlEncode(p + [c]);
              && |r| == |RawUrlEncode(p)| + 3
              && r[..|RawUrlEncode(p)|] == RawUrlEncode(p)
              && r[|r| - 3] == '%'
              && IsUpperHexDigit(r[|r| - 2]) && IsUpperHexDigit(r[|r| - 1])
              && HexValue(r[|r| - 2]) * 16 + HexValue(r[|r| - 1]) == c as int
  {
    RawUrlEncodeConcat(p, [c]);
    RawUrlEncodeOneByte(c);
  }

  /** The separator between scheme and host: ':' is byte 0x3A and '/' is
      byte 0x2F. */
  lemma RawUrlEncodeSchemeSeparator()
    ensures RawUrlEncode("://") == "%3A%2F%2F"
  {
    RawUrlEncodeOneByte(':');
    RawUrlEncodeOneByte('/');
    assert "://" == [':'] + ['/'] + ['/'];
    RawUrlEncodeConcat([':'] + ['/'], ['/']);
    RawUrlEncodeConcat([':'], ['/']);
  }

  /** A path separator. */
  lemma RawUrlEncodeSlash()
    ensures RawUrlEncode("/") == "%2F"
  {
    RawUrlEncodeOneByte('/');
  }

  /** In a URL scheme sep host slash section slash id whose scheme, host,
      section and id are unreserved, only the separators change. */
  lemma RawUrlEncodeUrlParts(scheme: seq<Byte>, sep: seq<Byte>, encSep: seq<Byte>, slash: seq<Byte>, encSlash: seq<Byte>,
                             host: seq<Byte>, section: seq<Byte>, id: seq<Byte>)
    requires forall i :: 0 <= i < |scheme| ==> Unreserved(scheme[i])
    requires forall i :: 0 <= i < |host| ==> Unreserved(host[i])
    requires forall i :: 0 <= i < |section| ==> Unreserved(section[i])
    requires forall i :: 0 <= i < |id| ==> Unreserved(id[i])
    requires RawUrlEncode(sep) == encSep && RawUrlEncode(slash) == encSlash
    ensures RawUrlEncode(scheme + sep + host + slash + section + slash + id)
         == scheme + encSep + host + encSlash + section + encSlash + id
  {
    RawUrlEncodeUnreserved(scheme);
    RawUrlEncodeUnreserved(host);
    RawUrlEncodeUnreserved(section);
    RawUrlEncodeUnreserved(id);
    RawUrlEncodeSixParts(scheme + sep, host, slash, section, slash, id);
    RawUrlEncodeConcat(scheme, sep);
  }

  /** A permalink scheme://host/section/id whose scheme, host, section and id
      are unreserved keeps them and percent-encodes only the separators, so
      that https://example.com/p/1 becomes https%3A%2F%2Fexample.com%2Fp%2F1. */
  lemma RawUrlEncodePermalink(scheme: seq<Byte>, host: seq<Byte>, section: seq<Byte>, id: seq<Byte>)
    requires forall i :: 0 <= i < |scheme| ==> Unreserved(scheme[i])
    requires forall i :: 0 <= i < |host| ==> Unreserved(host[i])
    requires forall i :: 0 <= i < |section| ==> Unreserved(section[i])
    requires forall i :: 0 <= i < |id| ==> Unreserved(id[i])
    ensures RawUrlEncode(scheme + "://" + host + "/" + section + "/" + id)
         == scheme + "%3A%2F%2F" + host + "%2F" + section + "%2F" + id
  {
    RawUrlEncodeSchemeSeparator();
    RawUrlEncodeSlash();
    RawUrlEncodeUrlParts(scheme, "://", "%3A%2F%2F", "/", "%2F", host, section, id);
  }
}
