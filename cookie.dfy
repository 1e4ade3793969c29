/**
 * `formatCookieDuration` (src/app/api/auth/sign-up/route.ts and
 * src/app/api/auth/sign-in/route.ts): rewrites the Max-Age and Expires
 * attributes of a Set-Cookie value (sections 4.1.2.1 and 4.1.2.2 of RFC 6265)
 * to the session's duration.
 *
 * The two regular expressions are modelled as the scans JavaScript performs:
 * `/Max-Age=/i.test(s)` is a case-insensitive occurrence of the name, and
 * `s.replace(/Max-Age=\d+/gi, rep)` replaces every match from left to right,
 * resuming after each match. Case-insensitive matching of an ASCII pattern
 * is ASCII case folding.
 */
module Cookie {
  import opened Text

  datatype Attribute = MaxAge | Expires

  /** The attribute name with its `=`, in lower case. */
  function Name(a: Attribute): (r: string)
    ensures |r| == 8
  {
    match a
    case MaxAge => "max-age="
    case Expires => "expires="
  }

  /** The name occurs at index `i` of `s`, compared case-insensitively. */
  predicate NameAt(s: string, i: int, a: Attribute) {
    0 <= i && i + 8 <= |s| && forall j | 0 <= j < 8 :: AsciiLower(s[i + j]) == Name(a)[j]
  }

  /** `/Max-Age=/i.test(s)` and `/Expires=/i.test(s)` */
  predicate Mentions(s: string, a: Attribute) {
    exists i | 0 <= i <= |s| - 8 :: NameAt(s, i, a)
  }

  /** What the pattern repeats after the name: `\d` for Max-Age, `[^;]` for Expires. */
  predicate ValueChar(a: Attribute, c: char) {
    match a
    case MaxAge => IsDigit(c)
    case Expires => c != ';'
  }

  /** The length of the longest prefix of value characters. */
  function ValueRun(a: Attribute, s: string): (n: nat)
    ensures n <= |s|
  {
    if s == [] || !ValueChar(a, s[0]) then 0 else 1 + ValueRun(a, s[1..])
  }

  /** The length of the match of `/Max-Age=\d+/i` or `/Expires=[^;]+/i` that starts at the beginning of `s`, if any. */
  function MatchAt(a: Attribute, s: string): (r: Option<nat>)
    ensures r.Some? ==> 8 < r.value <= |s|
  {
    if NameAt(s, 0, a) && ValueRun(a, s[8..]) > 0 then Some(8 + ValueRun(a, s[8..]))
    else None
  }

  /** `s.replace(/.../gi, rep)`: every match, left to right and without overlap, replaced by `rep`. */
  function ReplaceAll(a: Attribute, s: string, rep: string): string
    decreases |s|
  {
    if s == [] then []
    else match MatchAt(a, s)
      case Some(k) => rep + ReplaceAll(a, s[k..], rep)
      case None => [s[0]] + ReplaceAll(a, s[1..], rep)
  }

  /** The setting written for an attribute: `Max-Age=v` or `Expires=v`. */
  function Setting(a: Attribute, v: string): (r: string)
    ensures |r| == 8 + |v| && r[8..] == v
  {
    match a
    case MaxAge => "Max-Age=" + v
    case Expires => "Expires=" + v
  }

  /**
   * One step of the rewrite: when the cookie mentions the attribute, every
   * match is replaced by the setting; otherwise `; ` and the setting are
   * appended.
   */
  function Step(a: Attribute, cookie: string, v: string): string {
    if Mentions(cookie, a) then ReplaceAll(a, cookie, Setting(a, v))
    else cookie + "; " + Setting(a, v)
  }

  /** `formatCookieDuration(cookie, maxAgeSeconds, expiresAt)`, with `expires` standing for `expiresAt.toUTCString()`. */
  function FormatCookieDuration(cookie: string, maxAgeSeconds: int, expires: string): string {
    var updated := if maxAgeSeconds > 0 then Step(MaxAge, cookie, IntToString(maxAgeSeconds)) else cookie;
    Step(Expires, updated, expires)
  }

  // ---------------------------------------------------------------------
  // Scanning across attribute boundaries. Neither name nor value may contain
  // ';', so nothing the scans look at crosses a ';'.

  lemma {:induction false} ValueRunStops(a: Attribute, x: string, y: string)
    requires y == [] || y[0] == ';'
    ensures ValueRun(a, x + y) == ValueRun(a, x)
    decreases |x|
  {
    if x != [] {
      assert (x + y)[1..] == x[1..] + y;
      ValueRunStops(a, x[1..], y);
    } else {
      assert x + y == y;
    }
  }

  lemma {:induction false} ValueRunAll(a: Attribute, s: string)
    requires forall i | 0 <= i < |s| :: ValueChar(a, s[i])
    ensures ValueRun(a, s) == |s|
  {
    if s != [] {
      ValueRunAll(a, s[1..]);
    }
  }

  lemma {:induction false} NameHasNoSemicolon(a: Attribute, j: int)
    requires 0 <= j < 8
    ensures Name(a)[j] != ';'
  {
  }

  /** An occurrence that reaches a ';' is no occurrence. */
  lemma {:induction false} NotAcrossSemicolon(s: string, i: int, k: int, a: Attribute)
    requires 0 <= i <= k < i + 8 && k < |s| && s[k] == ';'
    ensures !NameAt(s, i, a)
  {
    NameHasNoSemicolon(a, k - i);
    assert AsciiLower(s[i + (k - i)]) == ';';
  }

  /** Occurrences in a part are occurrences in the whole, shifted by what precedes the part. */
  lemma {:induction false} NameAtShift(x: string, y: string, i: int, a: Attribute)
    ensures 0 <= i && i + 8 <= |x| ==> (NameAt(x + y, i, a) <==> NameAt(x, i, a))
    ensures 0 <= i ==> (NameAt(x + y, |x| + i, a) <==> NameAt(y, i, a))
  {
  }

  /** A match never reaches past a ';' that follows it. */
  lemma {:induction false} MatchStops(a: Attribute, x: string, y: string)
    requires y == [] || y[0] == ';'
    ensures MatchAt(a, x + y) == MatchAt(a, x)
  {
    var s := x + y;
    if |x| >= 8 {
      NameAtShift(x, y, 0, a);
      assert s[8..] == x[8..] + y;
      ValueRunStops(a, x[8..], y);
    } else if |s| >= 8 {
      NotAcrossSemicolon(s, 0, |x|, a);
    }
  }

  /** The scans of two parts split at a ';' are independent. */
  lemma {:induction false} ReplaceAllConcat(a: Attribute, x: string, y: string, rep: string)
    requires y == [] || y[0] == ';'
    ensures ReplaceAll(a, x + y, rep) == ReplaceAll(a, x, rep) + ReplaceAll(a, y, rep)
    decreases |x|, 1
  {
    if x == [] {
      assert x + y == y;
    } else {
      MatchStops(a, x, y);
      if MatchAt(a, x).Some? {
        ReplaceAllConcatMatch(a, x, y, rep);
      } else {
        ReplaceAllConcatSkip(a, x, y, rep);
      }
    }
  }

  lemma {:induction false} ReplaceAllConcatMatch(a: Attribute, x: string, y: string, rep: string)
    requires y == [] || y[0] == ';'
    requires x != [] && MatchAt(a, x).Some? && MatchAt(a, x + y) == MatchAt(a, x)
    ensures ReplaceAll(a, x + y, rep) == ReplaceAll(a, x, rep) + ReplaceAll(a, y, rep)
    decreases |x|, 0
  {
    var k := MatchAt(a, x).value;
    SliceConcat(x, y, k);
    ReplaceAllConcat(a, x[k..], y, rep);
  }

  lemma {:induction false} ReplaceAllConcatSkip(a: Attribute, x: string, y: string, rep: string)
    requires y == [] || y[0] == ';'
    requires x != [] && MatchAt(a, x).None? && MatchAt(a, x + y).None?
    ensures ReplaceAll(a, x + y, rep) == ReplaceAll(a, x, rep) + ReplaceAll(a, y, rep)
    decreases |x|, 0
  {
    SliceConcat(x, y, 1);
    ReplaceAllConcat(a, x[1..], y, rep);
  }

  lemma SliceConcat(x: string, y: string, k: nat)
    requires k <= |x|
    ensures (x + y)[k..] == x[k..] + y
  {
  }

  lemma {:induction false} MentionsConcat(a: Attribute, x: string, y: string)
    requires y == [] || y[0] == ';'
    ensures Mentions(x + y, a) <==> Mentions(x, a) || Mentions(y, a)
  {
    var s := x + y;
    if Mentions(s, a) {
      var i :| NameAt(s, i, a);
      assert NameAt(s, i, a);
      if i + 8 <= |x| {
        NameAtShift(x, y, i, a);
      } else if i >= |x| {
        NameAtShift(x, y, i - |x|, a);
      } else {
        NotAcrossSemicolon(s, i, |x|, a);
      }
    }
    if Mentions(x, a) {
      var i :| NameAt(x, i, a);
      assert NameAt(x, i, a);
      NameAtShift(x, y, i, a);
    }
    if Mentions(y, a) {
      var i :| NameAt(y, i, a);
      assert NameAt(y, i, a);
      NameAtShift(x, y, i, a);
    }
  }

  /** A prefix without the name's first letter cannot start an occurrence. */
  lemma {:induction false} MentionsAfter(a: Attribute, x: string, y: string)
    requires forall j | 0 <= j < |x| :: AsciiLower(x[j]) != Name(a)[0]
    ensures Mentions(x + y, a) <==> Mentions(y, a)
  {
    var s := x + y;
    forall i | 0 <= i < |x| ensures !NameAt(s, i, a) {
      assert s[i + 0] == x[i];
    }
    if Mentions(s, a) {
      var i :| NameAt(s, i, a);
      assert NameAt(s, i, a);
      NameAtShift(x, y, i - |x|, a);
    }
    if Mentions(y, a) {
      var i :| NameAt(y, i, a);
      assert NameAt(y, i, a);
      NameAtShift(x, y, i, a);
    }
  }

  /** Without an occurrence of the name the replacement changes nothing. */
  lemma {:induction false} ReplaceAllUnmentioned(a: Attribute, s: string, rep: string)
    requires !Mentions(s, a)
    ensures ReplaceAll(a, s, rep) == s
    decreases |s|
  {
    if s != [] {
      assert !NameAt(s, 0, a);
      if Mentions(s[1..], a) {
        var i :| NameAt(s[1..], i, a);
        assert NameAt(s[1..], i, a);
        assert s == [s[0]] + s[1..];
        NameAtShift([s[0]], s[1..], i, a);
      }
      ReplaceAllUnmentioned(a, s[1..], rep);
    }
  }

  // ---------------------------------------------------------------------
  // Cookies made of attributes: a head (`name=value`) followed by
  // attributes each written as ';' and its text.

  datatype CookieAttr = Other(text: string) | MaxAgeAttr(digits: string) | ExpiresAttr(value: string)

  function RenderAttr(x: CookieAttr): string {
    match x
    case Other(t) => ";" + t
    case MaxAgeAttr(d) => "; Max-Age=" + d
    case ExpiresAttr(v) => "; Expires=" + v
  }

  function Attrs(attrs: seq<CookieAttr>): string {
    if attrs == [] then [] else RenderAttr(attrs[0]) + Attrs(attrs[1..])
  }

  function Render(head: string, attrs: seq<CookieAttr>): string {
    head + Attrs(attrs)
  }

  /** Text that neither contains ';' nor mentions either attribute. */
  predicate Plain(s: string) {
    (forall i | 0 <= i < |s| :: s[i] != ';') && !Mentions(s, MaxAge) && !Mentions(s, Expires)
  }

  predicate MaxAgeValue(d: string) {
    |d| > 0 && AllDigits(d)
  }

  /** An Expires value: non-empty, without ';' and without a Max-Age name inside (an HTTP date qualifies). */
  predicate ExpiresValue(v: string) {
    |v| > 0 && (forall i | 0 <= i < |v| :: v[i] != ';') && !Mentions(v, MaxAge)
  }

  predicate AttrWellFormed(x: CookieAttr) {
    match x
    case Other(t) => Plain(t)
    case MaxAgeAttr(d) => MaxAgeValue(d)
    case ExpiresAttr(v) => ExpiresValue(v)
  }

  predicate WellFormed(head: string, attrs: seq<CookieAttr>) {
    Plain(head) && forall i | 0 <= i < |attrs| :: AttrWellFormed(attrs[i])
  }

  predicate Is(a: Attribute, x: CookieAttr) {
    match a
    case MaxAge => x.MaxAgeAttr?
    case Expires => x.ExpiresAttr?
  }

  predicate Has(a: Attribute, attrs: seq<CookieAttr>) {
    exists i | 0 <= i < |attrs| :: Is(a, attrs[i])
  }

  function Make(a: Attribute, v: string): CookieAttr {
    match a
    case MaxAge => MaxAgeAttr(v)
    case Expires => ExpiresAttr(v)
  }

  /** Every attribute of the given kind set to `v`; the others kept. */
  function SetAll(a: Attribute, attrs: seq<CookieAttr>, v: string): (r: seq<CookieAttr>)
    ensures |r| == |attrs|
    ensures forall i | 0 <= i < |attrs| :: r[i] == if Is(a, attrs[i]) then Make(a, v) else attrs[i]
  {
    if attrs == [] then [] else [if Is(a, attrs[0]) then Make(a, v) else attrs[0]] + SetAll(a, attrs[1..], v)
  }

  predicate ValueFor(a: Attribute, v: string) {
    match a
    case MaxAge => MaxAgeValue(v)
    case Expires => ExpiresValue(v)
  }

  lemma {:induction false} PlainOther(t: string)
    requires Plain(t)
    ensures !Mentions(";" + t, MaxAge) && !Mentions(";" + t, Expires)
  {
    MentionsAfter(MaxAge, ";", t);
    MentionsAfter(Expires, ";", t);
  }

  lemma {:induction false} MaxAgeAttrMentions(d: string)
    requires MaxAgeValue(d)
    ensures Mentions("; Max-Age=" + d, MaxAge)
    ensures !Mentions("; Max-Age=" + d, Expires)
  {
    var s := "; Max-Age=" + d;
    assert NameAt(s, 2, MaxAge);
    forall i | 0 <= i <= |s| - 8 ensures !NameAt(s, i, Expires) {
      if i == 8 {
        assert AsciiLower(s[i + 1]) != Name(Expires)[1];
      } else if i < 10 {
        assert AsciiLower(s[i + 0]) != Name(Expires)[0];
      } else {
        assert s[i + 0] == d[i - 10];
        assert AsciiLower(s[i + 0]) != Name(Expires)[0];
      }
    }
  }

  lemma {:induction false} ExpiresAttrMentions(v: string)
    requires ExpiresValue(v)
    ensures !Mentions("; Expires=" + v, MaxAge)
    ensures Mentions("; Expires=" + v, Expires)
  {
    var s := "; Expires=" + v;
    MentionsAfter(MaxAge, "; Expires=", v);
    assert NameAt(s, 2, Expires);
  }

  lemma {:induction false} AttrMentions(x: CookieAttr, a: Attribute)
    requires AttrWellFormed(x)
    ensures Mentions(RenderAttr(x), a) <==> Is(a, x)
  {
    match x
    case Other(t) => PlainOther(t);
    case MaxAgeAttr(d) => MaxAgeAttrMentions(d);
    case ExpiresAttr(v) => ExpiresAttrMentions(v);
  }

  /** A setting `Max-Age=<digits>` or `Expires=<value>` is one whole match. */
  lemma {:induction false} SettingMatches(a: Attribute, w: string)
    requires |w| > 0 && forall i | 0 <= i < |w| :: ValueChar(a, w[i])
    ensures MatchAt(a, Setting(a, w)) == Some(|Setting(a, w)|)
  {
    var t := Setting(a, w);
    assert NameAt(t, 0, a);
    assert t[8..] == w;
    ValueRunAll(a, w);
  }

  /** `; ` and a setting: the setting is replaced whole. */
  lemma {:induction false} SettingReplace(a: Attribute, w: string, rep: string)
    requires |w| > 0 && forall i | 0 <= i < |w| :: ValueChar(a, w[i])
    ensures ReplaceAll(a, "; " + Setting(a, w), rep) == "; " + rep
  {
    var t := Setting(a, w);
    var s := "; " + t;
    assert s[1..] == " " + t;
    SeparatorNoMatch(a, s);
    SeparatorNoMatch(a, s[1..]);
    assert s[1..][1..] == t;
    SettingMatches(a, w);
    assert t[|t|..] == [];
    assert ReplaceAll(a, t, rep) == rep;
  }

  /** No match starts at a separator character. */
  lemma {:induction false} SeparatorNoMatch(a: Attribute, s: string)
    requires |s| > 0 && (s[0] == ';' || s[0] == ' ')
    ensures MatchAt(a, s).None?
  {
    assert AsciiLower(s[0 + 0]) != Name(a)[0];
  }

  lemma {:induction false} RenderMake(a: Attribute, v: string)
    ensures RenderAttr(Make(a, v)) == "; " + Setting(a, v)
  {
    match a
    case MaxAge =>
    case Expires =>
  }

  lemma {:induction false} AttrReplaceOther(x: CookieAttr, a: Attribute, rep: string)
    requires AttrWellFormed(x) && !Is(a, x)
    ensures ReplaceAll(a, RenderAttr(x), rep) == RenderAttr(x)
  {
    AttrMentions(x, a);
    ReplaceAllUnmentioned(a, RenderAttr(x), rep);
  }

  lemma {:induction false} AttrReplaceSame(x: CookieAttr, a: Attribute, v: string)
    requires AttrWellFormed(x) && Is(a, x) && ValueFor(a, v)
    ensures ReplaceAll(a, RenderAttr(x), Setting(a, v)) == RenderAttr(Make(a, v))
  {
    var w := if a == MaxAge then x.digits else x.value;
    assert x == Make(a, w) && forall i | 0 <= i < |w| :: ValueChar(a, w[i]) by {
      match a
      case MaxAge =>
      case Expires =>
    }
    RenderMake(a, w);
    SettingReplace(a, w, Setting(a, v));
    RenderMake(a, v);
  }

  /** The rewrite of one attribute. */
  lemma {:induction false} AttrReplace(x: CookieAttr, a: Attribute, v: string)
    requires AttrWellFormed(x) && ValueFor(a, v)
    ensures ReplaceAll(a, RenderAttr(x), Setting(a, v)) == RenderAttr(if Is(a, x) then Make(a, v) else x)
  {
    if Is(a, x) {
      AttrReplaceSame(x, a, v);
    } else {
      AttrReplaceOther(x, a, Setting(a, v));
    }
  }

  lemma {:induction false} AttrsMentions(attrs: seq<CookieAttr>, a: Attribute)
    requires forall i | 0 <= i < |attrs| :: AttrWellFormed(attrs[i])
    ensures Mentions(Attrs(attrs), a) <==> Has(a, attrs)
  {
    if attrs == [] {
      assert !Mentions([], a);
    } else {
      AttrMentions(attrs[0], a);
      AttrsMentions(attrs[1..], a);
      MentionsConcat(a, RenderAttr(attrs[0]), Attrs(attrs[1..]));
      if Has(a, attrs[1..]) {
        var i :| 0 <= i < |attrs[1..]| && Is(a, attrs[1..][i]);
        assert Is(a, attrs[i + 1]);
      }
      if Has(a, attrs) && !Is(a, attrs[0]) {
        var i :| 0 <= i < |attrs| && Is(a, attrs[i]);
        assert Is(a, attrs[1..][i - 1]);
      }
    }
  }

  lemma {:induction false} AttrsReplace(attrs: seq<CookieAttr>, a: Attribute, v: string)
    requires forall i | 0 <= i < |attrs| :: AttrWellFormed(attrs[i])
    requires ValueFor(a, v)
    ensures ReplaceAll(a, Attrs(attrs), Setting(a, v)) == Attrs(SetAll(a, attrs, v))
  {
    if attrs != [] {
      var rest := Attrs(attrs[1..]);
      ReplaceAllConcat(a, RenderAttr(attrs[0]), rest, Setting(a, v));
      AttrReplace(attrs[0], a, v);
      AttrsReplace(attrs[1..], a, v);
      assert SetAll(a, attrs, v)[1..] == SetAll(a, attrs[1..], v);
    }
  }

  lemma {:induction false} AttrsAppend(attrs: seq<CookieAttr>, x: CookieAttr)
    ensures Attrs(attrs + [x]) == Attrs(attrs) + RenderAttr(x)
  {
    if attrs == [] {
      assert [x][1..] == [];
    } else {
      assert (attrs + [x])[1..] == attrs[1..] + [x];
      AttrsAppend(attrs[1..], x);
    }
  }

  /** A rendered cookie mentions an attribute exactly when it has one of that kind. */
  lemma {:induction false} RenderMentions(head: string, attrs: seq<CookieAttr>, a: Attribute)
    requires WellFormed(head, attrs)
    ensures Mentions(Render(head, attrs), a) <==> Has(a, attrs)
  {
    AttrsMentions(attrs, a);
    MentionsConcat(a, head, Attrs(attrs));
  }

  lemma {:induction false} RenderReplace(head: string, attrs: seq<CookieAttr>, a: Attribute, v: string)
    requires WellFormed(head, attrs) && ValueFor(a, v)
    ensures ReplaceAll(a, Render(head, attrs), Setting(a, v)) == Render(head, SetAll(a, attrs, v))
  {
    ReplaceAllConcat(a, head, Attrs(attrs), Setting(a, v));
    ReplaceAllUnmentioned(a, head, Setting(a, v));
    AttrsReplace(attrs, a, v);
  }

  /** One attribute kind brought to `v`: every one of them rewritten, or one appended when there is none. */
  function Bring(a: Attribute, attrs: seq<CookieAttr>, v: string): seq<CookieAttr> {
    if Has(a, attrs) then SetAll(a, attrs, v) else attrs + [Make(a, v)]
  }

  /** The attributes after `formatCookieDuration`. */
  function Formatted(attrs: seq<CookieAttr>, maxAgeSeconds: int, expires: string): seq<CookieAttr> {
    var withMaxAge := if maxAgeSeconds > 0 then Bring(MaxAge, attrs, IntToString(maxAgeSeconds)) else attrs;
    Bring(Expires, withMaxAge, expires)
  }

  lemma {:induction false} BringWellFormed(head: string, attrs: seq<CookieAttr>, a: Attribute, v: string)
    requires WellFormed(head, attrs) && ValueFor(a, v)
    ensures WellFormed(head, Bring(a, attrs, v))
  {
    var x := Make(a, v);
    assert AttrWellFormed(x);
    if !Has(a, attrs) {
      var r := attrs + [x];
      assert forall i | 0 <= i < |attrs| :: r[i] == attrs[i];
    }
  }

  lemma {:induction false} BringRenders(head: string, attrs: seq<CookieAttr>, a: Attribute, v: string)
    requires WellFormed(head, attrs) && ValueFor(a, v)
    ensures Step(a, Render(head, attrs), v) == Render(head, Bring(a, attrs, v))
  {
    if Has(a, attrs) {
      BringRendersPresent(head, attrs, a, v);
    } else {
      BringRendersAbsent(head, attrs, a, v);
    }
  }

  lemma {:induction false} BringRendersPresent(head: string, attrs: seq<CookieAttr>, a: Attribute, v: string)
    requires WellFormed(head, attrs) && ValueFor(a, v) && Has(a, attrs)
    ensures Step(a, Render(head, attrs), v) == Render(head, SetAll(a, attrs, v))
  {
    RenderMentions(head, attrs, a);
    RenderReplace(head, attrs, a, v);
  }

  lemma {:induction false} BringRendersAbsent(head: string, attrs: seq<CookieAttr>, a: Attribute, v: string)
    requires WellFormed(head, attrs) && ValueFor(a, v) && !Has(a, attrs)
    ensures Step(a, Render(head, attrs), v) == Render(head, attrs + [Make(a, v)])
  {
    RenderMentions(head, attrs, a);
    AttrsAppend(attrs, Make(a, v));
    RenderMake(a, v);
  }

  lemma {:induction false} BringStep(head: string, attrs: seq<CookieAttr>, a: Attribute, v: string)
    requires WellFormed(head, attrs) && ValueFor(a, v)
    ensures WellFormed(head, Bring(a, attrs, v))
    ensures Step(a, Render(head, attrs), v) == Render(head, Bring(a, attrs, v))
  {
    BringWellFormed(head, attrs, a, v);
    BringRenders(head, attrs, a, v);
  }

  /**
   * On a well-formed cookie the rewrite works attribute by attribute: every
   * Max-Age attribute gets the new seconds (one is appended when there is
   * none), every Expires attribute the new date (likewise), and the head and
   * the other attributes stay as they were.
   */
  lemma {:induction false} FormatStructured(head: string, attrs: seq<CookieAttr>, maxAgeSeconds: int, expires: string)
    requires WellFormed(head, attrs) && ExpiresValue(expires)
    ensures FormatCookieDuration(Render(head, attrs), maxAgeSeconds, expires) == Render(head, Formatted(attrs, maxAgeSeconds, expires))
    ensures WellFormed(head, Formatted(attrs, maxAgeSeconds, expires))
  {
    var n := maxAgeSeconds;
    var withMaxAge := if n > 0 then Bring(MaxAge, attrs, IntToString(n)) else attrs;
    if n > 0 {
      BringStep(head, attrs, MaxAge, IntToString(n));
    }
    BringStep(head, withMaxAge, Expires, expires);
  }

  lemma {:induction false} SetAllTwice(a: Attribute, attrs: seq<CookieAttr>, v: string)
    ensures SetAll(a, SetAll(a, attrs, v), v) == SetAll(a, attrs, v)
  {
  }

  lemma {:induction false} HasAfterBring(a: Attribute, attrs: seq<CookieAttr>, v: string)
    ensures Has(a, Bring(a, attrs, v))
    ensures forall i | 0 <= i < |Bring(a, attrs, v)| && Is(a, Bring(a, attrs, v)[i]) :: Bring(a, attrs, v)[i] == Make(a, v)
  {
    var r := Bring(a, attrs, v);
    if Has(a, attrs) {
      var i :| 0 <= i < |attrs| && Is(a, attrs[i]);
      assert Is(a, r[i]);
    } else {
      assert Is(a, r[|attrs|]);
    }
  }

  /** Bringing a kind of attribute to a value that it already has everywhere changes nothing, and leaves the other kind alone. */
  lemma {:induction false} BringSettled(a: Attribute, attrs: seq<CookieAttr>, v: string)
    requires Has(a, attrs)
    requires forall i | 0 <= i < |attrs| && Is(a, attrs[i]) :: attrs[i] == Make(a, v)
    ensures Bring(a, attrs, v) == attrs
  {
  }

  lemma {:induction false} BringKeepsOther(a: Attribute, b: Attribute, attrs: seq<CookieAttr>, v: string)
    requires a != b
    ensures Has(b, attrs) ==> Has(b, Bring(a, attrs, v))
    ensures forall i | 0 <= i < |Bring(a, attrs, v)| && Is(b, Bring(a, attrs, v)[i]) :: i < |attrs| && Bring(a, attrs, v)[i] == attrs[i]
  {
    if Has(b, attrs) {
      var i :| 0 <= i < |attrs| && Is(b, attrs[i]);
      assert Bring(a, attrs, v)[i] == attrs[i];
    }
  }

  /** Formatting the formatted attributes again changes nothing. */
  lemma {:induction false} FormattedIdempotent(attrs: seq<CookieAttr>, maxAgeSeconds: int, expires: string)
    ensures Formatted(Formatted(attrs, maxAgeSeconds, expires), maxAgeSeconds, expires) == Formatted(attrs, maxAgeSeconds, expires)
  {
    var n := maxAgeSeconds;
    var once := Formatted(attrs, n, expires);
    var withMaxAge := if n > 0 then Bring(MaxAge, attrs, IntToString(n)) else attrs;
    HasAfterBring(Expires, withMaxAge, expires);
    if n > 0 {
      HasAfterBring(MaxAge, attrs, IntToString(n));
      BringKeepsOther(Expires, MaxAge, withMaxAge, expires);
      BringSettled(MaxAge, once, IntToString(n));
    }
    BringSettled(Expires, once, expires);
  }

  /**
   * Applying the rewrite twice gives what applying it once gives, for any
   * cookie made of plain head and attributes and any Expires value.
   */
  lemma {:induction false} FormatIdempotent(head: string, attrs: seq<CookieAttr>, maxAgeSeconds: int, expires: string)
    requires WellFormed(head, attrs) && ExpiresValue(expires)
    ensures var once := FormatCookieDuration(Render(head, attrs), maxAgeSeconds, expires);
      FormatCookieDuration(once, maxAgeSeconds, expires) == once
  {
    FormatStructured(head, attrs, maxAgeSeconds, expires);
    var f := Formatted(attrs, maxAgeSeconds, expires);
    FormatStructured(head, f, maxAgeSeconds, expires);
    FormattedIdempotent(attrs, maxAgeSeconds, expires);
  }

  /**
   * After the rewrite the cookie carries `Max-Age=<seconds>` (for positive
   * seconds) and `Expires=<date>`, and every attribute of either kind has the
   * new value.
   */
  lemma {:induction false} FormatSetsBoth(head: string, attrs: seq<CookieAttr>, maxAgeSeconds: int, expires: string)
    requires WellFormed(head, attrs) && ExpiresValue(expires)
    ensures var f := Formatted(attrs, maxAgeSeconds, expires);
      && (maxAgeSeconds > 0 ==> MaxAgeAttr(IntToString(maxAgeSeconds)) in f)
      && ExpiresAttr(expires) in f
      && (forall i | 0 <= i < |f| && f[i].ExpiresAttr? :: f[i].value == expires)
      && (maxAgeSeconds > 0 ==> forall i | 0 <= i < |f| && f[i].MaxAgeAttr? :: f[i].digits == IntToString(maxAgeSeconds))
  {
    var n := maxAgeSeconds;
    var withMaxAge := if n > 0 then Bring(MaxAge, attrs, IntToString(n)) else attrs;
    var f := Formatted(attrs, n, expires);
    HasAfterBring(Expires, withMaxAge, expires);
    var j :| 0 <= j < |f| && Is(Expires, f[j]);
    if n > 0 {
      HasAfterBring(MaxAge, attrs, IntToString(n));
      BringKeepsOther(Expires, MaxAge, withMaxAge, expires);
      var i :| 0 <= i < |f| && Is(MaxAge, f[i]);
      assert f[i] == withMaxAge[i];
    }
  }

  /** A cookie with neither attribute gets `; Max-Age=<seconds>` and then `; Expires=<date>` appended. */
  lemma {:induction false} FormatAppendsWhenAbsent(cookie: string, maxAgeSeconds: int, expires: string)
    requires Plain(cookie) && ExpiresValue(expires) && maxAgeSeconds > 0
    ensures FormatCookieDuration(cookie, maxAgeSeconds, expires) == cookie + "; Max-Age=" + IntToString(maxAgeSeconds) + "; Expires=" + expires
  {
    var d := IntToString(maxAgeSeconds);
    var updated := cookie + "; Max-Age=" + d;
    MaxAgeAppends(cookie, d);
    ExpiresAppends(updated, expires);
  }

  lemma {:induction false} MaxAgeAppends(cookie: string, d: string)
    requires Plain(cookie) && MaxAgeValue(d)
    ensures Step(MaxAge, cookie, d) == cookie + "; Max-Age=" + d
    ensures !Mentions(cookie + "; Max-Age=" + d, Expires)
  {
    var tail := "; Max-Age=" + d;
    assert cookie + "; " + Setting(MaxAge, d) == cookie + tail;
    MaxAgeAttrMentions(d);
    MentionsConcat(Expires, cookie, tail);
    assert cookie + tail == cookie + "; Max-Age=" + d;
  }

  lemma {:induction false} ExpiresAppends(cookie: string, expires: string)
    requires !Mentions(cookie, Expires)
    ensures Step(Expires, cookie, expires) == cookie + "; Expires=" + expires
  {
    assert cookie + "; " + Setting(Expires, expires) == cookie + "; Expires=" + expires;
  }

  // ---------------------------------------------------------------------
  // Outside that shape the rewrite keeps neither promise.

  /** Where no suffix starts a match, the replacement changes nothing. */
  lemma {:induction false} ReplaceAllNoMatch(a: Attribute, s: string, rep: string)
    requires forall i | 0 <= i < |s| :: MatchAt(a, s[i..]).None?
    ensures ReplaceAll(a, s, rep) == s
    decreases |s|
  {
    if s != [] {
      assert s[0..] == s;
      forall i | 0 <= i < |s[1..]| ensures MatchAt(a, s[1..][i..]).None? {
        assert s[1..][i..] == s[i + 1..];
      }
      ReplaceAllNoMatch(a, s[1..], rep);
    }
  }

  /** `Max-Age=` without digits is mentioned but never matched, so the new seconds are not written. */
  lemma {:induction false} MaxAgeNotSetExample(c: string, e: string)
    requires c == "Max-Age=" && e == "E"
    ensures FormatCookieDuration(c, 1, e) == c + "; Expires=" + e
  {
    assert IntToString(1) == "1";
    assert NameAt(c, 0, MaxAge);
    forall i | 0 <= i < |c| ensures MatchAt(MaxAge, c[i..]).None? {
      if i == 0 {
        assert c[0..][8..] == [];
      }
    }
    ReplaceAllNoMatch(MaxAge, c, Setting(MaxAge, "1"));
    assert Step(MaxAge, c, "1") == c;
    assert AsciiLower(c[0 + 0]) != Name(Expires)[0];
    assert !Mentions(c, Expires);
    assert Step(Expires, c, e) == c + "; " + Setting(Expires, e);
  }

  lemma {:induction false} DigitlessMaxAgeKept(c: string)
    requires c == "Expires=Max-Age="
    ensures Step(MaxAge, c, "1") == c
  {
    assert NameAt(c, 8, MaxAge);
    forall i | 0 <= i < |c| ensures MatchAt(MaxAge, c[i..]).None? {
      if i < 8 {
        assert AsciiLower(c[i..][0 + 0]) != Name(MaxAge)[0];
      } else if i == 8 {
        assert c[i..][8..] == [];
      }
    }
    ReplaceAllNoMatch(MaxAge, c, Setting(MaxAge, "1"));
  }

  lemma {:induction false} ExpiresValueToEnd(c: string, e: string)
    requires c == "Expires=Max-Age=" && e == "E"
    ensures Step(Expires, c, e) == Setting(Expires, e)
  {
    var rep := Setting(Expires, e);
    assert NameAt(c, 0, Expires);
    assert MatchAt(Expires, c) == Some(16) by {
      ValueRunAll(Expires, c[8..]);
    }
    assert c[16..] == [];
    assert ReplaceAll(Expires, c, rep) == rep + ReplaceAll(Expires, c[16..], rep);
  }

  lemma {:induction false} MaxAgeAppended(once: string, tail: string)
    requires once == "Expires=E" && tail == "; Max-Age=1"
    ensures Step(MaxAge, once, "1") == once + tail
  {
    assert AsciiLower(once[0 + 0]) != Name(MaxAge)[0];
    assert AsciiLower(once[1 + 0]) != Name(MaxAge)[0];
    assert !Mentions(once, MaxAge);
  }

  lemma {:induction false} ExpiresRewrittenInPlace(once: string, tail: string, e: string)
    requires once == "Expires=E" && tail == "; Max-Age=1" && e == "E"
    ensures Step(Expires, once + tail, e) == once + tail
  {
    var rep := Setting(Expires, e);
    assert NameAt(once + tail, 0, Expires);
    assert ReplaceAll(Expires, once + tail, rep) == ReplaceAll(Expires, once, rep) + ReplaceAll(Expires, tail, rep) by {
      ReplaceAllConcat(Expires, once, tail, rep);
    }
    assert ReplaceAll(Expires, tail, rep) == tail by {
      MaxAgeAttrMentions("1");
      assert tail == "; Max-Age=" + "1";
      ReplaceAllUnmentioned(Expires, tail, rep);
    }
    assert ReplaceAll(Expires, once, rep) == rep by {
      assert NameAt(once, 0, Expires);
      assert MatchAt(Expires, once) == Some(9) by {
        ValueRunAll(Expires, once[8..]);
      }
      assert once[9..] == [];
      assert ReplaceAll(Expires, once, rep) == rep + ReplaceAll(Expires, once[9..], rep);
    }
  }

  /** An Expires value swallows a Max-Age that follows it in the same attribute, so a second rewrite appends Max-Age again. */
  lemma {:induction false} NotIdempotentExample(c: string, once: string, tail: string)
    requires c == "Expires=Max-Age=" && once == "Expires=E" && tail == "; Max-Age=1"
    ensures FormatCookieDuration(c, 1, "E") == once
    ensures FormatCookieDuration(once, 1, "E") == once + tail
  {
    assert IntToString(1) == "1";
    DigitlessMaxAgeKept(c);
    ExpiresValueToEnd(c, "E");
    MaxAgeAppended(once, tail);
    ExpiresRewrittenInPlace(once, tail, "E");
  }
}
