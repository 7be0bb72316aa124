/** Weak entity tags: what the server emits and how an If-None-Match header is compared with it.

    The matcher splits the header at every comma, although a comma is a legal character inside a
    quoted tag (section 8.8.3 of RFC 9110). The main result is that, for tags the server itself
    makes, this is exact on every well-formed list.
 */
module ETag {
  import opened Text

  const DQUOTE := '"'

  /** `strings.TrimPrefix(s, "W/")`. */
  function StripWeak(s: string): string {
    if |s| >= 2 && s[..2] == "W/" then s[2..] else s
  }

  function HexDigit(n: nat): (c: char)
    requires n < 16
    ensures '0' <= c <= '9' || 'a' <= c <= 'f'
  {
    "0123456789abcdef"[n]
  }

  function Hex(bytes: seq<nat>): string
    requires forall i :: 0 <= i < |bytes| ==> bytes[i] < 256
  {
    if bytes == [] then "" else [HexDigit(bytes[0] / 16), HexDigit(bytes[0] % 16)] + Hex(bytes[1..])
  }

  /** The tag made from a digest; the digest itself is a parameter. */
  function ETagFor(digest: seq<nat>): string
    requires forall i :: 0 <= i < |digest| ==> digest[i] < 256
  {
    "W/\"" + Hex(digest) + "\""
  }

  function MatchesAny(candidates: seq<string>, tag: string): bool {
    candidates != [] && (StripWeak(TrimSpace(candidates[0])) == tag || MatchesAny(candidates[1..], tag))
  }

  /** Whether an If-None-Match header matches `etag` under weak comparison. */
  function ETagMatches(ifNoneMatch: string, etag: string): bool {
    var header := TrimSpace(ifNoneMatch);
    if header == "" then false
    else if header == "*" then true
    else MatchesAny(Split(header, ','), StripWeak(etag))
  }

  // ---------------------------------------------------------------------------
  // The grammar of section 8.8.3 of RFC 9110
  // ---------------------------------------------------------------------------

  predicate IsEtagChar(c: char) {
    c == '!' || '#' <= c <= '~' || c >= '\U{0080}'
  }

  /** entity-tag = [ "W/" ] DQUOTE *etagc DQUOTE */
  datatype EntityTag = EntityTag(weak: bool, body: string)

  predicate WellFormed(t: EntityTag) {
    forall i :: 0 <= i < |t.body| ==> IsEtagChar(t.body[i])
  }

  function Quoted(t: EntityTag): string {
    [DQUOTE] + t.body + [DQUOTE]
  }

  function Written(t: EntityTag): string {
    (if t.weak then "W/" else "") + Quoted(t)
  }

  /** Weak comparison, section 8.8.3.2: the opaque parts are equal. */
  predicate WeaklyEqual(a: EntityTag, b: EntityTag) {
    a.body == b.body
  }

  /** One list element: optional white space around a tag, or nothing at all (a recipient must
      accept empty elements, section 5.6.1). */
  datatype Element = Element(before: string, tag: TagOrNone, after: string)
  datatype TagOrNone = NoTag | Tag(t: EntityTag)

  predicate IsOws(s: string) {
    forall i :: 0 <= i < |s| ==> s[i] == ' ' || s[i] == '\t'
  }

  predicate ElementOk(e: Element) {
    IsOws(e.before) && IsOws(e.after) && (e.tag.Tag? ==> WellFormed(e.tag.t))
  }

  function ElementText(e: Element): string {
    e.before + (if e.tag.Tag? then Written(e.tag.t) else "") + e.after
  }

  function HeaderText(es: seq<Element>): string
    requires es != []
  {
    if |es| == 1 then ElementText(es[0]) else ElementText(es[0]) + "," + HeaderText(es[1..])
  }

  // ---------------------------------------------------------------------------
  // Quotes are what separates a whole tag from a piece of one
  // ---------------------------------------------------------------------------

  function Quotes(s: string): nat {
    if s == "" then 0 else (if s[0] == DQUOTE then 1 else 0) + Quotes(s[1..])
  }

  lemma {:induction false} QuotesConcat(a: string, b: string)
    ensures Quotes(a + b) == Quotes(a) + Quotes(b)
  {
    if a == "" {
      assert a + b == b;
    } else {
      assert (a + b)[1..] == a[1..] + b;
      QuotesConcat(a[1..], b);
    }
  }

  lemma {:induction false} QuotesOfPlain(s: string)
    requires DQUOTE !in s
    ensures Quotes(s) == 0
  {
    if s != "" { QuotesOfPlain(s[1..]); }
  }

  lemma {:induction false} QuotesOfPart(s: string, a: nat, b: nat)
    requires a <= b <= |s|
    ensures Quotes(s[a..b]) <= Quotes(s)
  {
    assert s == s[..a] + (s[a..b] + s[b..]);
    QuotesConcat(s[..a], s[a..b] + s[b..]);
    QuotesConcat(s[a..b], s[b..]);
  }

  /** A piece has no more quotes than the text it came from. */
  lemma {:induction false} QuotesOfPieces(s: string, i: nat)
    requires i < |Split(s, ',')|
    ensures Quotes(Split(s, ',')[i]) <= Quotes(s)
  {
    if s != "" {
      var rest := Split(s[1..], ',');
      if s[0] == ',' {
        if i > 0 { QuotesOfPieces(s[1..], i - 1); }
      } else {
        QuotesOfPieces(s[1..], i);
        if i == 0 {
          assert ([s[0]] + rest[0])[1..] == rest[0];
        }
      }
    }
  }

  /** What a candidate is compared as. */
  function Core(candidate: string): string {
    StripWeak(TrimSpace(candidate))
  }

  lemma CoreQuotes(candidate: string)
    ensures Quotes(Core(candidate)) <= Quotes(candidate)
  {
    var a, b := TrimIsPart(candidate, IsSpace);
    QuotesOfPart(candidate, a, b);
    var t := TrimSpace(candidate);
    if |t| >= 2 { QuotesOfPart(t, 2, |t|); }
  }

  lemma {:induction false} MatchesConcat(a: seq<string>, b: seq<string>, tag: string)
    ensures MatchesAny(a + b, tag) <==> MatchesAny(a, tag) || MatchesAny(b, tag)
  {
    if a == [] {
      assert a + b == b;
    } else {
      assert (a + b)[1..] == a[1..] + b;
      MatchesConcat(a[1..], b, tag);
    }
  }

  /** Pieces with fewer quotes than the tag cannot match it. */
  lemma {:induction false} FewQuotesNoMatch(pieces: seq<string>, tag: string)
    requires forall i :: 0 <= i < |pieces| ==> Quotes(pieces[i]) < Quotes(tag)
    ensures !MatchesAny(pieces, tag)
  {
    if pieces != [] {
      CoreQuotes(pieces[0]);
      FewQuotesNoMatch(pieces[1..], tag);
    }
  }

  // ---------------------------------------------------------------------------
  // Main results
  // ---------------------------------------------------------------------------

  /** Reading two hexadecimal digits back. */
  function DigitValue(c: char): int {
    if '0' <= c <= '9' then c as int - '0' as int
    else if 'a' <= c <= 'f' then c as int - 'a' as int + 10
    else -1
  }

  function Unhex(s: string): seq<int> {
    if |s| < 2 then [] else [16 * DigitValue(s[0]) + DigitValue(s[1])] + Unhex(s[2..])
  }

  /** The digest can be read back from the tag, so different digests give different tags. */
  lemma {:induction false} HexReadsBack(bytes: seq<nat>)
    requires forall i :: 0 <= i < |bytes| ==> bytes[i] < 256
    ensures |Hex(bytes)| == 2 * |bytes| && Unhex(Hex(bytes)) == bytes
  {
    if bytes != [] {
      HexReadsBack(bytes[1..]);
      assert Hex(bytes)[2..] == Hex(bytes[1..]);
      DigitReadsBack(bytes[0] / 16);
      DigitReadsBack(bytes[0] % 16);
    }
  }

  lemma DigitReadsBack(n: nat)
    requires n < 16
    ensures DigitValue(HexDigit(n)) == n
  {
  }

  lemma DifferentDigestsDiffer(a: seq<nat>, b: seq<nat>)
    requires forall i :: 0 <= i < |a| ==> a[i] < 256
    requires forall i :: 0 <= i < |b| ==> b[i] < 256
    ensures ETagFor(a) == ETagFor(b) <==> a == b
  {
    hide Hex, Unhex;
    HexReadsBack(a);
    HexReadsBack(b);
    if ETagFor(a) == ETagFor(b) {
      assert ETagFor(a)[3..|ETagFor(a)| - 1] == Hex(a);
      assert ETagFor(b)[3..|ETagFor(b)| - 1] == Hex(b);
    }
  }

  lemma {:induction false} HexIsPlain(bytes: seq<nat>)
    requires forall i :: 0 <= i < |bytes| ==> bytes[i] < 256
    ensures |Hex(bytes)| == 2 * |bytes|
    ensures forall c :: c in Hex(bytes) ==> '0' <= c <= '9' || 'a' <= c <= 'f'
  {
    if bytes != [] { HexIsPlain(bytes[1..]); }
  }

  /** A server-made tag is a well-formed weak entity tag whose opaque part is the hex digest. */
  lemma ServerTagShape(digest: seq<nat>)
    requires forall i :: 0 <= i < |digest| ==> digest[i] < 256
    ensures
      var t := EntityTag(true, Hex(digest));
      && WellFormed(t) && ETagFor(digest) == Written(t)
      && StripWeak(ETagFor(digest)) == Quoted(t) && Quotes(Quoted(t)) == 2
      && |ETagFor(digest)| == 2 * |digest| + 4
      && ',' !in t.body
  {
    HexIsPlain(digest);
    var t := EntityTag(true, Hex(digest));
    assert ETagFor(digest) == "W/" + Quoted(t);
    assert DQUOTE !in t.body;
    QuotesOfQuoted(t);
  }

  lemma QuotesOfQuoted(t: EntityTag)
    requires DQUOTE !in t.body
    ensures Quotes(Quoted(t)) == 2
  {
    QuotesOfPlain(t.body);
    QuotesConcat([DQUOTE] + t.body, [DQUOTE]);
    QuotesConcat([DQUOTE], t.body);
    assert [DQUOTE][1..] == "";
    assert Quotes([DQUOTE]) == 1;
  }

  lemma PlainPadding(s: string)
    requires IsOws(s)
    ensures ',' !in s && DQUOTE !in s && Quotes(s) == 0
    ensures forall i :: 0 <= i < |s| ==> IsSpace(s[i])
  {
    QuotesOfPlain(s);
  }

  lemma WrittenIsTight(t: EntityTag)
    ensures Tight(Written(t), IsSpace) && StripWeak(Written(t)) == Quoted(t)
  {
    var w := Written(t);
    assert w[|w| - 1] == DQUOTE;
  }

  /** The text before and after a comma inside the tag of e. */
  function LeftOf(e: Element, k: nat): string
    requires e.tag.Tag? && k < |e.tag.t.body|
  {
    (e.before + (if e.tag.t.weak then "W/" else "")) + [DQUOTE] + e.tag.t.body[..k]
  }

  function RightOf(e: Element, k: nat): string
    requires e.tag.Tag? && k < |e.tag.t.body|
  {
    e.tag.t.body[k + 1..] + [DQUOTE] + e.after
  }

  lemma SplitInside(e: Element, k: nat)
    requires e.tag.Tag? && k < |e.tag.t.body| && e.tag.t.body[k] == ','
    ensures ElementText(e) == LeftOf(e, k) + [','] + RightOf(e, k)
  {
    var x, y := e.tag.t.body[..k], e.tag.t.body[k + 1..];
    assert e.tag.t.body == x + [','] + y;
    Regroup(e.before, if e.tag.t.weak then "W/" else "", x, y, e.after);
  }

  lemma Regroup(a: string, w: string, x: string, y: string, z: string)
    ensures a + (w + ([DQUOTE] + (x + [','] + y) + [DQUOTE])) + z == ((a + w) + [DQUOTE] + x) + [','] + (y + [DQUOTE] + z)
  {
    var q := [DQUOTE];
    assert q + (x + [','] + y) + q == (q + x) + [','] + (y + q);
    assert w + ((q + x) + [','] + (y + q)) == (w + (q + x)) + [','] + (y + q);
    assert a + ((w + (q + x)) + [','] + (y + q)) == (a + (w + (q + x))) + [','] + (y + q);
    assert (a + (w + (q + x))) + [','] + (y + q) + z == (a + (w + (q + x))) + [','] + ((y + q) + z);
    assert a + (w + (q + x)) == (a + w) + q + x;
  }

  lemma HalvesHaveOneQuote(e: Element, k: nat)
    requires ElementOk(e) && e.tag.Tag? && k < |e.tag.t.body|
    ensures Quotes(LeftOf(e, k)) == 1 && Quotes(RightOf(e, k)) == 1
  {
    hide Quotes;
    assert DQUOTE !in e.tag.t.body;
    PlainPadding(e.before);
    PlainPadding(e.after);
    OneQuote(e.before + (if e.tag.t.weak then "W/" else ""), e.tag.t.body[..k]);
    OneQuote(e.tag.t.body[k + 1..], e.after);
  }

  /** A tag with a comma inside falls apart into pieces that each lack a quote. */
  lemma BrokenTagNeverMatches(e: Element, tag: string)
    requires ElementOk(e) && e.tag.Tag? && ',' in e.tag.t.body && Quotes(tag) == 2
    ensures !MatchesAny(Split(ElementText(e), ','), tag)
  {
    hide Quotes, MatchesAny, Split, LeftOf, RightOf, ElementText;
    var k :| 0 <= k < |e.tag.t.body| && e.tag.t.body[k] == ',';
    SplitInside(e, k);
    HalvesHaveOneQuote(e, k);
    OneQuoteEach(LeftOf(e, k), tag);
    OneQuoteEach(RightOf(e, k), tag);
    SplitConcat(LeftOf(e, k), RightOf(e, k), ',');
    MatchesConcat(Split(LeftOf(e, k), ','), Split(RightOf(e, k), ','), tag);
  }

  /** Text with at most one quote holds no piece that matches a quoted tag. */
  lemma OneQuoteEach(text: string, tag: string)
    requires Quotes(text) < Quotes(tag)
    ensures !MatchesAny(Split(text, ','), tag)
  {
    forall i | 0 <= i < |Split(text, ',')| ensures Quotes(Split(text, ',')[i]) < Quotes(tag) {
      QuotesOfPieces(text, i);
    }
    FewQuotesNoMatch(Split(text, ','), tag);
  }

  lemma OneQuote(a: string, b: string)
    requires DQUOTE !in a && DQUOTE !in b
    ensures Quotes(a + [DQUOTE] + b) == 1
  {
    QuotesOfPlain(a);
    QuotesOfPlain(b);
    QuotesConcat(a + [DQUOTE], b);
    QuotesConcat(a, [DQUOTE]);
    assert [DQUOTE][1..] == "";
  }

  lemma MatchOne(text: string, tag: string)
    ensures MatchesAny([text], tag) <==> Core(text) == tag
  {
    assert [text][1..] == [];
  }

  lemma WholeElement(e: Element)
    requires ElementOk(e) && (e.tag.Tag? ==> ',' !in e.tag.t.body)
    ensures ',' !in ElementText(e)
    ensures e.tag.Tag? ==> Core(ElementText(e)) == Quoted(e.tag.t)
    ensures e.tag.NoTag? ==> Quotes(Core(ElementText(e))) == 0
  {
    hide Quotes;
    PlainPadding(e.before);
    PlainPadding(e.after);
    if e.tag.Tag? {
      WrittenIsTight(e.tag.t);
      TrimAround(e.before, Written(e.tag.t), e.after, IsSpace);
    } else {
      assert ElementText(e) == e.before + e.after;
      QuotesConcat(e.before, e.after);
      CoreQuotes(ElementText(e));
    }
  }

  /** One list element matches exactly when it is a tag with the same opaque part. */
  lemma ElementExact(e: Element, t: EntityTag)
    requires ElementOk(e) && ',' !in t.body && DQUOTE !in t.body
    ensures MatchesAny(Split(ElementText(e), ','), Quoted(t)) <==> e.tag.Tag? && WeaklyEqual(e.tag.t, t)
  {
    hide Quotes, MatchesAny, Split, ElementText, Quoted, Core;
    QuotesOfQuoted(t);
    if e.tag.Tag? && ',' in e.tag.t.body {
      BrokenTagNeverMatches(e, Quoted(t));
    } else {
      WholeElement(e);
      SplitWhole(ElementText(e), ',');
      MatchOne(ElementText(e), Quoted(t));
      if e.tag.Tag? {
        SameQuoted(e.tag.t, t);
      }
    }
  }

  lemma SameQuoted(a: EntityTag, b: EntityTag)
    ensures Quoted(a) == Quoted(b) <==> a.body == b.body
  {
    assert Quoted(a)[1..|Quoted(a)| - 1] == a.body;
    assert Quoted(b)[1..|Quoted(b)| - 1] == b.body;
  }

  lemma {:induction false} ListExact(es: seq<Element>, t: EntityTag)
    requires es != [] && (forall i :: 0 <= i < |es| ==> ElementOk(es[i]))
    requires ',' !in t.body && DQUOTE !in t.body
    ensures MatchesAny(Split(HeaderText(es), ','), Quoted(t))
            <==> exists i :: 0 <= i < |es| && es[i].tag.Tag? && WeaklyEqual(es[i].tag.t, t)
  {
    hide Split, MatchesAny, ElementText, Quoted, ElementOk;
    ElementExact(es[0], t);
    if |es| > 1 {
      ListExact(es[1..], t);
      SplitConcat(ElementText(es[0]), HeaderText(es[1..]), ',');
      MatchesConcat(Split(ElementText(es[0]), ','), Split(HeaderText(es[1..]), ','), Quoted(t));
      assert forall i :: 1 <= i < |es| ==> es[i] == es[1..][i - 1];
    }
  }

  /** Trimming the whole header first changes no comparison. */
  lemma {:induction false} TrimLeftHarmless(h: string, tag: string)
    ensures MatchesAny(Split(TrimLeft(h, IsSpace), ','), tag) <==> MatchesAny(Split(h, ','), tag)
  {
    if h != "" && IsSpace(h[0]) {
      var rest := Split(h[1..], ',');
      var first := [h[0]] + rest[0];
      assert first[1..] == rest[0];
      assert TrimSpace(first) == TrimSpace(rest[0]);
      TrimLeftHarmless(h[1..], tag);
    }
  }

  lemma {:induction false} TrimRightHarmless(h: string, tag: string)
    ensures MatchesAny(Split(TrimRight(h, IsSpace), ','), tag) <==> MatchesAny(Split(h, ','), tag)
  {
    if h != "" && IsSpace(h[|h| - 1]) {
      var g, c := h[..|h| - 1], h[|h| - 1];
      assert h == g + [c];
      var q := Split(g, ',');
      var k := |q| - 1;
      SplitSnoc(g, c, ',');
      ExtendLastShape(q, c);
      MatchesConcat(q[..k], [q[k]], tag);
      MatchesConcat(q[..k], [q[k] + [c]], tag);
      assert q[..k] + [q[k]] == q;
      TrimSnoc(q[k], c, IsSpace);
      assert MatchesAny([q[k] + [c]], tag) <==> MatchesAny([q[k]], tag);
      TrimRightHarmless(g, tag);
    }
  }

  lemma {:induction false} TrimLeftQuotes(h: string)
    ensures Quotes(TrimLeft(h, IsSpace)) == Quotes(h)
  {
    if h != "" && IsSpace(h[0]) { TrimLeftQuotes(h[1..]); }
  }

  lemma {:induction false} TrimRightQuotes(h: string)
    ensures Quotes(TrimRight(h, IsSpace)) == Quotes(h)
  {
    if h != "" && IsSpace(h[|h| - 1]) {
      assert h == h[..|h| - 1] + [h[|h| - 1]];
      QuotesConcat(h[..|h| - 1], [h[|h| - 1]]);
      TrimRightQuotes(h[..|h| - 1]);
    }
  }

  lemma ElementStar(e: Element)
    requires ElementOk(e)
    ensures Quotes(ElementText(e)) > 0 || '*' !in ElementText(e)
  {
    if e.tag.Tag? {
      var lead := e.before + (if e.tag.t.weak then "W/" else "");
      var rest := e.tag.t.body + [DQUOTE] + e.after;
      RegroupFirst(e.before, if e.tag.t.weak then "W/" else "", e.tag.t.body, e.after);
      QuotesConcat(lead, [DQUOTE] + rest);
    }
  }

  lemma RegroupFirst(a: string, w: string, x: string, z: string)
    ensures a + (w + ([DQUOTE] + x + [DQUOTE])) + z == (a + w) + ([DQUOTE] + (x + [DQUOTE] + z))
  {
    var q := [DQUOTE];
    assert w + (q + x + q) == w + (q + (x + q));
    assert a + (w + (q + (x + q))) == (a + w) + (q + (x + q));
    assert (a + w) + (q + (x + q)) + z == (a + w) + (q + ((x + q) + z));
  }

  lemma {:induction false} StarNeedsQuotes(es: seq<Element>)
    requires es != [] && (forall i :: 0 <= i < |es| ==> ElementOk(es[i]))
    ensures Quotes(HeaderText(es)) > 0 || '*' !in HeaderText(es)
  {
    hide Quotes, ElementText;
    var text := ElementText(es[0]);
    ElementStar(es[0]);
    if |es| > 1 {
      StarNeedsQuotes(es[1..]);
      QuotesConcat(text + ",", HeaderText(es[1..]));
      QuotesConcat(text, ",");
    }
  }

  /** A well-formed list is never mistaken for the wildcard. */
  lemma NoStar(es: seq<Element>)
    requires es != [] && (forall i :: 0 <= i < |es| ==> ElementOk(es[i]))
    ensures TrimSpace(HeaderText(es)) != "*"
  {
    var h := HeaderText(es);
    StarNeedsQuotes(es);
    TrimLeftQuotes(h);
    TrimRightQuotes(TrimLeft(h, IsSpace));
    var a, b := TrimIsPart(h, IsSpace);
    if TrimSpace(h) == "*" {
      assert h[a] == '*';
      QuotesOfPlain("*");
      assert false;
    }
  }

  /** Comma splitting is exact for tags the server makes: on every well-formed If-None-Match list,
      tags containing commas included, the header matches iff some member weakly equals the tag;
      the wildcard matches and a blank header does not. */
  lemma MatchIsExact(es: seq<Element>, digest: seq<nat>)
    requires es != [] && (forall i :: 0 <= i < |es| ==> ElementOk(es[i]))
    requires forall i :: 0 <= i < |digest| ==> digest[i] < 256
    ensures ETagMatches(HeaderText(es), ETagFor(digest))
            <==> exists i :: 0 <= i < |es| && es[i].tag.Tag? && WeaklyEqual(es[i].tag.t, EntityTag(true, Hex(digest)))
  {
    var h := HeaderText(es);
    var t := EntityTag(true, Hex(digest));
    ServerTagShape(digest);
    HexIsPlain(digest);
    ListExact(es, t);
    TrimLeftHarmless(h, Quoted(t));
    TrimRightHarmless(TrimLeft(h, IsSpace), Quoted(t));
    NoStar(es);
    if TrimSpace(h) == "" {
      BlankNeverMatches(t);
    }
  }

  lemma BlankNeverMatches(t: EntityTag)
    ensures !MatchesAny(Split("", ','), Quoted(t))
  {
    assert [""][1..] == [];
    assert TrimSpace("") == "";
  }

  /** A tag matches itself whatever white space surrounds it, and the wildcard matches any tag. */
  lemma MatchOwnTag(before: string, digest: seq<nat>, after: string)
    requires IsOws(before) && IsOws(after)
    requires forall i :: 0 <= i < |digest| ==> digest[i] < 256
    ensures ETagMatches(before + ETagFor(digest) + after, ETagFor(digest))
    ensures ETagMatches(before + "*" + after, ETagFor(digest))
  {
    var t := EntityTag(true, Hex(digest));
    ServerTagShape(digest);
    var es := [Element(before, Tag(t), after)];
    MatchIsExact(es, digest);
    assert es[0].tag.Tag? && WeaklyEqual(es[0].tag.t, t);
    PlainPadding(before);
    PlainPadding(after);
    TrimAround(before, "*", after, IsSpace);
  }
}
