/** The string helpers the gateway leans on: trimming, splitting on a separator and joining. */
module Text {

  /** Unicode White_Space, the class `strings.TrimSpace` removes. */
  predicate IsSpace(c: char) {
    || c == ' ' || '\t' <= c <= '\r'
    || c == '\U{0085}' || c == '\U{00A0}' || c == '\U{1680}'
    || '\U{2000}' <= c <= '\U{200A}'
    || c == '\U{2028}' || c == '\U{2029}' || c == '\U{202F}' || c == '\U{205F}' || c == '\U{3000}'
  }

  /** Among the ASCII characters only the blank and the five control characters from tab to carriage return
      are white space. */
  lemma AsciiSpaces(c: char)
    requires c < '\U{0080}'
    ensures IsSpace(c) <==> c in {' ', '\t', '\n', '\U{000B}', '\U{000C}', '\r'}
  {
  }

  /** Beyond ASCII white space is the next-line and no-break characters, the Unicode space separators, and the
      line and paragraph separators. */
  lemma OtherSpaces(c: char)
    requires c >= '\U{0080}'
    ensures IsSpace(c) <==> c in {
      '\U{0085}', '\U{00A0}', '\U{1680}', '\U{2000}', '\U{2001}', '\U{2002}', '\U{2003}', '\U{2004}', '\U{2005}', '\U{2006}',
      '\U{2007}', '\U{2008}', '\U{2009}', '\U{200A}', '\U{2028}', '\U{2029}', '\U{202F}', '\U{205F}', '\U{3000}'}
  {
  }

  function TrimLeft(s: string, p: char -> bool): string {
    if s != "" && p(s[0]) then TrimLeft(s[1..], p) else s
  }

  function TrimRight(s: string, p: char -> bool): string {
    if s != "" && p(s[|s| - 1]) then TrimRight(s[..|s| - 1], p) else s
  }

  function TrimBy(s: string, p: char -> bool): string {
    TrimRight(TrimLeft(s, p), p)
  }

  function TrimSpace(s: string): string {
    TrimBy(s, IsSpace)
  }

  /** The one-character cut set of `strings.Trim(s, "c")`. */
  function Cut(c: char): char -> bool {
    d => d == c
  }

  /** Nothing to trim at either end. */
  predicate Tight(s: string, p: char -> bool) {
    s == "" || (!p(s[0]) && !p(s[|s| - 1]))
  }

  lemma {:induction false} TrimLeftShape(s: string, p: char -> bool)
    ensures TrimLeft(s, p) == "" || !p(TrimLeft(s, p)[0])
    ensures |TrimLeft(s, p)| <= |s| && TrimLeft(s, p) == s[|s| - |TrimLeft(s, p)|..]
  {
    if s != "" && p(s[0]) { TrimLeftShape(s[1..], p); }
  }

  lemma {:induction false} TrimRightShape(s: string, p: char -> bool)
    ensures TrimRight(s, p) == "" || !p(TrimRight(s, p)[|TrimRight(s, p)| - 1])
    ensures TrimRight(s, p) <= s
  {
    if s != "" && p(s[|s| - 1]) { TrimRightShape(s[..|s| - 1], p); }
  }

  /** A trimmed string is tight, and a tight string is its own trimming. */
  lemma TrimIsTight(s: string, p: char -> bool)
    ensures Tight(TrimBy(s, p), p)
    ensures TrimBy(s, p) == s <==> Tight(s, p)
  {
    TrimLeftShape(s, p);
    TrimRightShape(TrimLeft(s, p), p);
  }

  /** Trimming twice is trimming once. */
  lemma TrimSettles(s: string)
    ensures TrimSpace(TrimSpace(s)) == TrimSpace(s)
  {
    TrimIsTight(s, IsSpace);
    TrimIsTight(TrimSpace(s), IsSpace);
  }

  /** Trimming selects a contiguous part. */
  lemma TrimIsPart(s: string, p: char -> bool) returns (a: nat, b: nat)
    ensures a <= b <= |s| && TrimBy(s, p) == s[a..b]
  {
    TrimLeftShape(s, p);
    var l := TrimLeft(s, p);
    TrimRightShape(l, p);
    a := |s| - |l|;
    b := a + |TrimRight(l, p)|;
  }

  // ---------------------------------------------------------------------------

  function Split(s: string, sep: char): (parts: seq<string>)
    ensures parts != []
  {
    if s == "" then [""]
    else
      var rest := Split(s[1..], sep);
      if s[0] == sep then [""] + rest else [[s[0]] + rest[0]] + rest[1..]
  }

  function Join(parts: seq<string>, sep: char): string {
    if parts == [] then ""
    else if |parts| == 1 then parts[0]
    else parts[0] + [sep] + Join(parts[1..], sep)
  }

  /** Splitting a separated concatenation splits both sides. */
  lemma {:induction false} SplitConcat(a: string, b: string, sep: char)
    ensures Split(a + [sep] + b, sep) == Split(a, sep) + Split(b, sep)
  {
    var whole := a + [sep] + b;
    if a == "" {
      assert whole[1..] == b;
    } else {
      assert whole[1..] == a[1..] + [sep] + b;
      SplitConcat(a[1..], b, sep);
    }
  }

  lemma {:induction false} SplitWhole(s: string, sep: char)
    requires sep !in s
    ensures Split(s, sep) == [s]
  {
    if s != "" {
      SplitWhole(s[1..], sep);
      assert [s[0]] + s[1..] == s;
    }
  }

  /** Joining and splitting again returns the parts, if none contains the separator. */
  lemma {:induction false} SplitJoin(parts: seq<string>, sep: char)
    requires parts != [] && forall i :: 0 <= i < |parts| ==> sep !in parts[i]
    ensures Split(Join(parts, sep), sep) == parts
  {
    SplitWhole(parts[0], sep);
    if |parts| > 1 {
      SplitJoin(parts[1..], sep);
      SplitConcat(parts[0], Join(parts[1..], sep), sep);
    }
  }

  /** No part of a split contains the separator. */
  lemma {:induction false} SplitParts(s: string, sep: char)
    ensures forall i :: 0 <= i < |Split(s, sep)| ==> sep !in Split(s, sep)[i]
  {
    if s != "" { SplitParts(s[1..], sep); }
  }

  lemma {:induction false} JoinEnds(parts: seq<string>, sep: char)
    requires parts != []
    ensures
      var j := Join(parts, sep);
      && (|parts| > 1 ==> j != "")
      && (parts[0] != "" ==> j != "" && j[0] == parts[0][0])
      && (parts[0] == "" && |parts| > 1 ==> j[0] == sep)
      && (parts[|parts| - 1] != "" ==> j != "" && j[|j| - 1] == parts[|parts| - 1][|parts[|parts| - 1]| - 1])
      && (parts[|parts| - 1] == "" && |parts| > 1 ==> j[|j| - 1] == sep)
  {
    if |parts| > 1 { JoinEnds(parts[1..], sep); }
  }

  /** All parts but the last, and the last extended by c. */
  function ExtendLast(q: seq<string>, c: char): seq<string>
    requires q != []
  {
    if |q| == 1 then [q[0] + [c]] else [q[0]] + ExtendLast(q[1..], c)
  }

  lemma {:induction false} ExtendLastShape(q: seq<string>, c: char)
    requires q != []
    ensures ExtendLast(q, c) == q[..|q| - 1] + [q[|q| - 1] + [c]]
  {
    if |q| > 1 { ExtendLastShape(q[1..], c); }
  }

  /** A character appended to the string lands in the last part. */
  lemma {:induction false} SplitSnoc(s: string, c: char, sep: char)
    requires c != sep
    ensures Split(s + [c], sep) == ExtendLast(Split(s, sep), c)
  {
    if s == "" {
      assert s + [c] == [c] && [c][1..] == "" && [c] + "" == [c] && "" + [c] == [c];
      assert Split([c], sep) == [[c]];
    } else {
      assert (s + [c])[1..] == s[1..] + [c];
      SplitSnoc(s[1..], c, sep);
      var rest := Split(s[1..], sep);
      var rest' := ExtendLast(rest, c);
      var q := Split(s, sep);
      if s[0] == sep {
        assert q[1..] == rest;
      } else if |rest| == 1 {
        assert [s[0]] + (rest[0] + [c]) == ([s[0]] + rest[0]) + [c];
        assert rest'[1..] == [];
      } else {
        assert rest'[0] == rest[0] && rest'[1..] == ExtendLast(rest[1..], c);
        assert q[1..] == rest[1..];
      }
    }
  }

  lemma {:induction false} TrimLeftSnoc(s: string, c: char, p: char -> bool)
    ensures TrimLeft(s + [c], p) == if TrimLeft(s, p) == "" && p(c) then "" else TrimLeft(s, p) + [c]
  {
    if s == "" {
      assert s + [c] == [c] && [c][1..] == "";
    } else if p(s[0]) {
      assert (s + [c])[1..] == s[1..] + [c];
      TrimLeftSnoc(s[1..], c, p);
    }
  }

  /** A trailing character of the cut set does not survive trimming. */
  lemma TrimSnoc(s: string, c: char, p: char -> bool)
    requires p(c)
    ensures TrimBy(s + [c], p) == TrimBy(s, p)
  {
    TrimLeftSnoc(s, c, p);
    var l := TrimLeft(s, p);
    assert (l + [c])[..|l|] == l;
    assert TrimRight(l + [c], p) == TrimRight(l, p);
  }

  /** Padding on both sides is exactly what trimming removes. */
  lemma {:induction false} TrimAround(before: string, s: string, after: string, p: char -> bool)
    requires Tight(s, p)
    requires forall i :: 0 <= i < |before| ==> p(before[i])
    requires forall i :: 0 <= i < |after| ==> p(after[i])
    ensures TrimBy(before + s + after, p) == s
    decreases |before| + |after|
  {
    if after != "" {
      var a := after[..|after| - 1];
      assert before + s + after == (before + s + a) + [after[|after| - 1]];
      TrimSnoc(before + s + a, after[|after| - 1], p);
      TrimAround(before, s, a, p);
    } else if before != "" {
      var whole := before + s + after;
      assert whole[1..] == before[1..] + s + after;
      assert p(whole[0]);
      TrimAround(before[1..], s, after, p);
    } else {
      assert before + s + after == s;
      TrimIsTight(s, p);
    }
  }
}
