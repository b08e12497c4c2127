/** `sanitizeInput` (src/components/db/database.jsx): HTML-escaping of the
    five characters & < > " ', applied as five global replacements with
    the ampersand first. */
module Sanitizer {
  import opened Wrappers
  import opened Json
  import opened Text

  /** `s.replace(/c/g, r)` for a single character `c`. */
  function ReplaceAll(s: string, c: char, r: string): string {
    if s == [] then [] else (if s[0] == c then r else [s[0]]) + ReplaceAll(s[1..], c, r)
  }

  /** The replacement chain of `sanitizeInput`, in the source's order. */
  function SanitizeText(s: string): string {
    ReplaceAll(ReplaceAll(ReplaceAll(ReplaceAll(ReplaceAll(
      s, '&', "&amp;"), '<', "&lt;"), '>', "&gt;"), '"', "&quot;"), '\'', "&#x27;")
  }

  /** `sanitizeInput(v)`: non-strings (including `undefined`) come back unchanged. */
  function SanitizeValue(v: Option<Value>): (r: Option<Value>)
    ensures !(v.Some? && v.value.Str?) ==> r == v
    ensures v.Some? && v.value.Str? ==> r == Some(Str(SanitizeText(v.value.s)))
  {
    match v
    case Some(Str(s)) => Some(Str(SanitizeText(s)))
    case _ => v
  }

  predicate IsSpecial(c: char) {
    c == '&' || c == '<' || c == '>' || c == '"' || c == '\''
  }

  predicate NoSpecials(s: string) {
    forall i :: 0 <= i < |s| ==> !IsSpecial(s[i])
  }

  /** The entity each character is written as (itself, if not special). */
  function Entity(c: char): (r: string)
    ensures |r| >= 1
    ensures |r| == 1 <==> !IsSpecial(c)
    ensures r[0] == (if IsSpecial(c) then '&' else c)
  {
    if c == '&' then "&amp;"
    else if c == '<' then "&lt;"
    else if c == '>' then "&gt;"
    else if c == '"' then "&quot;"
    else if c == '\'' then "&#x27;"
    else [c]
  }

  /** Reference definition: escape every character independently. */
  function EscapeEach(s: string): string {
    if s == [] then [] else Entity(s[0]) + EscapeEach(s[1..])
  }

  lemma {:induction false} ReplaceAllAppend(a: string, b: string, c: char, r: string)
    ensures ReplaceAll(a + b, c, r) == ReplaceAll(a, c, r) + ReplaceAll(b, c, r)
  {
    if a == [] {
      assert a + b == b;
    } else {
      assert (a + b)[1..] == a[1..] + b;
      ReplaceAllAppend(a[1..], b, c, r);
    }
  }

  lemma {:induction false} ReplaceAllAbsent(s: string, c: char, r: string)
    requires forall i :: 0 <= i < |s| ==> s[i] != c
    ensures ReplaceAll(s, c, r) == s
  {
    if s != [] {
      ReplaceAllAbsent(s[1..], c, r);
    }
  }

  lemma SanitizeAppend(a: string, b: string)
    ensures SanitizeText(a + b) == SanitizeText(a) + SanitizeText(b)
  {
    var a1, b1 := ReplaceAll(a, '&', "&amp;"), ReplaceAll(b, '&', "&amp;");
    ReplaceAllAppend(a, b, '&', "&amp;");
    var a2, b2 := ReplaceAll(a1, '<', "&lt;"), ReplaceAll(b1, '<', "&lt;");
    ReplaceAllAppend(a1, b1, '<', "&lt;");
    var a3, b3 := ReplaceAll(a2, '>', "&gt;"), ReplaceAll(b2, '>', "&gt;");
    ReplaceAllAppend(a2, b2, '>', "&gt;");
    var a4, b4 := ReplaceAll(a3, '"', "&quot;"), ReplaceAll(b3, '"', "&quot;");
    ReplaceAllAppend(a3, b3, '"', "&quot;");
    ReplaceAllAppend(a4, b4, '\'', "&#x27;");
  }

  /** Each later replacement leaves an earlier entity alone. */
  lemma SanitizeChar(c: char)
    ensures SanitizeText([c]) == Entity(c)
  {
    var e := Entity(c);
    var s1 := ReplaceAll([c], '&', "&amp;");
    assert [c][1..] == [];
    assert s1 == (if c == '&' then "&amp;" else [c]) + ReplaceAll([], '&', "&amp;");
    var s2 := ReplaceAll(s1, '<', "&lt;");
    if c == '<' {
      assert s2 == "&lt;" + ReplaceAll([], '<', "&lt;");
    } else {
      ReplaceAllAbsent(s1, '<', "&lt;");
    }
    var s3 := ReplaceAll(s2, '>', "&gt;");
    if c == '>' {
      ReplaceAllAbsent(s1, '<', "&lt;");
      assert s3 == "&gt;" + ReplaceAll([], '>', "&gt;");
    } else {
      ReplaceAllAbsent(s2, '>', "&gt;");
    }
    var s4 := ReplaceAll(s3, '"', "&quot;");
    if c == '"' {
      assert s4 == "&quot;" + ReplaceAll([], '"', "&quot;");
    } else {
      ReplaceAllAbsent(s3, '"', "&quot;");
    }
    if c == '\'' {
      assert SanitizeText([c]) == "&#x27;" + ReplaceAll([], '\'', "&#x27;");
    } else {
      ReplaceAllAbsent(s4, '\'', "&#x27;");
    }
  }

  /** The replacement chain escapes every character independently: doing
      the ampersand first means no entity is escaped twice. */
  lemma {:induction false} SanitizeIsPerChar(s: string)
    ensures SanitizeText(s) == EscapeEach(s)
  {
    if s != [] {
      assert s == [s[0]] + s[1..];
      SanitizeAppend([s[0]], s[1..]);
      SanitizeChar(s[0]);
      SanitizeIsPerChar(s[1..]);
    }
  }

  lemma {:induction false} EscapeEachAppend(a: string, b: string)
    ensures EscapeEach(a + b) == EscapeEach(a) + EscapeEach(b)
  {
    if a == [] {
      assert a + b == b;
    } else {
      assert (a + b)[1..] == a[1..] + b;
      EscapeEachAppend(a[1..], b);
    }
  }

  lemma {:induction false} EscapeEachHasNoRawSpecials(s: string)
    ensures forall i :: 0 <= i < |EscapeEach(s)| ==> EscapeEach(s)[i] !in {'<', '>', '"', '\''}
  {
    if s != [] {
      EscapeEachHasNoRawSpecials(s[1..]);
      var e := Entity(s[0]);
      assert forall i :: 0 <= i < |e| ==> e[i] !in {'<', '>', '"', '\''};
      assert EscapeEach(s) == e + EscapeEach(s[1..]);
    }
  }

  /** Sanitised text holds no raw < > " or ': the only special character
      left is the ampersand that opens each entity. */
  lemma SanitizedHasNoRawMarkup(s: string)
    ensures forall i :: 0 <= i < |SanitizeText(s)| ==> SanitizeText(s)[i] !in {'<', '>', '"', '\''}
  {
    SanitizeIsPerChar(s);
    EscapeEachHasNoRawSpecials(s);
  }

  lemma {:induction false} EscapeEachLength(s: string)
    ensures |EscapeEach(s)| >= |s|
    ensures |EscapeEach(s)| == |s| <==> NoSpecials(s)
    ensures NoSpecials(s) ==> EscapeEach(s) == s
  {
    if s != [] {
      EscapeEachLength(s[1..]);
      assert NoSpecials(s) <==> !IsSpecial(s[0]) && NoSpecials(s[1..]);
    }
  }

  lemma {:induction false} EscapeEachFirst(s: string)
    requires s != []
    ensures EscapeEach(s)[0] == (if IsSpecial(s[0]) then '&' else s[0])
  {
  }

  /** Sanitising changes a string exactly when it holds a special character. */
  lemma SanitizeFixesIffNoSpecials(s: string)
    ensures SanitizeText(s) == s <==> NoSpecials(s)
  {
    SanitizeIsPerChar(s);
    EscapeEachLength(s);
  }

  /** `sanitizeInput` is not idempotent: a second pass changes the result of
      the first exactly when the original held a special character. */
  lemma {:induction false} SanitizeIdempotentIffNoSpecials(s: string)
    ensures SanitizeText(SanitizeText(s)) == SanitizeText(s) <==> NoSpecials(s)
  {
    SanitizeFixesIffNoSpecials(s);
    var t := SanitizeText(s);
    SanitizeFixesIffNoSpecials(t);
    if !NoSpecials(s) {
      var i :| 0 <= i < |s| && IsSpecial(s[i]);
      SanitizeIsPerChar(s);
      assert s == s[..i] + s[i..];
      EscapeEachAppend(s[..i], s[i..]);
      EscapeEachFirst(s[i..]);
      EscapeEachLength(s[..i]);
      var j := |EscapeEach(s[..i])|;
      assert t[j] == '&';
      assert !NoSpecials(t);
    }
  }

  /** An ampersand is escaped again on every pass, so an entity that is
      already stored (say "&lt;") comes back with its ampersand escaped
      ("&amp;lt;"). */
  lemma AmpersandEscapedAgain(s: string)
    ensures SanitizeText("&" + s) == "&amp;" + SanitizeText(s)
  {
    SanitizeIsPerChar("&" + s);
    SanitizeIsPerChar(s);
    assert ("&" + s)[0] == '&' && ("&" + s)[1..] == s;
  }

  /** An entity without specials after its ampersand gains one "amp;". */
  lemma EntityEscapedAgain(entity: string, tail: string, rest: string)
    requires entity == "&" + tail && NoSpecials(tail)
    ensures SanitizeText(entity + rest) == "&amp;" + tail + SanitizeText(rest)
  {
    assert entity + rest == "&" + (tail + rest);
    AmpersandEscapedAgain(tail + rest);
    SanitizeAppend(tail, rest);
    SanitizeFixesIffNoSpecials(tail);
  }

  /** Text that was stored escaped, such as "&amp;", is escaped a second
      time: "&amp;" becomes "&amp;amp;". */
  lemma StoredAmpersandEscapedAgain(rest: string)
    ensures SanitizeText("&amp;" + rest) == "&amp;amp;" + SanitizeText(rest)
  {
    EntityEscapedAgain("&amp;", "amp;", rest);
  }

  /** Decoding of the five entities, left to right. */
  function Unescape(s: string): string
    decreases |s|
  {
    if s == [] then []
    else if StartsWith(s, "&amp;") then "&" + Unescape(s[5..])
    else if StartsWith(s, "&lt;") then "<" + Unescape(s[4..])
    else if StartsWith(s, "&gt;") then ">" + Unescape(s[4..])
    else if StartsWith(s, "&quot;") then "\"" + Unescape(s[6..])
    else if StartsWith(s, "&#x27;") then "'" + Unescape(s[6..])
    else [s[0]] + Unescape(s[1..])
  }

  lemma Differs(s: string, p: string, k: nat)
    requires k < |p| && k < |s| && s[k] != p[k]
    ensures !StartsWith(s, p)
  {
  }

  lemma Leads(p: string, rest: string)
    ensures StartsWith(p + rest, p) && (p + rest)[|p|..] == rest
  {
    assert (p + rest)[..|p|] == p;
  }

  lemma UnescapeAmp(rest: string)
    ensures Unescape("&amp;" + rest) == "&" + Unescape(rest)
  {
    Leads("&amp;", rest);
  }

  lemma UnescapeLt(rest: string)
    ensures Unescape("&lt;" + rest) == "<" + Unescape(rest)
  {
    Differs("&lt;" + rest, "&amp;", 1);
    Leads("&lt;", rest);
  }

  lemma UnescapeGt(rest: string)
    ensures Unescape("&gt;" + rest) == ">" + Unescape(rest)
  {
    Differs("&gt;" + rest, "&amp;", 1);
    Differs("&gt;" + rest, "&lt;", 1);
    Leads("&gt;", rest);
  }

  lemma UnescapeQuot(rest: string)
    ensures Unescape("&quot;" + rest) == "\"" + Unescape(rest)
  {
    Differs("&quot;" + rest, "&amp;", 1);
    Differs("&quot;" + rest, "&lt;", 1);
    Differs("&quot;" + rest, "&gt;", 1);
    Leads("&quot;", rest);
  }

  lemma UnescapeApos(rest: string)
    ensures Unescape("&#x27;" + rest) == "'" + Unescape(rest)
  {
    Differs("&#x27;" + rest, "&amp;", 1);
    Differs("&#x27;" + rest, "&lt;", 1);
    Differs("&#x27;" + rest, "&gt;", 1);
    Differs("&#x27;" + rest, "&quot;", 1);
    Leads("&#x27;", rest);
  }

  lemma UnescapePlain(c: char, rest: string)
    requires !IsSpecial(c)
    ensures Unescape([c] + rest) == [c] + Unescape(rest)
  {
    var s := [c] + rest;
    Differs(s, "&amp;", 0);
    Differs(s, "&lt;", 0);
    Differs(s, "&gt;", 0);
    Differs(s, "&quot;", 0);
    Differs(s, "&#x27;", 0);
    assert s[1..] == rest;
  }

  lemma UnescapeEntity(c: char, rest: string)
    ensures Unescape(Entity(c) + rest) == [c] + Unescape(rest)
  {
    if c == '&' { UnescapeAmp(rest); }
    else if c == '<' { UnescapeLt(rest); }
    else if c == '>' { UnescapeGt(rest); }
    else if c == '"' { UnescapeQuot(rest); }
    else if c == '\'' { UnescapeApos(rest); }
    else { UnescapePlain(c, rest); }
  }

  lemma {:induction false} UnescapeEscapeEach(s: string)
    ensures Unescape(EscapeEach(s)) == s
  {
    if s != [] {
      UnescapeEscapeEach(s[1..]);
      UnescapeEntity(s[0], EscapeEach(s[1..]));
      assert s == [s[0]] + s[1..];
    }
  }

  /** Sanitising loses nothing: decoding the entities gives the input back. */
  lemma SanitizeRoundTrip(s: string)
    ensures Unescape(SanitizeText(s)) == s
  {
    SanitizeIsPerChar(s);
    UnescapeEscapeEach(s);
  }
}
