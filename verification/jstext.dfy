/** The JavaScript string semantics the transform scripts rely on: reading a
    CSV row by header, truthiness of a possibly-undefined string, implicit
    string conversion, and `String.prototype.trim`. */
module JsText {
  import opened Wrappers

  /** One parsed CSV row: header name to cell text.  A header the row lacks
      reads as `undefined`. */
  type Row = map<string, string>

  /** `row[key]`. */
  function Get(row: Row, key: string): Option<string>
  {
    if key in row then Some(row[key]) else None
  }

  /** JavaScript truthiness of a string-or-undefined: present and non-empty. */
  predicate Truthy(v: Option<string>)
  {
    v.Some? && v.value != ""
  }

  /** Implicit conversion in `'…' + v` and in a template literal `${v}`. */
  function Str(v: Option<string>): (s: string)
    ensures v.None? ==> s == "undefined"
    ensures v.Some? ==> s == v.value
  {
    match v
    case Some(t) => t
    case None => "undefined"
  }

  /** The characters `trim` removes: ECMAScript WhiteSpace and LineTerminator. */
  predicate IsWhitespace(c: char)
  {
    || c == '\t' || c == '\n' || c == '\U{000B}' || c == '\U{000C}' || c == '\r' || c == ' '
    || c == '\U{00A0}' || c == '\U{1680}' || ('\U{2000}' <= c <= '\U{200A}')
    || c == '\U{2028}' || c == '\U{2029}' || c == '\U{202F}' || c == '\U{205F}'
    || c == '\U{3000}' || c == '\U{FEFF}'
  }

  predicate AllWhitespace(s: string)
  {
    forall i :: 0 <= i < |s| ==> IsWhitespace(s[i])
  }

  /** A value `v?.trim()` turns falsy: undefined, or nothing but whitespace. */
  predicate Blank(v: Option<string>)
  {
    v.None? || AllWhitespace(v.value)
  }

  /** Length of the whitespace run that opens `s`. */
  function LeadingWhitespace(s: string): (n: nat)
    ensures n <= |s|
    ensures forall i :: 0 <= i < n ==> IsWhitespace(s[i])
    ensures n < |s| ==> !IsWhitespace(s[n])
    decreases |s|
  {
    if |s| == 0 || !IsWhitespace(s[0]) then 0
    else
      var n := 1 + LeadingWhitespace(s[1..]);
      assert forall i :: 1 <= i < n ==> s[i] == s[1..][i - 1];
      n
  }

  /** Length of the whitespace run that closes `s`. */
  function TrailingWhitespace(s: string): (n: nat)
    ensures n <= |s|
    ensures forall i :: |s| - n <= i < |s| ==> IsWhitespace(s[i])
    ensures n < |s| ==> !IsWhitespace(s[|s| - n - 1])
    decreases |s|
  {
    if |s| == 0 || !IsWhitespace(s[|s| - 1]) then 0
    else
      var init := s[..|s| - 1];
      var n := 1 + TrailingWhitespace(init);
      assert forall i :: |s| - n <= i < |s| - 1 ==> s[i] == init[i];
      n
  }

  /** `s.trim()`: the slice of `s` between its leading and trailing whitespace. */
  function Trim(s: string): (t: string)
    ensures t == "" <==> AllWhitespace(s)
    ensures t != "" ==> !IsWhitespace(t[0]) && !IsWhitespace(t[|t| - 1])
    ensures exists i :: 0 <= i <= |s| - |t|
              && t == s[i..i + |t|] && AllWhitespace(s[..i]) && AllWhitespace(s[i + |t|..])
  {
    var a := LeadingWhitespace(s);
    if a == |s| then
      assert s[..a] == s;
      assert s[0..0] == "" && s[0..] == s;
      ""
    else
      var b := TrailingWhitespace(s);
      assert !IsWhitespace(s[a]);
      assert a < |s| - b;
      var t := s[a..|s| - b];
      assert s[a + |t|..] == s[|s| - b..];
      t
  }

  /** `v?.trim()`. */
  function TrimOpt(v: Option<string>): (r: Option<string>)
    ensures Truthy(r) <==> !Blank(v)
    ensures r.Some? <==> v.Some?
  {
    match v
    case Some(s) => Some(Trim(s))
    case None => None
  }

  /** Trimming twice trims nothing more. */
  lemma TrimIdempotent(s: string)
    ensures Trim(Trim(s)) == Trim(s)
  {
    var t := Trim(s);
    if t != "" {
      assert LeadingWhitespace(t) == 0;
      assert TrailingWhitespace(t) == 0;
      assert t[0..|t|] == t;
    }
  }

  /** A string holding any non-whitespace character survives `trim` non-empty. */
  lemma TrimKeepsVisibleText(s: string, i: nat)
    requires i < |s| && !IsWhitespace(s[i])
    ensures Trim(s) != ""
  {
    assert !AllWhitespace(s);
  }
}
