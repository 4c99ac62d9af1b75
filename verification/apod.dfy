/** The string helpers of the Astronomy Picture of the Day page: excerpt
    truncation, the download file name and the share text. Strings are
    sequences of UTF-16 code units, as in JavaScript; each `char` stands for
    one code unit of the Basic Multilingual Plane. */
module Apod {
  import opened Text
  import opened Sequences

  /** ECMAScript WhiteSpace and LineTerminator code units, which
      `String.prototype.trim` removes. */
  predicate IsJsWhitespace(c: char) {
    || ('\U{0009}' <= c <= '\U{000D}')
    || c == '\U{0020}' || c == '\U{00A0}' || c == '\U{1680}'
    || ('\U{2000}' <= c <= '\U{200A}')
    || c == '\U{2028}' || c == '\U{2029}' || c == '\U{202F}' || c == '\U{205F}'
    || c == '\U{3000}' || c == '\U{FEFF}'
  }

  /** `s` without its leading whitespace. */
  function TrimStart(s: string): (r: string)
    ensures |r| <= |s| && r == s[|s| - |r|..]
    ensures forall k :: 0 <= k < |s| - |r| ==> IsJsWhitespace(s[k])
    ensures |r| > 0 ==> !IsJsWhitespace(r[0])
    decreases |s|
  {
    if |s| > 0 && IsJsWhitespace(s[0]) then TrimStart(s[1..]) else s
  }

  /** `s` without its trailing whitespace. */
  function TrimEnd(s: string): (r: string)
    ensures |r| <= |s| && r == s[..|r|]
    ensures forall k :: |r| <= k < |s| ==> IsJsWhitespace(s[k])
    ensures |r| > 0 ==> !IsJsWhitespace(r[|r| - 1])
    decreases |s|
  {
    if |s| > 0 && IsJsWhitespace(s[|s| - 1]) then TrimEnd(s[..|s| - 1]) else s
  }

  /** How many leading whitespace units `trim` drops. */
  function LeadingWhitespace(s: string): (n: nat)
    ensures n <= |s|
  {
    |s| - |TrimStart(s)|
  }

  /** `s.trim()`: the run of `s` between its leading and trailing whitespace. */
  function Trim(s: string): (r: string)
    ensures LeadingWhitespace(s) + |r| <= |s|
    ensures forall k :: 0 <= k < |r| ==> r[k] == s[LeadingWhitespace(s) + k]
    ensures forall k :: 0 <= k < LeadingWhitespace(s) ==> IsJsWhitespace(s[k])
    ensures forall k :: LeadingWhitespace(s) + |r| <= k < |s| ==> IsJsWhitespace(s[k])
    ensures |r| > 0 ==> !IsJsWhitespace(r[0]) && !IsJsWhitespace(r[|r| - 1])
  {
    TrimSlice(s);
    TrimEdges(s);
    TrimEnd(TrimStart(s))
  }

  /** Trimming keeps a contiguous run of `s` that starts right after the
      leading whitespace. */
  lemma TrimSlice(s: string)
    ensures var r := TrimEnd(TrimStart(s));
            && LeadingWhitespace(s) + |r| <= |s|
            && (forall k :: 0 <= k < |r| ==> r[k] == s[LeadingWhitespace(s) + k])
  {
    var a := TrimStart(s);
    var r := TrimEnd(a);
    var i := |s| - |a|;
    assert i == LeadingWhitespace(s);
    forall k | 0 <= k < |r|
      ensures r[k] == s[i + k]
    {
      assert r[k] == a[k];
      assert a[k] == s[i..][k];
    }
  }

  /** Everything trimming drops is whitespace, and what it keeps neither
      starts nor ends with whitespace. */
  lemma TrimEdges(s: string)
    ensures var r := TrimEnd(TrimStart(s));
            && (forall k :: 0 <= k < LeadingWhitespace(s) ==> IsJsWhitespace(s[k]))
            && (forall k :: LeadingWhitespace(s) + |r| <= k < |s| ==> IsJsWhitespace(s[k]))
            && (|r| > 0 ==> !IsJsWhitespace(r[0]) && !IsJsWhitespace(r[|r| - 1]))
  {
    var a := TrimStart(s);
    var r := TrimEnd(a);
    var i := |s| - |a|;
    SuffixWhitespace(s, a, i, |r|);
    if |r| > 0 {
      assert r[0] == a[0];
    }
  }

  /** Whitespace from index `from` on in the suffix `a == s[i..]` is
      whitespace from index `i + from` on in `s`. */
  lemma SuffixWhitespace(s: string, a: string, i: nat, from: nat)
    requires i <= |s| && a == s[i..]
    requires forall k :: from <= k < |a| ==> IsJsWhitespace(a[k])
    ensures forall k :: i + from <= k < |s| ==> IsJsWhitespace(s[k])
  {
    forall k | i + from <= k < |s|
      ensures IsJsWhitespace(s[k])
    {
      assert s[k] == a[k - i];
    }
  }

  const Ellipsis: string := "..."

  predicate EndsWith(s: string, suffix: string) {
    |suffix| <= |s| && s[|s| - |suffix|..] == suffix
  }

  function Clamp(n: int, hi: int): (r: int)
    requires 0 <= hi
    ensures 0 <= r <= hi
    ensures 0 <= n <= hi ==> r == n
  {
    if n < 0 then 0 else if n > hi then hi else n
  }

  /** `truncateText(text, maxLength)`: short texts pass unchanged; longer ones
      keep their first `maxLength` units (`substring` treats a negative
      bound as 0), trimmed, followed by `...`. */
  function Truncate(text: string, maxLength: int): (r: string)
    ensures |text| <= maxLength ==> r == text
    ensures |text| > maxLength ==>
      && EndsWith(r, Ellipsis)
      && |r| <= Clamp(maxLength, |text|) + 3
      && r[..|r| - 3] == Trim(text[..Clamp(maxLength, |text|)])
  {
    if |text| <= maxLength then text
    else Trim(text[..Clamp(maxLength, |text|)]) + Ellipsis
  }

  /** What `Trim` keeps of a prefix of `text` is a run of `text` itself,
      preceded only by whitespace. */
  lemma TrimOfPrefix(cut: string, text: string)
    requires |cut| <= |text| && cut == text[..|cut|]
    ensures LeadingWhitespace(cut) + |Trim(cut)| <= |cut|
    ensures forall k :: 0 <= k < |Trim(cut)| ==> Trim(cut)[k] == text[LeadingWhitespace(cut) + k]
    ensures forall k :: 0 <= k < LeadingWhitespace(cut) ==> IsJsWhitespace(text[k])
  {
    var i := LeadingWhitespace(cut);
    var stem := Trim(cut);
    forall k | 0 <= k < |stem| ensures stem[k] == text[i + k] {
      assert stem[k] == cut[i + k];
      assert cut[i + k] == text[..|cut|][i + k];
    }
    forall k | 0 <= k < i ensures IsJsWhitespace(text[k]) {
      assert text[k] == cut[k];
    }
  }

  /** The excerpt of a truncated text is a piece of the text's first
      `maxLength` units that only whitespace precedes, followed by `...`. */
  lemma TruncateKeepsPrefix(text: string, maxLength: int)
    requires 0 <= maxLength < |text|
    ensures Truncate(text, maxLength) == Trim(text[..maxLength]) + Ellipsis
    ensures LeadingWhitespace(text[..maxLength]) + |Trim(text[..maxLength])| <= maxLength
    ensures forall k :: 0 <= k < |Trim(text[..maxLength])| ==>
      Trim(text[..maxLength])[k] == text[LeadingWhitespace(text[..maxLength]) + k]
    ensures forall k :: 0 <= k < LeadingWhitespace(text[..maxLength]) ==> IsJsWhitespace(text[k])
  {
    assert Clamp(maxLength, |text|) == maxLength;
    TrimOfPrefix(text[..maxLength], text);
  }

  predicate IsAsciiLetter(c: char) { IsAsciiUpper(c) || IsAsciiLower(c) }

  /** `replace(/[^a-z0-9]/gi, '_')`: every code unit that is not an ASCII
      letter or digit becomes `_`. Without the `u` flag a case-insensitive
      class matches no code unit outside ASCII. */
  function ReplaceNonAlphanumeric(s: string): (r: string)
    ensures |r| == |s|
  {
    seq(|s|, i requires 0 <= i < |s| => if IsAsciiLetter(s[i]) || IsDigit(s[i]) then s[i] else '_')
  }

  predicate IsFileNameChar(c: char) { IsAsciiLower(c) || IsDigit(c) || c == '_' }

  /** The stem of the download file name: `filename.replace(...).toLowerCase()`. */
  function SanitizeStem(name: string): (r: string)
    ensures |r| == |name|
    ensures forall i :: 0 <= i < |r| ==> IsFileNameChar(r[i])
    ensures forall i :: 0 <= i < |r| ==>
      if IsAsciiLetter(name[i]) then r[i] == LowerChar(name[i])
      else if IsDigit(name[i]) then r[i] == name[i]
      else r[i] == '_'
  {
    Lower(ReplaceNonAlphanumeric(name))
  }

  /** Sanitising a sanitised stem changes nothing. */
  lemma SanitizeStemIdempotent(name: string)
    ensures SanitizeStem(SanitizeStem(name)) == SanitizeStem(name)
  {
    var once := SanitizeStem(name);
    var twice := SanitizeStem(once);
    forall i | 0 <= i < |once| ensures twice[i] == once[i] {
      assert IsFileNameChar(once[i]);
    }
  }

  /** The `download` attribute of `downloadImage`. */
  function DownloadFileName(name: string): (r: string)
    ensures EndsWith(r, ".jpg") && |r| == |name| + 4
    ensures r[..|name|] == SanitizeStem(name)
  {
    SanitizeStem(name) + ".jpg"
  }

  /** The share text of `shareAPOD`: the first 200 units of the description
      and `...`, appended even when nothing was cut. */
  function ShareText(description: string): (r: string)
    ensures EndsWith(r, Ellipsis)
    ensures |r| == MinInt(200, |description|) + 3
    ensures r[..|r| - 3] == description[..MinInt(200, |description|)]
  {
    description[..MinInt(200, |description|)] + Ellipsis
  }

  /** A description of at most 200 units is shared whole, with `...` after it. */
  lemma ShareTextShort(description: string)
    requires |description| <= 200
    ensures ShareText(description) == description + Ellipsis
  {
    assert description[..|description|] == description;
  }
}
