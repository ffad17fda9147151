/**
 * The request parameters' sanitizers: PHP's `trim` and `empty` as the main flow
 * applies them to the `id` parameter, the product-ID whitelist, and the integer
 * range filters for width and height.
 */
module Validation {
  import opened Wrappers
  import Settings

  // ---------------------------------------------------------------------------
  // trim()
  // ---------------------------------------------------------------------------

  /** The characters PHP's `trim` strips by default: space, tab, line feed,
      carriage return, NUL and vertical tab. */
  predicate IsTrimChar(c: char) {
    c == ' ' || c == '\t' || c == '\n' || c == '\r' || c as int == 0 || c as int == 0x0B
  }

  /** Number of trim characters at the front of `s`. */
  function LeadingTrimCount(s: string): (k: nat)
    ensures k <= |s|
    ensures forall i :: 0 <= i < k ==> IsTrimChar(s[i])
    ensures k < |s| ==> !IsTrimChar(s[k])
  {
    if |s| > 0 && IsTrimChar(s[0]) then 1 + LeadingTrimCount(s[1..]) else 0
  }

  /** Number of trim characters at the back of `s`. */
  function TrailingTrimCount(s: string): (k: nat)
    ensures k <= |s|
    ensures forall i :: |s| - k <= i < |s| ==> IsTrimChar(s[i])
    ensures k < |s| ==> !IsTrimChar(s[|s| - k - 1])
  {
    if |s| > 0 && IsTrimChar(s[|s| - 1]) then 1 + TrailingTrimCount(s[..|s| - 1]) else 0
  }

  /** `r` is the infix of `s` starting at `i`, and everything around it is a
      trim character. */
  predicate IsTrimmedInfix(s: string, r: string, i: int) {
    0 <= i <= |s| - |r| && r == s[i..i + |r|]
    && (forall k :: 0 <= k < i ==> IsTrimChar(s[k]))
    && (forall k :: i + |r| <= k < |s| ==> IsTrimChar(s[k]))
  }

  /** PHP's `trim($s)`: `s` without its leading and trailing trim characters. */
  function Trim(s: string): (r: string)
    ensures |r| > 0 ==> !IsTrimChar(r[0]) && !IsTrimChar(r[|r| - 1])
    ensures exists i :: IsTrimmedInfix(s, r, i)
  {
    var front := LeadingTrimCount(s);
    var rest := s[front..];
    var back := TrailingTrimCount(rest);
    var r := rest[..|rest| - back];
    assert r == s[front..front + |r|];
    assert forall k :: front + |r| <= k < |s| ==> s[k] == rest[k - front];
    assert IsTrimmedInfix(s, r, front);
    r
  }

  /** `Trim` is the only infix with trim characters around it and none at its
      own ends: any such infix of `s` is `Trim(s)`. */
  lemma {:induction false} TrimUnique(s: string, r: string, i: int)
    requires IsTrimmedInfix(s, r, i)
    requires |r| > 0 ==> !IsTrimChar(r[0]) && !IsTrimChar(r[|r| - 1])
    ensures Trim(s) == r
  {
    var front := LeadingTrimCount(s);
    var rest := s[front..];
    var back := TrailingTrimCount(rest);
    if |r| > 0 {
      assert s[i] == r[0];
      assert front == i;
      assert forall k :: 0 <= k < |rest| ==> rest[k] == s[front + k];
      assert rest[|r| - 1] == r[|r| - 1];
      assert back == |rest| - |r|;
      assert rest[..|rest| - back] == r;
    } else {
      assert rest == [];
    }
  }

  /** Trimming is idempotent: a trimmed string has nothing left to strip. */
  lemma TrimIdempotent(s: string)
    ensures Trim(Trim(s)) == Trim(s)
  {
    var r := Trim(s);
    assert LeadingTrimCount(r) == 0;
    assert TrailingTrimCount(r) == 0;
  }

  // ---------------------------------------------------------------------------
  // empty()
  // ---------------------------------------------------------------------------

  /** PHP's `empty` on a string: true for "" and for "0". */
  predicate IsPhpEmpty(s: string) {
    s == "" || s == "0"
  }

  // ---------------------------------------------------------------------------
  // validateProductId
  // ---------------------------------------------------------------------------

  /** A character of the product-ID whitelist `[a-zA-Z0-9\-_]`. */
  predicate IsAllowedChar(c: char) {
    ('a' <= c <= 'z') || ('A' <= c <= 'Z') || ('0' <= c <= '9') || c == '-' || c == '_'
  }

  predicate AllAllowed(s: string) {
    forall i :: 0 <= i < |s| ==> IsAllowedChar(s[i])
  }

  /** The sanitizing substitution of index.php:49: `s` with every character
      outside the whitelist deleted, the others kept in order. */
  function Whitelist(s: string): (r: string)
    ensures AllAllowed(r)
    ensures |r| <= |s|
    ensures forall c :: c in r <==> c in s && IsAllowedChar(c)
    ensures r == s <==> AllAllowed(s)
  {
    if |s| == 0 then []
    else
      var tail := Whitelist(s[1..]);
      assert s == [s[0]] + s[1..];
      if IsAllowedChar(s[0]) then [s[0]] + tail else tail
  }

  /** The filter works character by character: the result for a concatenation
      is the concatenation of the results... */
  lemma {:induction false} WhitelistAppend(a: string, b: string)
    ensures Whitelist(a + b) == Whitelist(a) + Whitelist(b)
  {
    if |a| > 0 {
      assert (a + b)[1..] == a[1..] + b;
      WhitelistAppend(a[1..], b);
    } else {
      assert a + b == b;
    }
  }

  /** ... and a single character is kept exactly when it is allowed. Together
      with `WhitelistAppend` this fixes the result completely: the allowed
      characters of the input, each as often as it occurs, in input order. */
  lemma WhitelistOne(c: char)
    ensures Whitelist([c]) == if IsAllowedChar(c) then [c] else []
  {
    assert [c][1..] == [];
  }

  /** Whitelisting twice removes nothing more. */
  lemma WhitelistIdempotent(s: string)
    ensures Whitelist(Whitelist(s)) == Whitelist(s)
  {
  }

  /** `validateProductId`: the whitelist is used only as an equality test; an ID
      that would lose a character, or whose sanitized form PHP calls empty, is
      rejected with the invalid-ID message and never corrected. */
  function ValidateProductId(id: string): (r: Result<string, Settings.Error>)
    ensures r.Success? <==> !IsPhpEmpty(id) && AllAllowed(id)
    ensures r.Success? ==> r.value == id
    ensures r.Failure? ==> r.error == Settings.InvalidId
  {
    var sanitized := Whitelist(id);
    if IsPhpEmpty(sanitized) || sanitized != id then Failure(Settings.InvalidId)
    else Success(sanitized)
  }

  // ---------------------------------------------------------------------------
  // validateWidth / validateHeight
  // ---------------------------------------------------------------------------

  /** PHP's integer validation filter with a minimum and maximum, applied to
      an integer (index.php:62-67): the value itself when it lies in the
      inclusive range. */
  function FilterValidateInt(value: int, minRange: int, maxRange: int): (r: Option<int>)
    ensures r.Some? <==> minRange <= value <= maxRange
    ensures r.Some? ==> r.value == value
  {
    if minRange <= value && value <= maxRange then Some(value) else None
  }

  /** `validateWidth`: accepts exactly the widths 1..MaxWidth, unchanged. */
  function ValidateWidth(width: int): (r: Result<int, Settings.Error>)
    ensures r.Success? <==> 1 <= width <= Settings.MaxWidth
    ensures r.Success? ==> r.value == width
    ensures r.Failure? ==> r.error == Settings.InvalidWidth
  {
    match FilterValidateInt(width, 1, Settings.MaxWidth)
    case None => Failure(Settings.InvalidWidth)
    case Some(w) => Success(w)
  }

  /** `validateHeight`: accepts exactly the heights 1..MaxHeight, unchanged. */
  function ValidateHeight(height: int): (r: Result<int, Settings.Error>)
    ensures r.Success? <==> 1 <= height <= Settings.MaxHeight
    ensures r.Success? ==> r.value == height
    ensures r.Failure? ==> r.error == Settings.InvalidHeight
  {
    match FilterValidateInt(height, 1, Settings.MaxHeight)
    case None => Failure(Settings.InvalidHeight)
    case Some(h) => Success(h)
  }

  /** The height a request gets when it carries no `h` is itself out of range. */
  lemma FallbackHeightRejected()
    ensures ValidateHeight(Settings.FallbackHeight) == Failure(Settings.InvalidHeight)
  {
  }

  /** The default width, by contrast, is accepted. */
  lemma FallbackWidthAccepted()
    ensures ValidateWidth(Settings.FallbackWidth) == Success(Settings.FallbackWidth)
  {
  }
}
