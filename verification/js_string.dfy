/** The parts of JavaScript string semantics the components rely on:
    `String.prototype.trim` and the truthiness of a string that may be absent
    (`x || ''`, `!x`, `message || fallback`). */
module JsString {
  import opened Wrappers

  /** The WhiteSpace and LineTerminator code points of ECMA-262 (sections 12.2
      and 12.3), which `trim` strips from both ends. */
  predicate IsWhitespace(c: char) {
    || c == '\t' || c == '\n' || c == '\U{000B}' || c == '\U{000C}' || c == '\r'
    || c == ' ' || c == '\U{00A0}' || c == '\U{1680}'
    || ('\U{2000}' <= c <= '\U{200A}')
    || c == '\U{2028}' || c == '\U{2029}' || c == '\U{202F}' || c == '\U{205F}'
    || c == '\U{3000}' || c == '\U{FEFF}'
  }

  /** A JavaScript value that is a string or absent is truthy exactly when it is a
      non-empty string. */
  predicate Truthy(o: Option<string>) {
    o.Some? && o.value != ""
  }

  /** `o || ''` for a string that may be absent. */
  function OrEmpty(o: Option<string>): (r: string)
    ensures Truthy(o) ==> r == o.value
    ensures !Truthy(o) ==> r == ""
  {
    o.GetOr("")
  }

  /** `o || fallback` for a string that may be absent. */
  function Or(o: Option<string>, fallback: string): (r: string)
    ensures Truthy(o) ==> r == o.value
    ensures !Truthy(o) ==> r == fallback
  {
    if Truthy(o) then o.value else fallback
  }

  /** `s[lo..hi]` is all whitespace. */
  predicate BlankBetween(s: string, lo: int, hi: int)
    requires 0 <= lo <= hi <= |s|
  {
    forall k :: lo <= k < hi ==> IsWhitespace(s[k])
  }

  /** Every character of `s` is whitespace (the empty string included). */
  predicate IsBlank(s: string) {
    BlankBetween(s, 0, |s|)
  }

  /** The first index at or after `k` that does not hold whitespace (or `|s|`). */
  function StartIndex(s: string, k: nat): (i: nat)
    requires k <= |s|
    ensures k <= i <= |s|
    ensures BlankBetween(s, k, i)
    ensures i == |s| || !IsWhitespace(s[i])
    decreases |s| - k
  {
    if k < |s| && IsWhitespace(s[k]) then StartIndex(s, k + 1) else k
  }

  /** The end of `s[lo..k]` once trailing whitespace is dropped. */
  function EndIndex(s: string, lo: nat, k: nat): (j: nat)
    requires lo <= k <= |s|
    ensures lo <= j <= k
    ensures BlankBetween(s, j, k)
    ensures j == lo || !IsWhitespace(s[j - 1])
    decreases k
  {
    if lo < k && IsWhitespace(s[k - 1]) then EndIndex(s, lo, k - 1) else k
  }

  /** `String.prototype.trim`. */
  function Trim(s: string): string {
    var i := StartIndex(s, 0);
    s[i..EndIndex(s, i, |s|)]
  }

  /** `s[i..j]` is what is left of `s` once blank ends are cut off: the cut-off
      parts are blank and the kept part neither starts nor ends with whitespace. */
  predicate TrimmedAt(s: string, i: int, j: int) {
    && 0 <= i <= j <= |s|
    && BlankBetween(s, 0, i)
    && BlankBetween(s, j, |s|)
    && (i == j || (!IsWhitespace(s[i]) && !IsWhitespace(s[j - 1])))
  }

  /** `Trim` keeps exactly the middle that `TrimmedAt` describes. */
  lemma TrimIsTrimmedAt(s: string)
    ensures var i := StartIndex(s, 0);
            var j := EndIndex(s, i, |s|);
            TrimmedAt(s, i, j) && Trim(s) == s[i..j]
  {
  }

  /** The middle part described by `TrimmedAt` is unique, so `Trim` is the only
      function meeting that description. */
  lemma TrimmedAtIsTrim(s: string, i: int, j: int)
    requires TrimmedAt(s, i, j)
    ensures s[i..j] == Trim(s)
  {
    TrimIsTrimmedAt(s);
    var i' := StartIndex(s, 0);
    var j' := EndIndex(s, i', |s|);
    SameTrimmedBounds(s, i, j, i', j');
  }

  lemma SameTrimmedBounds(s: string, i: int, j: int, i': int, j': int)
    requires TrimmedAt(s, i, j) && TrimmedAt(s, i', j')
    ensures s[i..j] == s[i'..j']
  {
    if i < j && i' < j' {
      // a kept first or last character can lie in neither blank end
    } else if i < j {
      NoKeptCharInBlankEnds(s, i', j', i);
    } else if i' < j' {
      NoKeptCharInBlankEnds(s, i, j, i');
    }
  }

  /** With an empty middle at `k`, every character of `s` lies in a blank end. */
  lemma NoKeptCharInBlankEnds(s: string, k: int, k': int, p: int)
    requires TrimmedAt(s, k, k') && k == k'
    requires 0 <= p < |s|
    ensures IsWhitespace(s[p])
  {
  }

  /** Trimming yields the empty string exactly for blank strings. */
  lemma TrimEmptyIffBlank(s: string)
    ensures Trim(s) == "" <==> IsBlank(s)
  {
    if IsBlank(s) {
      assert TrimmedAt(s, 0, 0);
      TrimmedAtIsTrim(s, 0, 0);
    } else {
      var p :| 0 <= p < |s| && !IsWhitespace(s[p]);
      TrimIsTrimmedAt(s);
      var i := StartIndex(s, 0);
      if Trim(s) == "" {
        NoKeptCharInBlankEnds(s, i, i, p);
      }
    }
  }

  /** A string without whitespace at either end is left as it is. */
  lemma TrimKeepsTrimmed(s: string)
    requires s == [] || (!IsWhitespace(s[0]) && !IsWhitespace(s[|s| - 1]))
    ensures Trim(s) == s
  {
    assert TrimmedAt(s, 0, |s|);
    TrimmedAtIsTrim(s, 0, |s|);
    assert s[0..|s|] == s;
  }

  /** Trimming twice is trimming once. */
  lemma TrimIdempotent(s: string)
    ensures Trim(Trim(s)) == Trim(s)
  {
    var t := Trim(s);
    TrimIsTrimmedAt(s);
    var i := StartIndex(s, 0);
    var j := EndIndex(s, i, |s|);
    if t != [] {
      assert t[0] == s[i] && t[|t| - 1] == s[j - 1];
    }
    TrimKeepsTrimmed(t);
  }
}
