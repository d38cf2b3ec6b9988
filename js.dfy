/**
 * Small pieces of JavaScript semantics shared by every component of the model:
 * optional values (`undefined`/`null`), the truthiness of an optional string
 * (a search parameter), subsequences, and `String.prototype.trim`.
 */
module Js {

  /** `undefined` or `null` (None), or a present value (Some). */
  datatype Option<+T> = None | Some(value: T) {
    /** The `??` operator: this value when present, otherwise the fallback. */
    function OrElse(fallback: Option<T>): Option<T> {
      if Some? then this else fallback
    }
  }

  /** A possibly absent string is truthy when present and non-empty (`''` is falsy). */
  predicate TruthyText(s: Option<string>) {
    s.Some? && s.value != ""
  }

  /** A possibly absent number is truthy when present and non-zero (NaN is not modelled). */
  predicate TruthyNumber(x: Option<real>) {
    x.Some? && x.value != 0.0
  }

  /** `a` is `b` with some elements deleted, the rest in their order. */
  predicate IsSubsequence<T(==)>(a: seq<T>, b: seq<T>)
    decreases |b|
  {
    || a == []
    || (b != [] && ((a[0] == b[0] && IsSubsequence(a[1..], b[1..])) || IsSubsequence(a, b[1..])))
  }

  /** The characters `String.prototype.trim` strips: WhiteSpace and LineTerminator of ECMAScript. */
  predicate IsWhitespace(c: char) {
    || c == ' ' || c == '\t' || c == '\n' || c == '\r'
    || c == '\U{0B}' || c == '\U{0C}' || c == '\U{A0}' || c == '\U{1680}'
    || ('\U{2000}' <= c <= '\U{200A}')
    || c == '\U{2028}' || c == '\U{2029}' || c == '\U{202F}' || c == '\U{205F}'
    || c == '\U{3000}' || c == '\U{FEFF}'
  }

  /** Drops the leading whitespace of `s`. */
  function TrimStart(s: string): (r: string)
    ensures |r| <= |s| && r == s[|s| - |r|..]
    ensures r == [] || !IsWhitespace(r[0])
    ensures forall i :: 0 <= i < |s| - |r| ==> IsWhitespace(s[i])
  {
    if |s| > 0 && IsWhitespace(s[0]) then TrimStart(s[1..]) else s
  }

  /** Drops the trailing whitespace of `s`. */
  function TrimEnd(s: string): (r: string)
    ensures |r| <= |s| && r == s[..|r|]
    ensures r == [] || !IsWhitespace(r[|r| - 1])
    ensures forall i :: |r| <= i < |s| ==> IsWhitespace(s[i])
  {
    if |s| > 0 && IsWhitespace(s[|s| - 1]) then TrimEnd(s[..|s| - 1]) else s
  }

  /** `s.trim()`: whitespace dropped from both ends. */
  function Trim(s: string): string {
    TrimEnd(TrimStart(s))
  }

  /** A trimmed text is a slice of the original that neither starts nor ends with whitespace. */
  lemma TrimKeepsEnds(s: string)
    ensures var r := Trim(s);
            && |r| <= |s| && r == s[|s| - |TrimStart(s)|..][..|r|]
            && (r == [] || (!IsWhitespace(r[0]) && !IsWhitespace(r[|r| - 1])))
  {
    var front := TrimStart(s);
    var r := TrimEnd(front);
    if r != [] {
      assert r[0] == front[0];
    }
  }

  /** Trimming leaves nothing exactly when every character is whitespace. */
  lemma TrimEmpty(s: string)
    ensures Trim(s) == [] <==> forall i :: 0 <= i < |s| ==> IsWhitespace(s[i])
  {
    var front := TrimStart(s);
    var r := TrimEnd(front);
    var cut := |s| - |front|;
    assert r == [] ==> front == [];
    assert front != [] ==> s[cut] == front[0];
  }

  /** A text without whitespace is its own trimmed form. */
  lemma TrimNoWhitespace(s: string)
    requires forall i :: 0 <= i < |s| ==> !IsWhitespace(s[i])
    ensures Trim(s) == s
  {
    if s != [] {
      var last := |s| - 1;
      assert !IsWhitespace(s[0]) && !IsWhitespace(s[last]);
      calc {
        Trim(s);
        TrimEnd(TrimStart(s));
        TrimEnd(s);
        s;
      }
    } else {
      assert TrimStart(s) == s;
    }
  }
}
