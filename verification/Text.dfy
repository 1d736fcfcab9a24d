/** Characters, whitespace and whitespace-separated tokens, as the regular
    expression `\S+` and `str.splitlines` see them. */
module Text {

  /** The characters for which `str.isspace` holds. */
  predicate IsSpace(c: char) {
    var n := c as int;
    || 0x09 <= n <= 0x0d || 0x1c <= n <= 0x20 || n == 0x85 || n == 0xa0
    || n == 0x1680 || 0x2000 <= n <= 0x200a || n == 0x2028 || n == 0x2029
    || n == 0x202f || n == 0x205f || n == 0x3000
  }

  /** The characters at which `str.splitlines` ends a line. */
  predicate IsLineBreak(c: char) {
    var n := c as int;
    0x0a <= n <= 0x0d || 0x1c <= n <= 0x1e || n == 0x85 || n == 0x2028 || n == 0x2029
  }

  /** A run of non-space characters of `text[lo..]` begins at `i`. */
  predicate IsTokenStart(text: string, lo: nat, i: nat)
    requires lo <= i < |text|
  {
    !IsSpace(text[i]) && (i == lo || IsSpace(text[i - 1]))
  }

  /** The start of every token that `\S+` finds between `lo` and `hi`. */
  function TokenStarts(text: string, lo: nat, hi: nat): seq<nat>
    requires lo <= hi <= |text|
    decreases hi - lo
  {
    if lo == hi then []
    else TokenStarts(text, lo, hi - 1) + if IsTokenStart(text, lo, hi - 1) then [hi - 1] else []
  }

  function Count(text: string, lo: nat, hi: nat): nat
    requires lo <= hi <= |text|
    decreases hi - lo
  {
    if lo == hi then 0
    else Count(text, lo, hi - 1) + if IsTokenStart(text, lo, hi - 1) then 1 else 0
  }

  lemma {:induction false} CountIsNumberOfTokens(text: string, lo: nat, hi: nat)
    requires lo <= hi <= |text|
    ensures |TokenStarts(text, lo, hi)| == Count(text, lo, hi)
    decreases hi
  {
    if lo < hi {
      CountIsNumberOfTokens(text, lo, hi - 1);
    }
  }

  /** `TokenStarts` lists the token starts of its range, all of them, in increasing order. */
  lemma {:induction false} TokenStartsAreTheTokens(text: string, lo: nat, hi: nat)
    requires lo <= hi <= |text|
    ensures forall i :: lo <= i < hi ==> (i in TokenStarts(text, lo, hi) <==> IsTokenStart(text, lo, i))
    ensures forall k :: 0 <= k < |TokenStarts(text, lo, hi)| ==> lo <= TokenStarts(text, lo, hi)[k] < hi
    ensures forall j, k :: 0 <= j < k < |TokenStarts(text, lo, hi)| ==>
      TokenStarts(text, lo, hi)[j] < TokenStarts(text, lo, hi)[k]
    decreases hi
  {
    if lo < hi {
      TokenStartsAreTheTokens(text, lo, hi - 1);
      assert TokenStarts(text, lo, hi) == TokenStarts(text, lo, hi - 1) + if IsTokenStart(text, lo, hi - 1) then
          [hi - 1] else [];
    }
  }

  /** No token of the text reaches across position `m`. */
  predicate IsSeam(text: string, m: nat)
    requires m <= |text|
  {
    m == 0 || m == |text| || IsSpace(text[m - 1]) || IsSpace(text[m])
  }

  /** The tokens on the two sides of a seam are the tokens of the whole. */
  lemma {:induction false} CountAcrossSeam(text: string, lo: nat, m: nat, hi: nat)
    requires lo <= m <= hi <= |text|
    requires IsSeam(text, m)
    ensures Count(text, lo, hi) == Count(text, lo, m) + Count(text, m, hi)
    decreases hi - m
  {
    if m < hi {
      CountAcrossSeam(text, lo, m, hi - 1);
    }
  }

  /** A wider range between seams has at least as many tokens. */
  lemma CountMonotone(text: string, lo: nat, inLo: nat, inHi: nat, hi: nat)
    requires lo <= inLo <= inHi <= hi <= |text|
    requires IsSeam(text, inLo) && IsSeam(text, inHi)
    ensures Count(text, inLo, inHi) <= Count(text, lo, hi)
  {
    CountAcrossSeam(text, lo, inLo, hi);
    CountAcrossSeam(text, inLo, inHi, hi);
  }

  /** Cutting a range just before its k-th token leaves k tokens on the left. */
  lemma {:induction false} CountBeforeToken(text: string, lo: nat, hi: nat, k: nat)
    requires lo <= hi <= |text| && k < |TokenStarts(text, lo, hi)|
    ensures lo <= TokenStarts(text, lo, hi)[k] < hi
    ensures Count(text, lo, TokenStarts(text, lo, hi)[k]) == k
    ensures TokenStarts(text, lo, hi)[k] == lo || IsSeam(text, TokenStarts(text, lo, hi)[k])
    decreases hi
  {
    CountIsNumberOfTokens(text, lo, hi - 1);
    if k < |TokenStarts(text, lo, hi - 1)| {
      CountBeforeToken(text, lo, hi - 1, k);
    }
  }
}
