/**
 The JavaScript string operations the ledger page and the report rely on:
 the whitespace class shared by `String.prototype.trim` and the regular
 expression `\s`, lower-casing, `trim`, `includes`, and the rewrite
 `name.replace(/\s+/g, '_')` used for report file names.
 */
module Strings {

  /**
   ECMAScript WhiteSpace and LineTerminator code points: tab, line tabulation,
   form feed, space, no-break space, the other space separators (category Zs),
   byte order mark, line feed, carriage return, line and paragraph separators.
   Both `trim` and `\s` use exactly this class.
   */
  predicate IsSpace(c: char)
  {
    || c == '\t' || c == '\n' || c == '\U{B}' || c == '\U{C}' || c == '\r'
    || c == ' ' || c == '\U{A0}' || c == '\U{1680}'
    || ('\U{2000}' <= c <= '\U{200A}')
    || c == '\U{2028}' || c == '\U{2029}' || c == '\U{202F}' || c == '\U{205F}'
    || c == '\U{3000}' || c == '\U{FEFF}'
  }

  /** Every character of `s` is whitespace (vacuously so for the empty string). */
  predicate AllSpace(s: string)
  {
    forall i :: 0 <= i < |s| ==> IsSpace(s[i])
  }

  /** No character of `s` is whitespace. */
  predicate NoSpace(s: string)
  {
    forall i :: 0 <= i < |s| ==> !IsSpace(s[i])
  }

  /** Lower-casing of one character: ASCII capitals map to their small letters. */
  function LowerChar(c: char): char
  {
    if 'A' <= c <= 'Z' then (c as int - 'A' as int + 'a' as int) as char else c
  }

  /** `toLowerCase`, character by character. */
  function ToLower(s: string): (r: string)
    ensures |r| == |s|
    ensures forall i :: 0 <= i < |s| ==> r[i] == LowerChar(s[i])
  {
    seq(|s|, i requires 0 <= i < |s| => LowerChar(s[i]))
  }

  /** Lower-casing is idempotent. */
  lemma ToLowerIdempotent(s: string)
    ensures ToLower(ToLower(s)) == ToLower(s)
  {
  }

  /** Lower-casing neither creates nor removes whitespace. */
  lemma ToLowerKeepsSpace(s: string)
    ensures forall i :: 0 <= i < |s| ==> (IsSpace(ToLower(s)[i]) <==> IsSpace(s[i]))
  {
  }

  /** Every character of `s` outside the index range `lo .. hi` is whitespace. */
  predicate SpaceOutside(s: string, lo: int, hi: int)
  {
    forall i :: 0 <= i < |s| && !(lo <= i < hi) ==> IsSpace(s[i])
  }

  /** The number of whitespace characters `s` starts with. */
  function LeadingSpaces(s: string): (n: nat)
    ensures n <= |s|
    ensures forall i :: 0 <= i < n ==> IsSpace(s[i])
    ensures n < |s| ==> !IsSpace(s[n])
  {
    if s == [] || !IsSpace(s[0]) then 0 else LeadingSpaces(s[1..]) + 1
  }

  /** The number of whitespace characters `s` ends with. */
  function TrailingSpaces(s: string): (n: nat)
    ensures n <= |s|
    ensures forall i :: |s| - n <= i < |s| ==> IsSpace(s[i])
    ensures n < |s| ==> !IsSpace(s[|s| - n - 1])
  {
    if s == [] || !IsSpace(s[|s| - 1]) then 0 else TrailingSpaces(s[..|s| - 1]) + 1
  }

  /**
   `String.prototype.trim`: `s` without leading and trailing whitespace. The
   result is empty exactly when `s` is all whitespace; otherwise it neither
   starts nor ends with whitespace, and it is the piece of `s` outside of which
   everything is whitespace.
   */
  function Trim(s: string): (r: string)
    ensures r == [] <==> AllSpace(s)
    ensures r != [] ==> !IsSpace(r[0]) && !IsSpace(r[|r| - 1])
    ensures exists k :: OccursAt(s, r, k) && SpaceOutside(s, k, k + |r|)
  {
    var lead := LeadingSpaces(s);
    if lead == |s| then
      assert OccursAt(s, [], lead);
      []
    else
      var hi := |s| - TrailingSpaces(s);
      assert lead < hi;
      assert OccursAt(s, s[lead..hi], lead);
      s[lead..hi]
  }

  /** A query is blank exactly when it trims to the empty string. */
  predicate IsBlank(s: string)
  {
    Trim(s) == []
  }

  /** `needle` occurs in `hay` starting at index `k`. */
  predicate OccursAt(hay: string, needle: string, k: int)
  {
    0 <= k <= |hay| - |needle| && hay[k..k + |needle|] == needle
  }

  /** `includes`: `needle` occurs in `hay` as a contiguous piece (the empty needle always does). */
  predicate Contains(hay: string, needle: string)
    decreases |hay|
  {
    needle <= hay || (hay != [] && Contains(hay[1..], needle))
  }

  /** Whatever `Contains` finds occurs at some index of `hay`. */
  lemma {:induction false} ContainsOccurs(hay: string, needle: string)
    requires Contains(hay, needle)
    ensures exists k :: OccursAt(hay, needle, k)
    decreases |hay|
  {
    if needle <= hay {
      assert OccursAt(hay, needle, 0);
    } else {
      ContainsOccurs(hay[1..], needle);
      var k :| OccursAt(hay[1..], needle, k);
      assert hay[k + 1..k + 1 + |needle|] == hay[1..][k..k + |needle|];
      assert OccursAt(hay, needle, k + 1);
    }
  }

  /** An occurrence at any index is found by `Contains`. */
  lemma {:induction false} OccursContains(hay: string, needle: string, k: int)
    requires OccursAt(hay, needle, k)
    ensures Contains(hay, needle)
    decreases k
  {
    if k == 0 {
      assert needle <= hay;
    } else {
      assert hay[1..][k - 1..k - 1 + |needle|] == hay[k..k + |needle|];
      OccursContains(hay[1..], needle, k - 1);
    }
  }

  /** `includes` holds exactly when `needle` occurs at some index of `hay`. */
  lemma ContainsIff(hay: string, needle: string)
    ensures Contains(hay, needle) <==> exists k :: OccursAt(hay, needle, k)
  {
    if Contains(hay, needle) {
      ContainsOccurs(hay, needle);
    }
    if exists k :: OccursAt(hay, needle, k) {
      var k :| OccursAt(hay, needle, k);
      OccursContains(hay, needle, k);
    }
  }

  /**
   `s.replace(/\s+/g, '_')`: every maximal run of whitespace becomes one
   underscore and every other character is kept. Scanning left to right, a
   whitespace character followed by more whitespace is dropped and the last
   one of its run becomes the underscore.
   */
  function CollapseSpaces(s: string): (r: string)
    ensures |r| <= |s|
  {
    if s == [] then []
    else if IsSpace(s[0]) && |s| > 1 && IsSpace(s[1]) then CollapseSpaces(s[1..])
    else if IsSpace(s[0]) then "_" + CollapseSpaces(s[1..])
    else [s[0]] + CollapseSpaces(s[1..])
  }

  /** The collapsed string contains no whitespace at all. */
  lemma {:induction false} CollapseHasNoSpace(s: string)
    ensures NoSpace(CollapseSpaces(s))
  {
    if s != [] {
      CollapseHasNoSpace(s[1..]);
    }
  }

  /** A string without whitespace is left unchanged. */
  lemma {:induction false} CollapseNoSpace(s: string)
    requires NoSpace(s)
    ensures CollapseSpaces(s) == s
  {
    if s != [] {
      CollapseNoSpace(s[1..]);
      assert s == [s[0]] + s[1..];
    }
  }

  /** A non-empty whitespace run becomes exactly one underscore. */
  lemma {:induction false} CollapseRun(s: string)
    requires s != [] && AllSpace(s)
    ensures CollapseSpaces(s) == "_"
  {
    if |s| > 1 {
      CollapseRun(s[1..]);
    }
  }

  /**
   Collapsing is compositional at any split point that does not cut a
   whitespace run in two.
   */
  lemma {:induction false} CollapseAppend(x: string, y: string)
    requires x == [] || y == [] || !IsSpace(x[|x| - 1]) || !IsSpace(y[0])
    ensures CollapseSpaces(x + y) == CollapseSpaces(x) + CollapseSpaces(y)
  {
    if x == [] {
      assert x + y == y;
    } else if |x| == 1 {
      CollapseAppendOne(x, y);
    } else {
      var c, x' := x[0], x[1..];
      assert x == [c] + x';
      assert x + y == [c] + (x' + y);
      assert x'[|x'| - 1] == x[|x| - 1];
      CollapseAppend(x', y);
      CollapseAppendStep(c, x', y);
    }
  }

  /** The inductive step of `CollapseAppend`: one more character in front of `x'`. */
  lemma CollapseAppendStep(c: char, x': string, y: string)
    requires x' != []
    requires CollapseSpaces(x' + y) == CollapseSpaces(x') + CollapseSpaces(y)
    ensures CollapseSpaces([c] + (x' + y)) == CollapseSpaces([c] + x') + CollapseSpaces(y)
  {
    assert (x' + y)[0] == x'[0];
    CollapseCons(c, x');
    CollapseCons(c, x' + y);
    if !IsSpace(c) || !IsSpace(x'[0]) {
      var p := if IsSpace(c) then "_" else [c];
      PrefixGlue(p, CollapseSpaces([c] + (x' + y)), CollapseSpaces([c] + x'),
                 CollapseSpaces(x' + y), CollapseSpaces(x'), CollapseSpaces(y));
    }
  }

  /** Putting the same prefix in front of `u` and of `u + v`. */
  lemma PrefixGlue(p: string, a: string, b: string, m: string, u: string, v: string)
    requires a == p + m && b == p + u && m == u + v
    ensures a == b + v
  {
    assert p + (u + v) == (p + u) + v;
  }

  /** How collapsing treats the first character of a string. */
  lemma CollapseCons(c: char, s: string)
    ensures CollapseSpaces([c] + s) ==
      if IsSpace(c) && s != [] && IsSpace(s[0]) then CollapseSpaces(s)
      else if IsSpace(c) then "_" + CollapseSpaces(s)
      else [c] + CollapseSpaces(s)
  {
    assert ([c] + s)[1..] == s;
  }

  /** `CollapseAppend` for a one-character `x`. */
  lemma CollapseAppendOne(x: string, y: string)
    requires |x| == 1
    requires y == [] || !IsSpace(x[0]) || !IsSpace(y[0])
    ensures CollapseSpaces(x + y) == CollapseSpaces(x) + CollapseSpaces(y)
  {
    assert x + y == [x[0]] + y;
    assert (x + y)[1..] == y;
  }
}
