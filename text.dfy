/** Python `str` operations used by the pipeline, over `seq<char>` (one char per code point). */
module Text {
  import Seqs

  /** Python's `str.isspace()`, which is also what `str.split()`, `str.strip()` and the regex
      class `\s` use on text. */
  predicate IsSpace(c: char) {
    ('\U{0009}' <= c <= '\U{000D}') || ('\U{001C}' <= c <= '\U{001F}') || c == ' ' ||
    c == '\U{0085}' || c == '\U{00A0}' || c == '\U{1680}' || ('\U{2000}' <= c <= '\U{200A}') ||
    c == '\U{2028}' || c == '\U{2029}' || c == '\U{202F}' || c == '\U{205F}' || c == '\U{3000}'
  }

  predicate IsBlank(s: string) {
    forall k :: 0 <= k < |s| ==> IsSpace(s[k])
  }

  /** No whitespace at either end: the shape of everything `strip()` returns. */
  predicate IsStripped(s: string) {
    s == [] || (!IsSpace(s[0]) && !IsSpace(s[|s| - 1]))
  }

  function StripLeft(s: string): (r: string)
    ensures |r| <= |s| && r == s[|s| - |r|..]
    ensures r == [] || !IsSpace(r[0])
    ensures r == [] <==> IsBlank(s)
    decreases |s|
  {
    if s != [] && IsSpace(s[0]) then StripLeft(s[1..]) else s
  }

  function StripRight(s: string): (r: string)
    ensures |r| <= |s| && r == s[..|r|]
    ensures r == [] || !IsSpace(r[|r| - 1])
    ensures r == [] <==> IsBlank(s)
    decreases |s|
  {
    if s != [] && IsSpace(s[|s| - 1]) then StripRight(s[..|s| - 1]) else s
  }

  /** Python's `s.strip()`. */
  function Strip(s: string): (r: string)
    ensures IsStripped(r)
    ensures |r| <= |s|
    ensures r == [] <==> IsBlank(s)
  {
    StripRight(StripLeft(s))
  }

  /** `s.strip()` is a contiguous piece of `s`. */
  lemma StripIsSlice(s: string)
    ensures OccursAt(s, Strip(s), |s| - |StripLeft(s)|)
  {
    var l := StripLeft(s);
    PrefixOfSuffixOccurs(s, |s| - |l|, l, StripRight(l));
  }

  /** A prefix of a suffix occurs where the suffix starts. */
  lemma PrefixOfSuffixOccurs(s: string, a: nat, l: string, r: string)
    requires a <= |s| && l == s[a..] && |r| <= |l| && r == l[..|r|]
    ensures OccursAt(s, r, a)
  {
    Seqs.PrefixOfSuffix(s, a, l, r);
  }

  /** Stripping text whose first character is not a space only trims its end. */
  lemma StripKeepsFront(s: string)
    requires s != [] && !IsSpace(s[0])
    ensures Strip(s) != [] && HasPrefix(s, Strip(s))
  {
    assert StripLeft(s) == s;
  }

  /** `strip()` adds no character. */
  lemma StripKeepsOut(s: string, c: char)
    requires c !in s
    ensures c !in Strip(s)
  {
    StripIsSlice(s);
    OccursKeepsOut(s, Strip(s), |s| - |StripLeft(s)|, c);
  }

  /** A piece of a string holds no character the string does not. */
  lemma OccursKeepsOut(s: string, r: string, a: int, c: char)
    requires OccursAt(s, r, a) && c !in s
    ensures c !in r
  {
    forall k | 0 <= k < |r|
      ensures r[k] != c
    {
      assert r[k] == s[a + k];
    }
  }

  /** Two stripped, non-empty strings joined by a space are already stripped. */
  lemma StripSpaced(b: string, c: string)
    requires c != [] && IsStripped(c) && IsStripped(b)
    ensures Strip(b + " " + c) == if b == [] then c else b + " " + c
  {
    if b == [] {
      assert b + " " + c == " " + c;
      StripSpacePrefix(c);
    } else {
      var t := b + " " + c;
      assert t[0] == b[0] && t[|t| - 1] == c[|c| - 1];
      StripOfStripped(t);
    }
  }

  lemma StripOfStripped(s: string)
    requires IsStripped(s)
    ensures Strip(s) == s
  {
  }

  /** `(" " + c).strip()` when `c` is already stripped and not empty. */
  lemma StripSpacePrefix(c: string)
    requires c != [] && IsStripped(c)
    ensures Strip(" " + c) == c
  {
    assert (" " + c)[1..] == c;
    assert StripLeft(" " + c) == StripLeft(c) == c;
    assert StripRight(c) == c;
  }

  predicate HasPrefix(s: string, p: string) { |p| <= |s| && s[..|p|] == p }

  predicate HasSuffix(s: string, p: string) { |p| <= |s| && s[|s| - |p|..] == p }

  predicate ContainsChar(s: string, c: char) { c in s }

  lemma PrefixOfConcat(a: string, b: string)
    ensures HasPrefix(a + b, a)
  {
    assert (a + b)[..|a|] == a;
  }

  lemma SuffixOfConcat(a: string, b: string)
    ensures HasSuffix(a + b, b)
  {
    assert (a + b)[|a + b| - |b|..] == b;
  }

  /** The first and last parts of a three-part concatenation. */
  lemma Framed(a: string, b: string, c: string)
    ensures HasPrefix(a + b + c, a) && HasSuffix(a + b + c, c)
  {
    PrefixOfConcat(a, b + c);
    SuffixOfConcat(a + b, c);
    assert a + (b + c) == a + b + c;
  }

  /** What follows a prefix. */
  lemma AfterPrefix(a: string, b: string)
    ensures HasPrefix(a + b, a) && (a + b)[|a|..] == b
  {
    PrefixOfConcat(a, b);
  }

  lemma PrefixTrans(a: string, b: string, c: string)
    requires HasPrefix(a, b) && HasPrefix(b, c)
    ensures HasPrefix(a, c)
  {
    assert a[..|c|] == a[..|b|][..|c|];
  }

  lemma SuffixTrans(a: string, b: string, c: string)
    requires HasSuffix(a, b) && HasSuffix(b, c)
    ensures HasSuffix(a, c)
  {
    assert a[|a| - |c|..] == a[|a| - |b|..][|b| - |c|..];
  }

  /** `sub` occurs in `s` at position `i`. */
  predicate OccursAt(s: string, sub: string, i: int) {
    0 <= i && i + |sub| <= |s| && s[i..i + |sub|] == sub
  }

  /** `sub in s` for strings. */
  predicate Contains(s: string, sub: string) {
    exists i | 0 <= i <= |s| :: OccursAt(s, sub, i)
  }

  /** Python's `s.find(sub)`, -1 when absent. */
  function Find(s: string, sub: string): (r: int)
    ensures r == -1 || OccursAt(s, sub, r)
    ensures forall i :: 0 <= i && (r == -1 || i < r) ==> !OccursAt(s, sub, i)
    ensures r == -1 <==> !Contains(s, sub)
  {
    FindFrom(s, sub, 0)
  }

  function FindFrom(s: string, sub: string, from: nat): (r: int)
    ensures r == -1 || (from <= r && OccursAt(s, sub, r))
    ensures forall i :: from <= i && (r == -1 || i < r) ==> !OccursAt(s, sub, i)
    decreases |s| - from
  {
    if from + |sub| > |s| then -1
    else if s[from..from + |sub|] == sub then from
    else FindFrom(s, sub, from + 1)
  }

  /** Python's `s.rfind(c)` for a one-character needle, -1 when absent. */
  function RFind(s: string, c: char): (r: int)
    ensures -1 <= r < |s|
    ensures r >= 0 ==> s[r] == c
    ensures forall i :: r < i < |s| ==> s[i] != c
    ensures r == -1 <==> c !in s
    decreases |s|
  {
    if s == [] then -1
    else if s[|s| - 1] == c then |s| - 1
    else RFind(s[..|s| - 1], c)
  }

  /** Python's `s[:n]` for `n >= 0`, on strings and lists alike. */
  function Take<T>(s: seq<T>, n: nat): (r: seq<T>)
    ensures |r| == if n < |s| then n else |s|
    ensures r == s[..|r|]
    ensures |s| <= n ==> r == s
  {
    if n < |s| then s[..n] else s
  }

  /** Taking at least one element of a non-empty sequence. */
  lemma TakeSome<T>(s: seq<T>, n: nat)
    requires s != [] && 1 <= n
    ensures 1 <= |Take(s, n)| <= n && Take(s, n) == s[..|Take(s, n)|]
  {
  }

  /** `[x.strip() for x in xs]`. */
  function StripAll(xs: seq<string>): (ls: seq<string>)
    ensures |ls| == |xs|
  {
    seq(|xs|, k requires 0 <= k < |xs| => Strip(xs[k]))
  }

  /** Every element of `StripAll` is stripped. */
  lemma StripAllStripped(xs: seq<string>, x: string)
    requires x in StripAll(xs)
    ensures IsStripped(x)
  {
    var k :| 0 <= k < |xs| && StripAll(xs)[k] == x;
    assert x == Strip(xs[k]);
  }

  /** Python's `s.split(c)` with a one-character separator. */
  function SplitOn(s: string, c: char): (r: seq<string>)
    ensures |r| >= 1
    ensures forall k :: 0 <= k < |r| ==> c !in r[k]
    decreases |s|
  {
    if s == [] then [""]
    else
      var rest := SplitOn(s[1..], c);
      if s[0] == c then [""] + rest
      else [[s[0]] + rest[0]] + rest[1..]
  }

  lemma {:induction false} SplitOnNoSep(a: string, c: char)
    requires c !in a
    ensures SplitOn(a, c) == [a]
    decreases |a|
  {
    if a != [] {
      SplitOnNoSep(a[1..], c);
      assert [a[0]] + a[1..] == a;
    }
  }

  /** Splitting after a first piece with no separator in it. */
  lemma {:induction false} SplitOnConcat(a: string, b: string, c: char)
    requires c !in a
    ensures SplitOn(a + [c] + b, c) == [a] + SplitOn(b, c)
    decreases |a|
  {
    var s := a + [c] + b;
    if a == [] {
      assert s[1..] == b;
    } else {
      assert s[1..] == a[1..] + [c] + b;
      SplitOnConcat(a[1..], b, c);
      assert [a[0]] + a[1..] == a;
    }
  }

  /** `s.split(d)` adds no character. */
  lemma {:induction false} SplitOnKeepsOut(s: string, d: char, c: char)
    requires c !in s
    ensures forall k :: 0 <= k < |SplitOn(s, d)| ==> c !in SplitOn(s, d)[k]
    decreases |s|
  {
    if s != [] {
      SplitOnKeepsOut(s[1..], d, c);
      assert c !in s[1..] by { assert forall k :: 0 <= k < |s| - 1 ==> s[1..][k] == s[k + 1]; }
    }
  }

  /** Python's `sep.join(xs)`. */
  function Join(sep: string, xs: seq<string>): string
    decreases |xs|
  {
    if xs == [] then ""
    else if |xs| == 1 then xs[0]
    else xs[0] + sep + Join(sep, xs[1..])
  }

  lemma {:induction false} SplitOnJoin(s: string, c: char)
    ensures Join([c], SplitOn(s, c)) == s
    decreases |s|
  {
    if s != [] {
      var rest := SplitOn(s[1..], c);
      SplitOnJoin(s[1..], c);
      if s[0] == c {
        assert ([""] + rest)[1..] == rest;
      } else if |rest| > 1 {
        assert ([[s[0]] + rest[0]] + rest[1..])[1..] == rest[1..];
        assert rest[1..][1..] == rest[2..];
      }
    }
  }

  /** `s.split(c)` undoes `c.join(xs)` when no piece contains `c`. */
  lemma {:induction false} JoinSplitOn(xs: seq<string>, c: char)
    requires xs != []
    requires forall k :: 0 <= k < |xs| ==> c !in xs[k]
    ensures SplitOn(Join([c], xs), c) == xs
    decreases |xs|
  {
    if |xs| == 1 {
      SplitOnNoSep(xs[0], c);
    } else {
      JoinSplitOn(xs[1..], c);
      SplitOnConcat(xs[0], Join([c], xs[1..]), c);
      assert [xs[0]] + xs[1..] == xs;
    }
  }

  lemma {:induction false} JoinAppend(sep: string, xs: seq<string>, x: string)
    ensures Join(sep, xs + [x]) == if xs == [] then x else Join(sep, xs) + sep + x
    decreases |xs|
  {
    if |xs| > 1 {
      assert (xs + [x])[1..] == xs[1..] + [x];
      JoinAppend(sep, xs[1..], x);
    } else if |xs| == 1 {
      assert (xs + [x])[1..] == [x];
    }
  }

  lemma SpacedAssoc(j: string, x: string, c: string)
    ensures j + " " + (x + " " + c) == (j + " " + x) + " " + c
  {
  }

  lemma {:induction false} JoinConcat(sep: string, xs: seq<string>, ys: seq<string>)
    requires xs != [] && ys != []
    ensures Join(sep, xs + ys) == Join(sep, xs) + sep + Join(sep, ys)
    decreases |xs|
  {
    if |xs| == 1 {
      assert (xs + ys)[1..] == ys;
    } else {
      assert (xs + ys)[1..] == xs[1..] + ys;
      JoinConcat(sep, xs[1..], ys);
    }
  }

  /** Concatenation of a sequence of groups. */
  function Flatten<T>(gs: seq<seq<T>>): seq<T>
    decreases |gs|
  {
    if gs == [] then [] else gs[0] + Flatten(gs[1..])
  }

  lemma {:induction false} FlattenAppend<T>(gs: seq<seq<T>>, g: seq<T>)
    ensures Flatten(gs + [g]) == Flatten(gs) + g
    decreases |gs|
  {
    if gs == [] {
      assert ([g])[1..] == [];
    } else {
      assert (gs + [g])[1..] == gs[1..] + [g];
      FlattenAppend(gs[1..], g);
    }
  }

  /** Each group joined with `sep`. */
  function JoinEach(sep: string, gs: seq<seq<string>>): (r: seq<string>)
    ensures |r| == |gs|
    ensures forall k :: 0 <= k < |gs| ==> r[k] == Join(sep, gs[k])
    decreases |gs|
  {
    if gs == [] then [] else [Join(sep, gs[0])] + JoinEach(sep, gs[1..])
  }

  /** Joining the joined groups is joining the concatenated groups, when no group is empty. */
  lemma {:induction false} JoinOfGroups(sep: string, gs: seq<seq<string>>)
    requires forall k :: 0 <= k < |gs| ==> gs[k] != []
    ensures Join(sep, JoinEach(sep, gs)) == Join(sep, Flatten(gs))
    decreases |gs|
  {
    if |gs| == 1 {
      assert Flatten(gs) == gs[0] + Flatten(gs[1..]);
      assert gs[0] + [] == gs[0];
    } else if |gs| > 1 {
      JoinOfGroups(sep, gs[1..]);
      assert JoinEach(sep, gs)[1..] == JoinEach(sep, gs[1..]);
      assert Flatten(gs[1..]) != [] by { assert gs[1..][0] == gs[1]; }
      JoinConcat(sep, gs[0], Flatten(gs[1..]));
    }
  }

  /** Length of the leading run of non-space characters. */
  function WordLen(s: string): (n: nat)
    ensures n <= |s|
    ensures forall k :: 0 <= k < n ==> !IsSpace(s[k])
    ensures n < |s| ==> IsSpace(s[n])
    decreases |s|
  {
    if s == [] || IsSpace(s[0]) then 0 else 1 + WordLen(s[1..])
  }

  /** Python's `s.split()` with no argument: the maximal runs of non-space characters. */
  function Words(s: string): seq<string>
    decreases |s|
  {
    var t := StripLeft(s);
    if t == [] then []
    else
      var n := WordLen(t);
      [t[..n]] + Words(t[n..])
  }

  /** Blank text in front changes nothing for `lstrip()`. */
  lemma {:induction false} StripLeftBlankFront(a: string, x: string)
    requires IsBlank(a)
    ensures StripLeft(a + x) == StripLeft(x)
    decreases |a|
  {
    if a == [] {
      assert a + x == x;
    } else {
      assert (a + x)[0] == a[0];
      assert (a + x)[1..] == a[1..] + x;
      assert IsBlank(a[1..]) by { assert forall k :: 0 <= k < |a| - 1 ==> a[1..][k] == a[k + 1]; }
      StripLeftBlankFront(a[1..], x);
    }
  }

  /** Text after a non-blank string is kept whole by `lstrip()`. */
  lemma {:induction false} StripLeftKeepsBack(a: string, x: string)
    requires !IsBlank(a)
    ensures StripLeft(a + x) == StripLeft(a) + x
    decreases |a|
  {
    assert (a + x)[0] == a[0];
    if IsSpace(a[0]) {
      assert (a + x)[1..] == a[1..] + x;
      assert !IsBlank(a[1..]) by {
        var k :| 0 <= k < |a| && !IsSpace(a[k]);
        assert a[1..][k - 1] == a[k];
      }
      StripLeftKeepsBack(a[1..], x);
    }
  }

  /** A word ends at the latest where a space follows. */
  lemma {:induction false} WordLenBefore(a: string, y: string)
    requires y != [] && IsSpace(y[0])
    ensures WordLen(a + y) == WordLen(a)
    decreases |a|
  {
    if a == [] {
      assert a + y == y;
    } else {
      assert (a + y)[0] == a[0];
      if !IsSpace(a[0]) {
        assert (a + y)[1..] == a[1..] + y;
        WordLenBefore(a[1..], y);
      }
    }
  }

  /** One step of `Words`. */
  lemma WordsUnfold(s: string)
    ensures StripLeft(s) == [] ==> Words(s) == []
    ensures StripLeft(s) != [] ==>
      Words(s) == [StripLeft(s)[..WordLen(StripLeft(s))]] + Words(StripLeft(s)[WordLen(StripLeft(s))..])
  {
  }

  /** One step of `Words`, with the stripped text and its first word's length given. */
  lemma WordsAt(s: string, l: string, n: nat)
    requires StripLeft(s) == l && l != [] && WordLen(l) == n
    ensures Words(s) == [l[..n]] + Words(l[n..])
  {
    WordsUnfold(s);
  }

  /** Strings with the same `lstrip()` have the same words. */
  lemma WordsOfStripLeft(s: string, t: string)
    requires StripLeft(s) == StripLeft(t)
    ensures Words(s) == Words(t)
  {
    WordsUnfold(s);
    WordsUnfold(t);
  }

  lemma SlicesOfConcat(l: string, x: string, n: nat)
    requires n <= |l|
    ensures (l + x)[..n] == l[..n]
    ensures (l + x)[n..] == l[n..] + x
  {
  }

  /** Whitespace after `a` separates its words from those that follow:
      `(a + x).split() == a.split() + x.split()` when `x` starts with whitespace. */
  lemma {:induction false} WordsBefore(a: string, x: string)
    requires x != [] && IsSpace(x[0])
    ensures Words(a + x) == Words(a) + Words(x)
    decreases |a|
  {
    if IsBlank(a) {
      WordsBeforeBlank(a, x);
    } else {
      var l := StripLeft(a);
      var n := WordLen(l);
      WordsFirstWord(a, x);
      WordsBefore(l[n..], x);
      ConsAssoc(l[..n], Words(l[n..]), Words(x));
    }
  }

  lemma WordsBeforeBlank(a: string, x: string)
    requires IsBlank(a)
    ensures Words(a + x) == Words(a) + Words(x)
  {
    StripLeftBlankFront(a, x);
    WordsOfStripLeft(a + x, x);
    WordsUnfold(a);
  }

  lemma ConsAssoc(w: string, ws: seq<string>, vs: seq<string>)
    ensures [w] + (ws + vs) == [w] + ws + vs
  {
  }

  /** The first word of `a + x` is the first word of `a`. */
  lemma WordsFirstWord(a: string, x: string)
    requires x != [] && IsSpace(x[0]) && !IsBlank(a)
    ensures var l := StripLeft(a); var n := WordLen(l);
      && 0 < n <= |l| <= |a|
      && Words(a) == [l[..n]] + Words(l[n..])
      && Words(a + x) == [l[..n]] + Words(l[n..] + x)
  {
    var l := StripLeft(a);
    var n := WordLen(l);
    StripLeftKeepsBack(a, x);
    WordLenBefore(l, x);
    SlicesOfConcat(l, x, n);
    WordsAt(a, l, n);
    WordsAt(a + x, l + x, n);
  }

  /** The number of words in all of `xs`: the sum of `len(x.split())`. */
  function WordTotal(xs: seq<string>): nat
    decreases |xs|
  {
    if xs == [] then 0 else WordTotal(xs[..|xs| - 1]) + |Words(xs[|xs| - 1])|
  }

  /** `" ".join(xs)` has as many words as the pieces together. */
  lemma {:induction false} WordsOfJoin(xs: seq<string>)
    ensures |Words(Join(" ", xs))| == WordTotal(xs)
    decreases |xs|
  {
    if xs != [] {
      var init, x := xs[..|xs| - 1], xs[|xs| - 1];
      assert xs == init + [x];
      JoinAppend(" ", init, x);
      WordsOfJoin(init);
      if init != [] {
        WordsSpaced(Join(" ", init), x);
      }
    }
  }

  lemma WordsSpaced(j: string, x: string)
    ensures |Words(j + " " + x)| == |Words(j)| + |Words(x)|
  {
    assert j + " " + x == j + (" " + x);
    WordsBefore(j, " " + x);
    StripLeftBlankFront(" ", x);
    WordsOfStripLeft(" " + x, x);
  }

  /** The number of distinct words, `len(set(s.split()))`. */
  function DistinctWords(s: string): nat {
    var ws := Words(s);
    |set k | 0 <= k < |ws| :: ws[k]|
  }

  /** Python's `" ".join(s.split())`: runs of whitespace become one space, ends trimmed. */
  function Normalize(s: string): string {
    Join(" ", Words(s))
  }

  /** ASCII lower-casing, which is all `str.lower()` does to the ASCII labels it is compared with. */
  function LowerAscii(c: char): char {
    if 'A' <= c <= 'Z' then (c as int + 32) as char else c
  }

  /** `s.lower().startswith(p.lower())` for an ASCII label `p` with no `i` or `k` in it: no
      non-ASCII character lower-cases to any of its letters, so comparing character by character
      after ASCII lower-casing gives the same answer. */
  predicate HasPrefixIgnoreCase(s: string, p: string) {
    |p| <= |s| && forall k :: 0 <= k < |p| ==> LowerAscii(s[k]) == LowerAscii(p[k])
  }

  // ---- Decimal formatting -------------------------------------------------------------

  function DigitChar(d: nat): (c: char)
    requires d < 10
    ensures '0' <= c <= '9' && c as int - '0' as int == d
  {
    ('0' as int + d) as char
  }

  predicate IsAsciiDigit(c: char) { '0' <= c <= '9' }

  /** Python's `str(n)` / `f"{n}"` for a natural number. */
  function Decimal(n: nat): (r: string)
    ensures r != []
    ensures forall k :: 0 <= k < |r| ==> IsAsciiDigit(r[k])
    ensures |r| > 1 ==> r[0] != '0'
    decreases n
  {
    if n < 10 then [DigitChar(n)] else Decimal(n / 10) + [DigitChar(n % 10)]
  }

  /** Reads a string of ASCII digits back as a number. */
  function DigitsValue(s: string): nat
    requires forall k :: 0 <= k < |s| ==> IsAsciiDigit(s[k])
    decreases |s|
  {
    if s == [] then 0
    else
      var d := s[|s| - 1];
      assert IsAsciiDigit(d);
      10 * DigitsValue(s[..|s| - 1]) + (d as int - '0' as int)
  }

  lemma {:induction false} DecimalRoundTrip(n: nat)
    ensures DigitsValue(Decimal(n)) == n
    decreases n
  {
    if n >= 10 {
      DecimalRoundTrip(n / 10);
      var r := Decimal(n);
      assert r[..|r| - 1] == Decimal(n / 10);
    }
  }

  /** Python's `f"{n:04d}"`: zero-padded on the left to at least four digits. */
  function Pad4(n: nat): (r: string)
    ensures |r| >= 4
    ensures forall k :: 0 <= k < |r| ==> IsAsciiDigit(r[k])
    ensures DigitsValue(r) == n
  {
    var d := Decimal(n);
    DecimalRoundTrip(n);
    var z := seq(if |d| < 4 then 4 - |d| else 0, _ => '0');
    LeadingZeros(z, d);
    z + d
  }

  lemma {:induction false} LeadingZeros(z: string, d: string)
    requires forall k :: 0 <= k < |z| ==> z[k] == '0'
    requires forall k :: 0 <= k < |d| ==> IsAsciiDigit(d[k])
    ensures forall k :: 0 <= k < |z + d| ==> IsAsciiDigit((z + d)[k])
    ensures DigitsValue(z + d) == DigitsValue(d)
    decreases |d|
  {
    if d == [] {
      assert z + d == z;
      AllZeros(z);
    } else {
      assert (z + d)[..|z + d| - 1] == z + d[..|d| - 1];
      LeadingZeros(z, d[..|d| - 1]);
    }
  }

  lemma {:induction false} AllZeros(z: string)
    requires forall k :: 0 <= k < |z| ==> z[k] == '0'
    ensures DigitsValue(z) == 0
    decreases |z|
  {
    if z != [] { AllZeros(z[..|z| - 1]); }
  }
}
