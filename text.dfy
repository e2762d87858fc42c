/** The handful of Python string operations the launcher relies on, written
    out so that their edge cases are explicit: `in` on strings, `str.replace`,
    `str.split(sep)`, `str.split()`, `sep.join`, `str.rstrip(ch)`, slicing
    `s[:n]`, `str.lower()` and `str(n)` for a natural number. */
module Text {

  /** Python's `sub in s`. */
  predicate Contains(s: string, sub: string)
    decreases |s|
  {
    sub <= s || (|s| > 0 && Contains(s[1..], sub))
  }

  lemma {:induction false} ContainsShorterFails(s: string, sub: string)
    requires |s| < |sub|
    ensures !Contains(s, sub)
  {
    if |s| > 0 {
      ContainsShorterFails(s[1..], sub);
    }
  }

  /** A string contains each of its own suffixes' prefixes; in particular a
      string that starts with `sub` contains it, wherever it is appended. */
  lemma {:induction false} ContainsAppended(a: string, sub: string, b: string)
    ensures Contains(a + sub + b, sub)
  {
    if |a| == 0 {
      assert a + sub + b == sub + b;
    } else {
      assert (a + sub + b)[1..] == a[1..] + sub + b;
      ContainsAppended(a[1..], sub, b);
    }
  }

  // ---------------------------------------------------------------------
  // str.replace(pat, rep): every non-overlapping occurrence, left to right.
  // ---------------------------------------------------------------------

  /** Python's `s.replace(pat, rep)`. For an empty `pat`, Python inserts
      `rep` before every character and once at the end. */
  function ReplaceAll(s: string, pat: string, rep: string): string
    decreases |s|
  {
    if pat == [] then
      (if s == [] then rep else rep + [s[0]] + ReplaceAll(s[1..], pat, rep))
    else if s == [] then []
    else if pat <= s then rep + ReplaceAll(s[|pat|..], pat, rep)
    else [s[0]] + ReplaceAll(s[1..], pat, rep)
  }

  /** Replacing a non-empty pattern that does not occur leaves the string
      unchanged. */
  lemma {:induction false} ReplaceAbsent(s: string, pat: string, rep: string)
    requires pat != [] && !Contains(s, pat)
    ensures ReplaceAll(s, pat, rep) == s
  {
    if s != [] {
      ReplaceAbsent(s[1..], pat, rep);
    }
  }

  /** Replacing a pattern in a string made of that pattern alone yields the
      replacement. */
  lemma {:induction false} ReplaceWhole(pat: string, rep: string)
    requires pat != []
    ensures ReplaceAll(pat, pat, rep) == rep
  {
    assert pat[|pat|..] == [];
  }

  /** A string that starts with the pattern has it replaced there first. */
  lemma {:induction false} ReplaceAtPattern(pat: string, rest: string, rep: string)
    requires pat != []
    ensures ReplaceAll(pat + rest, pat, rep) == rep + ReplaceAll(rest, pat, rep)
  {
    assert pat <= pat + rest;
    assert (pat + rest)[|pat|..] == rest;
  }

  /** When the pattern starts with a character that `p` does not contain,
      replacement works on `p` character by character and passes it through. */
  lemma {:induction false} ReplaceAfterPlainPrefix(p: string, rest: string, pat: string, rep: string)
    requires pat != [] && pat[0] !in p
    ensures ReplaceAll(p + rest, pat, rep) == p + ReplaceAll(rest, pat, rep)
  {
    if p != [] {
      assert (p + rest)[0] == p[0];
      assert !(pat <= p + rest);
      assert (p + rest)[1..] == p[1..] + rest;
      ReplaceAfterPlainPrefix(p[1..], rest, pat, rep);
      assert ReplaceAll(p + rest, pat, rep) == [p[0]] + ReplaceAll(p[1..] + rest, pat, rep);
      assert p == [p[0]] + p[1..];
    } else {
      assert p + rest == rest;
    }
  }

  /** Replacing one character by one character maps the string position by
      position (`group.replace('.', '/')`). */
  lemma {:induction false} ReplaceCharwise(s: string, a: char, b: char)
    ensures |ReplaceAll(s, [a], [b])| == |s|
    ensures forall i :: 0 <= i < |s| ==> ReplaceAll(s, [a], [b])[i] == if s[i] == a then b else s[i]
    decreases |s|
  {
    if s != [] {
      ReplaceCharwise(s[1..], a, b);
      var r := ReplaceAll(s, [a], [b]);
      if [a] <= s {
        assert r == [b] + ReplaceAll(s[1..], [a], [b]);
      } else {
        assert r == [s[0]] + ReplaceAll(s[1..], [a], [b]);
      }
    }
  }

  /** Replacing one character distributes over concatenation. */
  lemma {:induction false} ReplaceCharConcat(a: string, b: string, x: char, y: char)
    ensures ReplaceAll(a + b, [x], [y]) == ReplaceAll(a, [x], [y]) + ReplaceAll(b, [x], [y])
  {
    ReplaceCharwise(a + b, x, y);
    ReplaceCharwise(a, x, y);
    ReplaceCharwise(b, x, y);
  }

  /** Python's `startswith` survives appending, on either side of a prefix. */
  lemma {:induction false} PrefixOfPrefix(a: string, b: string, c: string)
    requires a <= b
    ensures a <= b + c
  {
    assert (b + c)[..|a|] == b[..|a|];
  }

  lemma {:induction false} PrefixTransitive(a: string, b: string, c: string)
    requires a <= b && b <= c
    ensures a <= c
  {
    assert c[..|b|][..|a|] == c[..|a|];
  }

  /** A string in which the first character of `sub` never occurs does not
      contain `sub`. */
  lemma {:induction false} FirstCharAbsent(s: string, sub: string)
    requires sub != [] && sub[0] !in s
    ensures !Contains(s, sub)
    decreases |s|
  {
    if s != [] {
      FirstCharAbsent(s[1..], sub);
    }
  }

  /** An occurrence of `sub` in `a + [c] + b`, with `c` not in `sub`, lies
      on one side of `c`. */
  lemma {:induction false} ContainsAcross(a: string, c: char, b: string, sub: string)
    requires c !in sub
    ensures Contains(a + [c] + b, sub) ==> Contains(a, sub) || Contains(b, sub)
    decreases |a|
  {
    var s := a + [c] + b;
    if sub <= s && |sub| <= |a| {
      assert sub <= a;
    }
    if sub == [] {
      assert sub <= b;
    }
    assert s[|a|] == c;
    if |a| == 0 {
      assert s[1..] == b;
    } else {
      assert s[1..] == a[1..] + [c] + b;
      ContainsAcross(a[1..], c, b, sub);
    }
  }

  /** A character that cannot end `sub` adds no occurrence of it. */
  lemma {:induction false} ContainsDropLast(a: string, c: char, sub: string)
    requires sub != [] && sub[|sub| - 1] != c
    ensures Contains(a + [c], sub) ==> Contains(a, sub)
    decreases |a|
  {
    var s := a + [c];
    if sub <= s && |sub| <= |a| {
      assert sub <= a;
    }
    if |a| == 0 {
      assert s[1..] == [];
    } else {
      assert s[1..] == a[1..] + [c];
      ContainsDropLast(a[1..], c, sub);
    }
  }

  /** When `sub` starts at none of the first `k` positions, an occurrence in
      `s` is an occurrence in `s[k..]`. */
  lemma {:induction false} ContainsSkip(s: string, sub: string, k: nat)
    requires k <= |s|
    requires forall j :: 0 <= j < k ==> !(sub <= s[j..])
    ensures Contains(s, sub) ==> Contains(s[k..], sub)
    decreases k
  {
    if k > 0 {
      assert !(sub <= s[0..]);
      assert s[0..] == s;
      forall j | 0 <= j < k - 1
        ensures !(sub <= s[1..][j..])
      {
        assert s[1..][j..] == s[j + 1..];
      }
      ContainsSkip(s[1..], sub, k - 1);
      assert s[1..][k - 1..] == s[k..];
    }
  }

  // ---------------------------------------------------------------------
  // str.split(sep) for a one-character separator, and sep.join(xs).
  // ---------------------------------------------------------------------

  /** Python's `s.split(c)`: always at least one part; empty parts are kept. */
  function Split(s: string, c: char): (parts: seq<string>)
    ensures |parts| >= 1
    decreases |s|
  {
    if s == [] then [""]
    else if s[0] == c then [""] + Split(s[1..], c)
    else
      var rest := Split(s[1..], c);
      [[s[0]] + rest[0]] + rest[1..]
  }

  /** Python's `sep.join(xs)`. */
  function Join(xs: seq<string>, sep: string): string
    decreases |xs|
  {
    if |xs| == 0 then ""
    else if |xs| == 1 then xs[0]
    else xs[0] + sep + Join(xs[1..], sep)
  }

  /** Python's `s.split(c)[-1]`: the text after the last separator. */
  function LastPart(s: string, c: char): string {
    var parts := Split(s, c);
    parts[|parts| - 1]
  }

  /** A separator-free prefix is glued onto the first part. */
  lemma {:induction false} SplitPlainPrefix(a: string, rest: string, c: char)
    requires c !in a
    ensures Split(a + rest, c) == [a + Split(rest, c)[0]] + Split(rest, c)[1..]
  {
    if a != [] {
      assert (a + rest)[0] == a[0];
      assert (a + rest)[1..] == a[1..] + rest;
      SplitPlainPrefix(a[1..], rest, c);
      assert [a[0]] + (a[1..] + Split(rest, c)[0]) == a + Split(rest, c)[0];
    } else {
      assert a + rest == rest;
      assert a + Split(rest, c)[0] == Split(rest, c)[0];
    }
  }

  lemma {:induction false} SplitPlain(a: string, c: char)
    requires c !in a
    ensures Split(a, c) == [a]
  {
    SplitPlainPrefix(a, "", c);
    assert a + "" == a;
  }

  /** Splitting a joined list gives back the list, when no element contains
      the separator. */
  lemma {:induction false} SplitJoin(xs: seq<string>, c: char)
    requires |xs| >= 1
    requires forall i :: 0 <= i < |xs| ==> c !in xs[i]
    ensures Split(Join(xs, [c]), c) == xs
  {
    if |xs| == 1 {
      SplitPlain(xs[0], c);
    } else {
      var tail := Join(xs[1..], [c]);
      SplitJoin(xs[1..], c);
      assert Join(xs, [c]) == xs[0] + ([c] + tail);
      SplitPlainPrefix(xs[0], [c] + tail, c);
      assert ([c] + tail)[1..] == tail;
      assert Split([c] + tail, c) == [""] + xs[1..];
      assert xs[0] + "" == xs[0];
      assert xs == [xs[0]] + xs[1..];
    }
  }

  /** Joining the parts of a split gives back the string. */
  lemma {:induction false} JoinSplit(s: string, c: char)
    ensures Join(Split(s, c), [c]) == s
  {
    if s != [] {
      JoinSplit(s[1..], c);
      var rest := Split(s[1..], c);
      if s[0] == c {
        assert Split(s, c) == [""] + rest;
        assert Split(s, c)[1..] == rest;
        assert Join(Split(s, c), [c]) == "" + [c] + Join(rest, [c]);
        assert s == [s[0]] + s[1..];
      } else {
        var parts := Split(s, c);
        assert parts == [[s[0]] + rest[0]] + rest[1..];
        if |rest| == 1 {
          assert Join(parts, [c]) == [s[0]] + rest[0];
        } else {
          assert parts[1..] == rest[1..];
          assert Join(rest, [c]) == rest[0] + [c] + Join(rest[1..], [c]);
          assert Join(parts, [c]) == [s[0]] + rest[0] + [c] + Join(rest[1..], [c]);
        }
        assert s == [s[0]] + s[1..];
      }
    }
  }

  // ---------------------------------------------------------------------
  // str.split() with no argument: runs of whitespace separate words.
  // ---------------------------------------------------------------------

  /** The characters for which Python's `str.isspace()` holds. */
  predicate IsSpace(ch: char) {
    ('\t' <= ch <= '\r') || ('\U{1c}' <= ch <= ' ') ||
    ch == '\U{85}' || ch == '\U{a0}' || ch == '\U{1680}' ||
    ('\U{2000}' <= ch <= '\U{200a}') || ch == '\U{2028}' || ch == '\U{2029}' ||
    ch == '\U{202f}' || ch == '\U{205f}' || ch == '\U{3000}'
  }

  predicate IsWord(w: string) {
    w != [] && forall i :: 0 <= i < |w| ==> !IsSpace(w[i])
  }

  /** The longest prefix of `s` free of whitespace. */
  function LeadingWord(s: string): (w: string)
    ensures w <= s
    ensures forall i :: 0 <= i < |w| ==> !IsSpace(w[i])
    ensures |w| == |s| || IsSpace(s[|w|])
    decreases |s|
  {
    if s == [] || IsSpace(s[0]) then [] else [s[0]] + LeadingWord(s[1..])
  }

  /** Python's `s.split()`: the maximal whitespace-free runs, in order. */
  function Words(s: string): (ws: seq<string>)
    ensures forall i :: 0 <= i < |ws| ==> IsWord(ws[i])
    decreases |s|
  {
    if s == [] then []
    else if IsSpace(s[0]) then Words(s[1..])
    else
      var w := LeadingWord(s);
      [w] + Words(s[|w|..])
  }

  lemma {:induction false} LeadingWordOfWord(w: string, rest: string)
    requires forall i :: 0 <= i < |w| ==> !IsSpace(w[i])
    requires rest == [] || IsSpace(rest[0])
    ensures LeadingWord(w + rest) == w
  {
    if w != [] {
      assert (w + rest)[1..] == w[1..] + rest;
      LeadingWordOfWord(w[1..], rest);
      assert w == [w[0]] + w[1..];
    } else {
      assert w + rest == rest;
    }
  }

  /** Splitting on whitespace undoes joining words with single spaces. */
  lemma {:induction false} WordsJoin(ws: seq<string>)
    requires forall i :: 0 <= i < |ws| ==> IsWord(ws[i])
    ensures Words(Join(ws, " ")) == ws
  {
    if |ws| == 1 {
      var w := ws[0];
      assert LeadingWord(w) == w by {
        LeadingWordOfWord(w, "");
        assert w + "" == w;
      }
      assert w[|w|..] == [];
      assert Words(w) == [w] + Words([]);
    } else if |ws| > 1 {
      var w := ws[0];
      var tail := Join(ws[1..], " ");
      var s := Join(ws, " ");
      assert s == w + (" " + tail);
      assert Words(tail) == ws[1..] by {
        WordsJoin(ws[1..]);
      }
      assert LeadingWord(s) == w by {
        LeadingWordOfWord(w, " " + tail);
      }
      assert Words(s[|w|..]) == Words(tail) by {
        assert s[|w|..] == " " + tail;
        assert (" " + tail)[1..] == tail;
      }
      assert Words(s) == [w] + Words(s[|w|..]) by {
        assert s[0] == w[0];
      }
      assert ws == [w] + ws[1..];
    }
  }

  // ---------------------------------------------------------------------
  // Small helpers.
  // ---------------------------------------------------------------------

  /** Python's `s[:n]`. */
  function Take(s: string, n: nat): (r: string)
    ensures r <= s && |r| == if n <= |s| then n else |s|
  {
    if n <= |s| then s[..n] else s
  }

  /** Python's `s.rstrip(c)` for one character. */
  function RStrip(s: string, c: char): (r: string)
    ensures r <= s
    ensures r == [] || r[|r| - 1] != c
    ensures forall i :: |r| <= i < |s| ==> s[i] == c
    decreases |s|
  {
    if s != [] && s[|s| - 1] == c then RStrip(s[..|s| - 1], c) else s
  }

  function LowerChar(ch: char): char {
    if 'A' <= ch <= 'Z' then (ch as int + 32) as char else ch
  }

  /** `str.lower()` on ASCII letters; other characters are kept. */
  function Lower(s: string): (r: string)
    ensures |r| == |s|
    ensures forall i :: 0 <= i < |s| ==> r[i] == LowerChar(s[i])
  {
    seq(|s|, i requires 0 <= i < |s| => LowerChar(s[i]))
  }

  predicate IsDigit(ch: char) {
    '0' <= ch <= '9'
  }

  predicate AllDigits(s: string) {
    forall i :: 0 <= i < |s| ==> IsDigit(s[i])
  }

  /** Python's `int(s)` on a non-empty run of ASCII digits. */
  function DigitsValue(s: string): nat
    requires AllDigits(s)
    decreases |s|
  {
    if s == [] then 0
    else DigitsValue(s[..|s| - 1]) * 10 + (s[|s| - 1] as int - '0' as int)
  }

  /** Python's `str(n)` for a natural number. */
  function NatToString(n: nat): (s: string)
    ensures s != [] && AllDigits(s)
  {
    if n < 10 then [('0' as int + n) as char]
    else NatToString(n / 10) + [('0' as int + n % 10) as char]
  }

  /** Reading back the decimal text of a number gives the number. */
  lemma {:induction false} DigitsValueOfNatToString(n: nat)
    ensures DigitsValue(NatToString(n)) == n
  {
    var s := NatToString(n);
    if n >= 10 {
      DigitsValueOfNatToString(n / 10);
      assert s[..|s| - 1] == NatToString(n / 10);
    }
  }

  lemma {:induction false} NatToStringInjective(m: nat, n: nat)
    requires NatToString(m) == NatToString(n)
    ensures m == n
  {
    DigitsValueOfNatToString(m);
    DigitsValueOfNatToString(n);
  }
}
