/** The string operations the pipeline uses, written out over `seq<char>`:
    Python's `str.isspace`, `lower`, `in` (substring test), `strip`,
    `replace` of one character, `' '.join(s.split())`, `count` of one
    character, `str` of a non-negative integer, and the slice-and-ellipsis truncation the answer templates
    share. */
module Text {

  /** Python's `str.isspace` for one code point (the Unicode whitespace set
      that `str.split()`, `str.strip()` and the regular expression `\s` use). */
  predicate IsSpace(c: char)
  {
    var n := c as int;
    (9 <= n <= 13) || (28 <= n <= 32) || n == 0x85 || n == 0xA0 || n == 0x1680 ||
    (0x2000 <= n <= 0x200A) || n == 0x2028 || n == 0x2029 || n == 0x202F ||
    n == 0x205F || n == 0x3000
  }

  /** Lower-casing of one character, restricted to the ASCII letters. */
  function LowerChar(c: char): (r: char)
    ensures ('A' <= c <= 'Z') ==> 'a' <= r <= 'z'
    ensures !('A' <= c <= 'Z') ==> r == c
    ensures !('A' <= r <= 'Z')
  {
    if 'A' <= c <= 'Z' then (c as int + 32) as char else c
  }

  /** Python's `s.lower()` on ASCII letters; every other character is kept. */
  function Lower(s: string): (r: string)
    ensures |r| == |s|
    ensures forall i :: 0 <= i < |s| ==> r[i] == LowerChar(s[i])
  {
    seq(|s|, i requires 0 <= i < |s| => LowerChar(s[i]))
  }

  /** Lower-casing twice is lower-casing once. */
  lemma LowerIdempotent(s: string)
    ensures Lower(Lower(s)) == Lower(s)
  {
    assert forall i :: 0 <= i < |s| ==> Lower(Lower(s))[i] == Lower(s)[i];
  }

  /** `p` occurs in `s` starting at index `i`. */
  predicate OccursAt(s: string, p: string, i: nat)
  {
    i + |p| <= |s| && s[i..i + |p|] == p
  }

  /** Python's `p in s` for strings: `p` is a substring of `s`. */
  function Contains(s: string, p: string): (r: bool)
    ensures r <==> exists i: nat :: OccursAt(s, p, i)
    ensures r ==> |p| <= |s|
    decreases |s|
  {
    if |p| <= |s| && s[..|p|] == p then
      assert OccursAt(s, p, 0);
      true
    else if |s| <= |p| then
      assert forall i: nat :: !OccursAt(s, p, i) by {
        forall i: nat ensures !OccursAt(s, p, i) {
          if i + |p| <= |s| {
            assert i == 0 && |p| == |s| && s[..|p|] == s[i..i + |p|];
          }
        }
      }
      false
    else
      var rest := Contains(s[1..], p);
      assert forall i: nat :: OccursAt(s[1..], p, i) <==> OccursAt(s, p, i + 1) by {
        forall i: nat ensures OccursAt(s[1..], p, i) <==> OccursAt(s, p, i + 1) {
          if i + 1 + |p| <= |s| {
            assert s[1..][i..i + |p|] == s[i + 1..i + 1 + |p|];
          }
        }
      }
      assert forall i: nat :: OccursAt(s, p, i) ==> i == 0 || OccursAt(s[1..], p, i - 1);
      rest
  }

  /** A witness occurrence proves containment. */
  lemma ContainsAt(s: string, p: string, i: nat)
    requires OccursAt(s, p, i)
    ensures Contains(s, p)
  {
  }

  /** Every character of a contained string occurs in the containing one;
      a missing character therefore refutes containment. */
  lemma ContainsChars(s: string, p: string, c: char)
    requires Contains(s, p) && c in p
    ensures c in s
  {
    var i: nat :| OccursAt(s, p, i);
    var k :| 0 <= k < |p| && p[k] == c;
    assert s[i + k] == s[i..i + |p|][k];
  }

  /** A character missing from `s` is missing from every substring of `s`. */
  lemma MissingCharsStayMissing(s: string, p: string, c: char)
    requires Contains(s, p) && c !in s
    ensures c !in p
  {
    var i: nat :| OccursAt(s, p, i);
    assert forall k :: 0 <= k < |p| ==> p[k] == s[i + k];
  }

  /** Python's `any(x in s for x in ps)`. */
  predicate ContainsAny(s: string, ps: seq<string>)
  {
    exists k :: 0 <= k < |ps| && Contains(s, ps[k])
  }

  /** Whether `s` starts with `p` (Python's `s.startswith(p)`). */
  predicate StartsWith(s: string, p: string)
  {
    |p| <= |s| && s[..|p|] == p
  }

  /** Python's `s.lstrip()`: drops leading whitespace. */
  function TrimStart(s: string): (r: string)
    ensures |r| <= |s| && r == s[|s| - |r|..]
    ensures |r| > 0 ==> !IsSpace(r[0])
    ensures forall i :: 0 <= i < |s| - |r| ==> IsSpace(s[i])
  {
    if |s| > 0 && IsSpace(s[0]) then TrimStart(s[1..]) else s
  }

  /** Python's `s.rstrip()`: drops trailing whitespace. */
  function TrimEnd(s: string): (r: string)
    ensures |r| <= |s| && r == s[..|r|]
    ensures |r| > 0 ==> !IsSpace(r[|r| - 1])
    ensures forall i :: |r| <= i < |s| ==> IsSpace(s[i])
  {
    if |s| > 0 && IsSpace(s[|s| - 1]) then TrimEnd(s[..|s| - 1]) else s
  }

  /** No leading and no trailing whitespace. */
  predicate Stripped(s: string)
  {
    |s| > 0 ==> !IsSpace(s[0]) && !IsSpace(s[|s| - 1])
  }

  /** `r` is the slice of `s` at `i` and everything of `s` around it is
      whitespace. */
  predicate StrippedFrom(s: string, r: string, i: nat)
  {
    OccursAt(s, r, i) &&
    (forall k :: 0 <= k < i ==> IsSpace(s[k])) && (forall k :: i + |r| <= k < |s| ==> IsSpace(s[k]))
  }

  /** Python's `s.strip()`: the longest middle slice of `s` that neither
      starts nor ends with whitespace; only whitespace is removed. */
  function Strip(s: string): (r: string)
    ensures Stripped(r)
    ensures Contains(s, r)
    ensures exists i :: StrippedFrom(s, r, i)
  {
    var e := TrimEnd(s);
    var r := TrimStart(e);
    var i := |e| - |r|;
    assert s[i..i + |r|] == e[i..] == r;
    assert forall k :: 0 <= k < i ==> s[k] == e[k];
    assert StrippedFrom(s, r, i);
    r
  }

  /** Stripping a stripped string changes nothing, so `strip` is idempotent. */
  lemma StripStripped(s: string)
    requires Stripped(s)
    ensures Strip(s) == s
  {
  }

  /** Python's `s.replace(a, b)` for single characters. */
  function ReplaceChar(s: string, a: char, b: char): (r: string)
    ensures |r| == |s|
    ensures forall i :: 0 <= i < |s| ==> r[i] == if s[i] == a then b else s[i]
  {
    seq(|s|, i requires 0 <= i < |s| => if s[i] == a then b else s[i])
  }

  /** Python's `s.count(c)` for one character. */
  function CountChar(s: string, c: char): (n: nat)
    ensures n <= |s|
    ensures n == 0 <==> c !in s
  {
    if s == [] then 0 else (if s[0] == c then 1 else 0) + CountChar(s[1..], c)
  }

  /** The count is the character's multiplicity in the string. */
  lemma {:induction false} CountCharMultiplicity(s: string, c: char)
    ensures CountChar(s, c) == multiset(s)[c]
  {
    if s != [] {
      assert s == [s[0]] + s[1..];
      CountCharMultiplicity(s[1..], c);
    }
  }

  /** The length of the run of non-whitespace characters that starts `s`. */
  function WordLength(s: string): (k: nat)
    ensures k <= |s|
    ensures forall i :: 0 <= i < k ==> !IsSpace(s[i])
    ensures k == |s| || IsSpace(s[k])
  {
    if s == [] || IsSpace(s[0]) then 0 else 1 + WordLength(s[1..])
  }

  /** A word of `str.split()`: non-empty and free of whitespace. */
  predicate IsWord(w: string)
  {
    |w| > 0 && forall i :: 0 <= i < |w| ==> !IsSpace(w[i])
  }

  /** Every character is whitespace. */
  predicate AllSpace(g: string)
  {
    forall i :: 0 <= i < |g| ==> IsSpace(g[i])
  }

  /** `outer[0] + inner[0] + outer[1] + ... + inner[n - 1] + outer[n]`. */
  function Interleave(outer: seq<string>, inner: seq<string>): string
    requires |outer| == |inner| + 1
  {
    if inner == [] then outer[0] else outer[0] + inner[0] + Interleave(outer[1..], inner[1..])
  }

  /** The whitespace around `n` words: `n + 1` runs of whitespace, the
      ones between two words non-empty. */
  predicate WordGaps(gaps: seq<string>, n: nat)
  {
    |gaps| == n + 1 && (forall k :: 0 <= k < |gaps| ==> AllSpace(gaps[k])) &&
    (forall k :: 0 < k < n ==> gaps[k] != [])
  }

  /** A whitespace character in front of the gaps joins the first gap. */
  lemma {:induction false} GapsSpaceStep(c: char, g: seq<string>, ws: seq<string>)
    requires IsSpace(c) && WordGaps(g, |ws|)
    ensures WordGaps([[c] + g[0]] + g[1..], |ws|)
    ensures [c] + Interleave(g, ws) == Interleave([[c] + g[0]] + g[1..], ws)
  {
    var h := [[c] + g[0]] + g[1..];
    assert h[1..] == g[1..];
    if ws != [] {
      assert Interleave(h, ws) == ([c] + g[0]) + ws[0] + Interleave(g[1..], ws[1..]);
    }
    assert forall k :: 0 < k < |h| ==> h[k] == g[k];
  }

  /** A word in front of text that is empty or starts with whitespace
      becomes the first word, after an empty gap. */
  lemma {:induction false} GapsWordStep(w: string, g: seq<string>, ws: seq<string>)
    requires IsWord(w) && WordGaps(g, |ws|)
    requires forall k :: 0 <= k < |ws| ==> IsWord(ws[k])
    requires Interleave(g, ws) == [] || IsSpace(Interleave(g, ws)[0])
    ensures WordGaps([""] + g, |ws| + 1)
    ensures w + Interleave(g, ws) == Interleave([""] + g, [w] + ws)
  {
    var h := [""] + g;
    assert h[1..] == g && ([w] + ws)[1..] == ws;
    if ws != [] {
      var t := ws[0] + Interleave(g[1..], ws[1..]);
      assert IsWord(ws[0]) && t[0] == ws[0][0];
      assert Interleave(g, ws) == g[0] + t;
      assert g[0] != [];
    }
    assert forall k :: 0 < k < |h| ==> h[k] == g[k - 1];
  }

  /** Python's `s.split()` with no separator: the maximal runs of
      non-whitespace characters, in order (`WordsAreRuns`). */
  function Words(s: string): (ws: seq<string>)
    ensures forall k :: 0 <= k < |ws| ==> IsWord(ws[k])
    decreases |s|
  {
    if s == [] then []
    else if IsSpace(s[0]) then Words(s[1..])
    else
      var k := WordLength(s);
      [s[..k]] + Words(s[k..])
  }

  /** The words are the maximal whitespace-free runs of `s`, in order:
      `s` is the words interleaved with whitespace gaps, the gaps between
      two words non-empty. */
  lemma {:induction false} WordsAreRuns(s: string)
    ensures exists gaps :: WordGaps(gaps, |Words(s)|) && s == Interleave(gaps, Words(s))
    decreases |s|
  {
    if s == [] {
      assert Words(s) == [];
      assert WordGaps([""], 0) && s == Interleave([""], []);
    } else if IsSpace(s[0]) {
      var ws := Words(s[1..]);
      assert Words(s) == ws;
      WordsAreRuns(s[1..]);
      var g :| WordGaps(g, |ws|) && s[1..] == Interleave(g, ws);
      GapsSpaceStep(s[0], g, ws);
      assert s == [s[0]] + s[1..];
      assert WordGaps([[s[0]] + g[0]] + g[1..], |ws|) && s == Interleave([[s[0]] + g[0]] + g[1..], ws);
    } else {
      var k := WordLength(s);
      var ws := Words(s[k..]);
      assert Words(s) == [s[..k]] + ws;
      WordsAreRuns(s[k..]);
      var g :| WordGaps(g, |ws|) && s[k..] == Interleave(g, ws);
      GapsWordStep(s[..k], g, ws);
      assert s == s[..k] + s[k..];
      assert WordGaps([""] + g, |ws| + 1) && s == Interleave([""] + g, [s[..k]] + ws);
    }
  }

  /** Python's `' '.join(ws)`. */
  function JoinSpace(ws: seq<string>): (r: string)
    ensures ws == [] ==> r == ""
  {
    if ws == [] then "" else if |ws| == 1 then ws[0] else ws[0] + " " + JoinSpace(ws[1..])
  }

  /** Python's `' '.join(s.split())`: whitespace runs become one space and
      leading and trailing whitespace disappears (`NormalizeSingleSpaced`). */
  function Normalize(s: string): (r: string)
  {
    JoinSpace(Words(s))
  }

  /** Every whitespace character is a plain space with a non-whitespace
      character on each side: no leading, trailing or repeated whitespace. */
  predicate SingleSpaced(r: string)
  {
    forall i :: 0 <= i < |r| && IsSpace(r[i]) ==>
      r[i] == ' ' && 0 < i < |r| - 1 && !IsSpace(r[i - 1]) && !IsSpace(r[i + 1])
  }

  lemma {:induction false} JoinSpaceSingleSpaced(ws: seq<string>)
    requires forall k :: 0 <= k < |ws| ==> IsWord(ws[k])
    ensures ws != [] ==> |JoinSpace(ws)| > 0
    ensures SingleSpaced(JoinSpace(ws))
  {
    if |ws| > 1 {
      var w := ws[0];
      var rest := JoinSpace(ws[1..]);
      JoinSpaceSingleSpaced(ws[1..]);
      var r := w + " " + rest;
      assert r == JoinSpace(ws);
      forall i | 0 <= i < |w|
        ensures !IsSpace(r[i])
      {
        assert r[i] == w[i];
      }
      forall i | |w| <= i < |r| && IsSpace(r[i])
        ensures r[i] == ' ' && 0 < i < |r| - 1 && !IsSpace(r[i - 1]) && !IsSpace(r[i + 1])
      {
        if i == |w| {
          assert r[i - 1] == w[|w| - 1];
          assert r[i + 1] == rest[0];
        } else {
          var j := i - |w| - 1;
          assert r[i] == rest[j];
          assert r[i - 1] == rest[j - 1];
          assert r[i + 1] == rest[j + 1];
        }
      }
    }
  }

  /** The normalised text has no leading, trailing or repeated whitespace,
      and each remaining whitespace character is a plain space. */
  lemma NormalizeSingleSpaced(s: string)
    ensures SingleSpaced(Normalize(s))
  {
    JoinSpaceSingleSpaced(Words(s));
  }

  function DigitChar(d: nat): (c: char)
    requires d < 10
    ensures '0' <= c <= '9'
  {
    ('0' as int + d) as char
  }

  /** Python's `str(n)` for a non-negative integer: its decimal digits,
      most significant first, with no leading zero. */
  function DecimalDigits(n: nat): (r: string)
    ensures |r| >= 1
    ensures forall i :: 0 <= i < |r| ==> '0' <= r[i] <= '9'
    ensures r[0] == '0' <==> n == 0
    ensures n == 0 ==> r == "0"
  {
    if n < 10 then [DigitChar(n)] else DecimalDigits(n / 10) + [DigitChar(n % 10)]
  }

  /** The number a string of decimal digits denotes (`int(r)`). */
  function DecimalValue(r: string): nat
    requires forall i :: 0 <= i < |r| ==> '0' <= r[i] <= '9'
  {
    if r == [] then 0 else 10 * DecimalValue(r[..|r| - 1]) + (r[|r| - 1] as int - '0' as int)
  }

  /** `int(str(n)) == n`: the digits read back as the number. */
  lemma {:induction false} DecimalRoundTrip(n: nat)
    ensures DecimalValue(DecimalDigits(n)) == n
  {
    if n >= 10 {
      DecimalRoundTrip(n / 10);
      var r := DecimalDigits(n);
      assert r[..|r| - 1] == DecimalDigits(n / 10);
    }
  }

  /** `s[:n] + "..."` when `s` is longer than `n`, otherwise `s`: the
      truncation every answer template applies for display. */
  function Ellipsize(s: string, n: nat): (r: string)
    ensures |r| <= n + 3
    ensures |s| <= n ==> r == s
    ensures |s| > n ==> |r| == n + 3 && r == s[..n] + "..."
  {
    if |s| > n then s[..n] + "..." else s
  }
}
