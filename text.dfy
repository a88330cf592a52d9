/**
 * The string operations the three turn detectors rely on, modelled after
 * Python's `str` methods: `isspace` (through `split()` and `strip()`),
 * `lower()`, `strip()`, `split()`, `split(",")`, `sep.join(...)` and the
 * substring test `w in text`.
 */
module Text {

  /** Python's whitespace test as used by `str.split()` and `str.strip()`
      with no argument: the code points for which `str.isspace()` holds. */
  predicate IsSpace(c: char)
    ensures c == ' ' || c == '\t' || c == '\n' || c == '\r' ==> IsSpace(c)
    ensures 'a' <= c <= 'z' || 'A' <= c <= 'Z' || '0' <= c <= '9' || c == '-' || c == '.' ==> !IsSpace(c)
  {
    var n := c as int;
    (0x09 <= n <= 0x0D) || (0x1C <= n <= 0x20) || n == 0x85 || n == 0xA0 ||
    n == 0x1680 || (0x2000 <= n <= 0x200A) || n == 0x2028 || n == 0x2029 ||
    n == 0x202F || n == 0x205F || n == 0x3000
  }

  predicate IsUpper(c: char) {
    'A' <= c <= 'Z'
  }

  /** `c.lower()` restricted to ASCII: `A`..`Z` become `a`..`z`, every other
      character is left as it is. */
  function LowerChar(c: char): (r: char)
    ensures !IsUpper(r)
    ensures IsUpper(c) || r == c
    ensures IsUpper(c) ==> r as int == c as int + 32
    ensures IsSpace(r) <==> IsSpace(c)
  {
    if IsUpper(c) then (c as int + 32) as char else c
  }

  /** `s.lower()`, character by character. */
  function Lower(s: string): (r: string)
    ensures |r| == |s|
    ensures forall i :: 0 <= i < |s| ==> r[i] == LowerChar(s[i])
  {
    if s == [] then [] else [LowerChar(s[0])] + Lower(s[1..])
  }

  /** Lowercasing twice is lowercasing once. */
  lemma {:induction false} LowerIdempotent(s: string)
    ensures Lower(Lower(s)) == Lower(s)
  {
    var l := Lower(s);
    assert |Lower(l)| == |l|;
    forall i | 0 <= i < |l| ensures Lower(l)[i] == l[i] {
      assert l[i] == LowerChar(s[i]);
    }
  }

  /** A string with no upper-case ASCII letter is its own lower-case form. */
  lemma {:induction false} LowerOfLower(s: string)
    requires forall i :: 0 <= i < |s| ==> !IsUpper(s[i])
    ensures Lower(s) == s
  {
    forall i | 0 <= i < |s| ensures Lower(s)[i] == s[i] {
    }
  }

  /** Lowercasing keeps every whitespace character where it is and adds none. */
  lemma LowerKeepsSpace(s: string, i: int)
    requires 0 <= i < |s|
    ensures IsSpace(Lower(s)[i]) <==> IsSpace(s[i])
  {
  }

  // ---------------------------------------------------------------------
  // Whitespace tokenisation: `s.split()` and `s.strip()`, by positions

  /** The first position at or after `i` that does not hold whitespace
      (`|s|` when there is none). */
  function SkipSpace(s: string, i: nat): (j: nat)
    requires i <= |s|
    ensures i <= j <= |s|
    ensures j == |s| || !IsSpace(s[j])
    decreases |s| - i
  {
    if i < |s| && IsSpace(s[i]) then SkipSpace(s, i + 1) else i
  }

  /** Everything `SkipSpace` skips is whitespace. */
  lemma {:induction false} SkipSpaceSkipsSpace(s: string, i: nat)
    requires i <= |s|
    ensures forall m :: i <= m < SkipSpace(s, i) ==> IsSpace(s[m])
    decreases |s| - i
  {
    if i < |s| && IsSpace(s[i]) {
      SkipSpaceSkipsSpace(s, i + 1);
    }
  }

  /** The first position at or after `i` that holds whitespace (`|s|` when
      there is none): the end of the word starting at `i`. */
  function WordEnd(s: string, i: nat): (j: nat)
    requires i <= |s|
    ensures i <= j <= |s|
    ensures j == |s| || IsSpace(s[j])
    decreases |s| - i
  {
    if i < |s| && !IsSpace(s[i]) then WordEnd(s, i + 1) else i
  }

  /** A word holds no whitespace. */
  lemma {:induction false} WordEndSkipsWord(s: string, i: nat)
    requires i <= |s|
    ensures forall m :: i <= m < WordEnd(s, i) ==> !IsSpace(s[m])
    decreases |s| - i
  {
    if i < |s| && !IsSpace(s[i]) {
      WordEndSkipsWord(s, i + 1);
    }
  }

  /** The two postconditions above pin their results down. */
  lemma SkipSpaceUnique(s: string, i: nat, j: nat)
    requires i <= j <= |s|
    requires forall m :: i <= m < j ==> IsSpace(s[m])
    requires j == |s| || !IsSpace(s[j])
    ensures SkipSpace(s, i) == j
  {
    SkipSpaceSkipsSpace(s, i);
  }

  lemma WordEndUnique(s: string, i: nat, j: nat)
    requires i <= j <= |s|
    requires forall m :: i <= m < j ==> !IsSpace(s[m])
    requires j == |s| || IsSpace(s[j])
    ensures WordEnd(s, i) == j
  {
    WordEndSkipsWord(s, i);
  }

  /** What `str.split()` can produce: a non-empty run of non-space characters. */
  predicate IsToken(w: string) {
    |w| > 0 && forall m :: 0 <= m < |w| ==> !IsSpace(w[m])
  }

  /** The words of `s` from position `i` on. */
  function WordsFrom(s: string, i: nat): seq<string>
    requires i <= |s|
    decreases |s| - i
  {
    var j := SkipSpace(s, i);
    if j == |s| then [] else [s[j..WordEnd(s, j)]] + WordsFrom(s, WordEnd(s, j))
  }

  /** Every word read from position `i` on is a token. */
  lemma {:induction false} WordsFromTokens(s: string, i: nat)
    requires i <= |s|
    ensures forall n :: 0 <= n < |WordsFrom(s, i)| ==> IsToken(WordsFrom(s, i)[n])
    decreases |s| - i
  {
    var j := SkipSpace(s, i);
    if j < |s| {
      var k := WordEnd(s, j);
      var w := s[j..k];
      WordEndSkipsWord(s, j);
      forall m | 0 <= m < |w| ensures !IsSpace(w[m]) {
        assert w[m] == s[j + m];
      }
      WordsFromTokens(s, k);
    }
  }

  /** One step of `WordsFrom`: skip whitespace to `j`, then take the word
      ending at `k`. */
  lemma WordsFromStep(s: string, i: nat, j: nat, k: nat)
    requires i <= |s| && j == SkipSpace(s, i) && j < |s| && k == WordEnd(s, j)
    ensures WordsFrom(s, i) == [s[j..k]] + WordsFrom(s, k)
  {
  }

  /** Nothing but whitespace from `i` on: no more words. */
  lemma WordsFromDone(s: string, i: nat)
    requires i <= |s| && SkipSpace(s, i) == |s|
    ensures WordsFrom(s, i) == []
  {
  }

  /** `s.split()` with no separator: the maximal runs of non-whitespace, in
      order; leading, trailing and repeated whitespace yields no empty token. */
  function Words(s: string): (r: seq<string>)
    ensures forall n :: 0 <= n < |r| ==> IsToken(r[n])
  {
    WordsFromTokens(s, 0);
    WordsFrom(s, 0)
  }

  /** Every character of a string is whitespace. */
  predicate AllSpace(s: string) {
    forall m :: 0 <= m < |s| ==> IsSpace(s[m])
  }

  /** `s.split()` is empty exactly when `s` is empty or whitespace only. */
  lemma WordsEmpty(s: string)
    ensures Words(s) == [] <==> AllSpace(s)
  {
    SkipSpaceSkipsSpace(s, 0);
    if AllSpace(s) {
      SkipSpaceUnique(s, 0, |s|);
    }
  }

  /** A blank string stays blank when lowercased, so it has no words. */
  lemma BlankLowerHasNoWords(s: string)
    requires AllSpace(s)
    ensures Words(Lower(s)) == []
  {
    var l := Lower(s);
    assert AllSpace(l) by {
      forall m | 0 <= m < |l| ensures IsSpace(l[m]) {
        LowerKeepsSpace(s, m);
      }
    }
    WordsEmpty(l);
  }

  /** Whitespace skipped before a word does not change the words that follow. */
  lemma WordsFromSkip(s: string, i: nat)
    requires i <= |s|
    ensures WordsFrom(s, SkipSpace(s, i)) == WordsFrom(s, i)
  {
    var j := SkipSpace(s, i);
    SkipSpaceUnique(s, j, j);
  }

  /** `u` reads like `s` from position `a` on. */
  predicate IsSuffixAt(u: string, s: string, a: nat) {
    a + |u| == |s| && forall m :: 0 <= m < |u| ==> u[m] == s[a + m]
  }

  /** Positions in a suffix are positions in the whole string, shifted. */
  lemma SkipSpaceShift(u: string, s: string, a: nat, i: nat)
    requires IsSuffixAt(u, s, a) && i <= |u|
    ensures SkipSpace(u, i) == SkipSpace(s, a + i) - a
  {
    var j := SkipSpace(s, a + i);
    SkipSpaceSkipsSpace(s, a + i);
    forall m | i <= m < j - a ensures IsSpace(u[m]) {
      assert u[m] == s[a + m];
    }
    if j < |s| {
      assert u[j - a] == s[j];
    }
    SkipSpaceUnique(u, i, j - a);
  }

  lemma WordEndShift(u: string, s: string, a: nat, i: nat)
    requires IsSuffixAt(u, s, a) && i <= |u|
    ensures WordEnd(u, i) == WordEnd(s, a + i) - a
  {
    var j := WordEnd(s, a + i);
    WordEndSkipsWord(s, a + i);
    forall m | i <= m < j - a ensures !IsSpace(u[m]) {
      assert u[m] == s[a + m];
    }
    if j < |s| {
      assert u[j - a] == s[j];
    }
    WordEndUnique(u, i, j - a);
  }

  /** Words read from a suffix are the words read from the same place in
      the whole string. */
  lemma {:induction false} WordsFromShift(u: string, s: string, a: nat, i: nat)
    requires IsSuffixAt(u, s, a) && i <= |u|
    ensures WordsFrom(u, i) == WordsFrom(s, a + i)
    decreases |u| - i
  {
    var j := SkipSpace(s, a + i);
    if j == |s| {
      SkipSpaceShift(u, s, a, i);
      WordsFromDone(u, i);
      WordsFromDone(s, a + i);
    } else {
      var k := WordEnd(s, j);
      assert k > j;
      WordsFromShift(u, s, a, k - a);
      WordsFromShiftStep(u, s, a, i, j, k);
    }
  }

  /** The step of `WordsFromShift`: the first word is the same, and the
      words after it are the same by hypothesis. */
  lemma WordsFromShiftStep(u: string, s: string, a: nat, i: nat, j: nat, k: nat)
    requires IsSuffixAt(u, s, a) && i <= |u|
    requires j == SkipSpace(s, a + i) && j < |s| && k == WordEnd(s, j)
    requires WordsFrom(u, k - a) == WordsFrom(s, k)
    ensures WordsFrom(u, i) == WordsFrom(s, a + i)
  {
    SkipSpaceShift(u, s, a, i);
    WordEndShift(u, s, a, j - a);
    SliceShift(u, s, a, j - a, k - a);
    WordsFromStep(s, a + i, j, k);
    WordsFromStep(u, i, j - a, k - a);
  }

  /** A slice of a suffix is the corresponding slice of the whole string. */
  lemma SliceShift(u: string, s: string, a: nat, lo: nat, hi: nat)
    requires IsSuffixAt(u, s, a) && lo <= hi <= |u|
    ensures u[lo..hi] == s[a + lo..a + hi]
  {
    forall m | 0 <= m < hi - lo ensures u[lo..hi][m] == s[a + lo..a + hi][m] {
      assert u[lo + m] == s[a + lo + m];
    }
  }

  /** Trailing whitespace does not change the words. */
  lemma {:induction false} WordsFromTrailingSpace(s: string, sp: string, i: nat)
    requires i <= |s|
    requires AllSpace(sp)
    ensures WordsFrom(s + sp, i) == WordsFrom(s, i)
    decreases |s| - i
  {
    var u := s + sp;
    var j := SkipSpace(s, i);
    SkipSpaceSkipsSpace(s, i);
    if j == |s| {
      assert SkipSpace(u, i) == |u| by {
        forall m | i <= m < |u| ensures IsSpace(u[m]) {
          if m < |s| { assert u[m] == s[m]; } else { assert u[m] == sp[m - |s|]; }
        }
        SkipSpaceUnique(u, i, |u|);
      }
      WordsFromDone(u, i);
      WordsFromDone(s, i);
    } else {
      assert SkipSpace(u, i) == j by {
        forall m | i <= m < j ensures IsSpace(u[m]) {
          assert u[m] == s[m];
        }
        assert u[j] == s[j];
        SkipSpaceUnique(u, i, j);
      }
      var k := WordEnd(s, j);
      assert WordEnd(u, j) == k by {
        WordEndSkipsWord(s, j);
        forall m | j <= m < k ensures !IsSpace(u[m]) {
          assert u[m] == s[m];
        }
        if k < |s| {
          assert u[k] == s[k];
        } else if k < |u| {
          assert u[k] == sp[0];
        }
        WordEndUnique(u, j, k);
      }
      assert u[j..k] == s[j..k];
      assert k > j;
      assert WordsFrom(u, k) == WordsFrom(s, k) by { WordsFromTrailingSpace(s, sp, k); }
      WordsFromStep(u, i, j, k);
      WordsFromStep(s, i, j, k);
    }
  }

  /** The end of `s[..hi]` once its trailing whitespace is dropped, never
      moving below `lo`. */
  function TrimEnd(s: string, lo: nat, hi: nat): (b: nat)
    requires lo <= hi <= |s|
    ensures lo <= b <= hi
    ensures b == lo || !IsSpace(s[b - 1])
    decreases hi
  {
    if lo < hi && IsSpace(s[hi - 1]) then TrimEnd(s, lo, hi - 1) else hi
  }

  /** Everything `TrimEnd` drops is whitespace. */
  lemma {:induction false} TrimEndDropsSpace(s: string, lo: nat, hi: nat)
    requires lo <= hi <= |s|
    ensures forall m :: TrimEnd(s, lo, hi) <= m < hi ==> IsSpace(s[m])
    decreases hi
  {
    if lo < hi && IsSpace(s[hi - 1]) {
      TrimEndDropsSpace(s, lo, hi - 1);
    }
  }

  /** `r` is the slice of `s` at `k`, and everything of `s` around it is
      whitespace. */
  ghost predicate TrimmedAt(s: string, r: string, k: int) {
    0 <= k && k + |r| <= |s| && r == s[k..k + |r|] &&
    (forall m :: 0 <= m < k ==> IsSpace(s[m])) &&
    (forall m :: k + |r| <= m < |s| ==> IsSpace(s[m]))
  }

  /** `s.strip()`: `s` without its leading and trailing whitespace. */
  function Strip(s: string): (r: string)
    ensures exists k :: TrimmedAt(s, r, k)
    ensures r == [] || (!IsSpace(r[0]) && !IsSpace(r[|r| - 1]))
  {
    var a := SkipSpace(s, 0);
    var b := TrimEnd(s, a, |s|);
    SkipSpaceSkipsSpace(s, 0);
    TrimEndDropsSpace(s, a, |s|);
    assert TrimmedAt(s, s[a..b], a);
    s[a..b]
  }

  /** `s.strip().split() == s.split()`. */
  lemma WordsStrip(s: string)
    ensures Words(Strip(s)) == Words(s)
  {
    var a := SkipSpace(s, 0);
    var b := TrimEnd(s, a, |s|);
    StripFront(s, a, b);
    StripBack(s, a, b);
  }

  /** Dropping the leading whitespace of `s[..b]` keeps its words. */
  lemma StripFront(s: string, a: nat, b: nat)
    requires a == SkipSpace(s, 0) && a <= b <= |s|
    ensures WordsFrom(s[a..b], 0) == WordsFrom(s[..b], 0)
  {
    var u := s[..b];
    assert WordsFrom(s[a..b], 0) == WordsFrom(u, a) by {
      assert IsSuffixAt(s[a..b], u, a);
      WordsFromShift(s[a..b], u, a, 0);
    }
    assert SkipSpace(u, 0) == a by {
      SkipSpaceSkipsSpace(s, 0);
      forall m | 0 <= m < a ensures IsSpace(u[m]) {
        assert u[m] == s[m];
      }
      if a < b {
        assert u[a] == s[a];
      }
      SkipSpaceUnique(u, 0, a);
    }
    WordsFromSkip(u, 0);
  }

  /** Dropping the trailing whitespace of `s` keeps its words. */
  lemma StripBack(s: string, a: nat, b: nat)
    requires a <= |s| && b == TrimEnd(s, a, |s|)
    ensures WordsFrom(s[..b], 0) == WordsFrom(s, 0)
  {
    var u := s[..b];
    var sp := s[b..];
    assert s == u + sp;
    assert AllSpace(sp) by {
      TrimEndDropsSpace(s, a, |s|);
      forall m | 0 <= m < |sp| ensures IsSpace(sp[m]) {
        assert sp[m] == s[b + m];
      }
    }
    WordsFromTrailingSpace(u, sp, 0);
  }

  /** `sep.join(parts)`. */
  function JoinWith(parts: seq<string>, sep: char): (r: string)
  {
    if parts == [] then []
    else if |parts| == 1 then parts[0]
    else parts[0] + [sep] + JoinWith(parts[1..], sep)
  }

  /** `" ".join(ws).split() == ws` for any list of tokens. */
  lemma {:induction false} WordsJoin(ws: seq<string>)
    requires forall n :: 0 <= n < |ws| ==> IsToken(ws[n])
    ensures Words(JoinWith(ws, ' ')) == ws
  {
    if |ws| == 1 {
      WordsJoinOne(ws[0]);
    } else if |ws| > 1 {
      WordsJoin(ws[1..]);
      WordsJoinStep(ws);
    }
  }

  /** A single token is its own only word. */
  lemma WordsJoinOne(w: string)
    requires IsToken(w)
    ensures Words(JoinWith([w], ' ')) == [w]
  {
    assert JoinWith([w], ' ') == w;
    assert w[0..|w|] == w;
    SkipSpaceUnique(w, 0, 0);
    WordEndUnique(w, 0, |w|);
    WordsFromStep(w, 0, 0, |w|);
    SkipSpaceUnique(w, |w|, |w|);
    WordsFromDone(w, |w|);
  }

  /** The first token, a space, then the join of the others. */
  lemma WordsJoinStep(ws: seq<string>)
    requires |ws| > 1 && forall n :: 0 <= n < |ws| ==> IsToken(ws[n])
    requires Words(JoinWith(ws[1..], ' ')) == ws[1..]
    ensures Words(JoinWith(ws, ' ')) == ws
  {
    var s := JoinWith(ws, ' ');
    JoinFirstWord(ws);
    JoinSeparator(ws);
    JoinRest(ws);
    assert WordsFrom(s, 0) == [ws[0]] + ws[1..];
  }

  lemma JoinFirstWord(ws: seq<string>)
    requires |ws| > 1 && IsToken(ws[0])
    ensures |ws[0]| < |JoinWith(ws, ' ')|
    ensures WordsFrom(JoinWith(ws, ' '), 0) == [ws[0]] + WordsFrom(JoinWith(ws, ' '), |ws[0]|)
  {
    var s := JoinWith(ws, ' ');
    var a := |ws[0]|;
    JoinLayout(ws);
    SkipSpaceUnique(s, 0, 0);
    WordEndUnique(s, 0, a);
    WordsFromStep(s, 0, 0, a);
  }

  lemma JoinSeparator(ws: seq<string>)
    requires |ws| > 1 && IsToken(ws[0]) && forall n :: 0 <= n < |ws| ==> IsToken(ws[n])
    ensures |ws[0]| < |JoinWith(ws, ' ')|
    ensures WordsFrom(JoinWith(ws, ' '), |ws[0]|) == WordsFrom(JoinWith(ws, ' '), |ws[0]| + 1)
  {
    var s := JoinWith(ws, ' ');
    var a := |ws[0]|;
    JoinLayout(ws);
    WordsJoinHead(ws[1..]);
    SkipSpaceUnique(s, a, a + 1);
    WordsFromSkip(s, a);
  }

  lemma JoinRest(ws: seq<string>)
    requires |ws| > 1 && IsToken(ws[0])
    ensures |ws[0]| < |JoinWith(ws, ' ')|
    ensures WordsFrom(JoinWith(ws, ' '), |ws[0]| + 1) == WordsFrom(JoinWith(ws[1..], ' '), 0)
  {
    JoinLayout(ws);
    WordsFromShift(JoinWith(ws[1..], ' '), JoinWith(ws, ' '), |ws[0]| + 1, 0);
  }

  /** Where the pieces of a join of several tokens lie. */
  lemma JoinLayout(ws: seq<string>)
    requires |ws| > 1 && IsToken(ws[0])
    ensures var s := JoinWith(ws, ' ');
      var a := |ws[0]|;
      a < |s| && s[..a] == ws[0] && s[a] == ' ' &&
      (forall m :: 0 <= m < a ==> !IsSpace(s[m])) &&
      IsSuffixAt(JoinWith(ws[1..], ' '), s, a + 1)
  {
    var w := ws[0];
    var j := JoinWith(ws[1..], ' ');
    var s := JoinWith(ws, ' ');
    assert s == w + [' '] + j;
    forall m | 0 <= m < |w| ensures !IsSpace(s[m]) {
      assert s[m] == w[m];
    }
  }

  /** A join of tokens is empty or starts with a non-space. */
  lemma WordsJoinHead(ws: seq<string>)
    requires forall n :: 0 <= n < |ws| ==> IsToken(ws[n])
    ensures var s := JoinWith(ws, ' '); s == [] || !IsSpace(s[0])
  {
    if |ws| > 1 {
      assert JoinWith(ws, ' ')[0] == ws[0][0];
    }
  }

  // ---------------------------------------------------------------------
  // `s.split(sep)` with an explicit one-character separator

  /** The first position of `c` in `s`. */
  function IndexOf(s: string, c: char): (k: nat)
    requires c in s
    ensures k < |s| && s[k] == c && c !in s[..k]
  {
    if s[0] == c then 0 else 1 + IndexOf(s[1..], c)
  }

  /** `s.split(sep)`: the pieces between separators, empty pieces included;
      it is never the empty list. */
  function SplitOn(s: string, sep: char): (r: seq<string>)
    ensures |r| >= 1
    ensures forall i :: 0 <= i < |r| ==> sep !in r[i]
    decreases |s|
  {
    if sep in s then
      var k := IndexOf(s, sep);
      [s[..k]] + SplitOn(s[k + 1..], sep)
    else
      [s]
  }

  /** `sep.join(parts).split(sep) == parts` when no part holds `sep`. */
  lemma {:induction false} SplitJoin(parts: seq<string>, sep: char)
    requires |parts| >= 1
    requires forall i :: 0 <= i < |parts| ==> sep !in parts[i]
    ensures SplitOn(JoinWith(parts, sep), sep) == parts
  {
    var p := parts[0];
    if |parts| > 1 {
      var j := JoinWith(parts[1..], sep);
      var s := p + [sep] + j;
      assert JoinWith(parts, sep) == s;
      assert s[|p|] == sep;
      var k := IndexOf(s, sep);
      assert s[..k] == p;
      assert s[k + 1..] == j;
      SplitJoin(parts[1..], sep);
    }
  }

  // ---------------------------------------------------------------------
  // The substring test `w in text`

  /** Python's `w in text` for two strings, scanned from the front. */
  function Contains(w: string, text: string): (r: bool)
    ensures w <= text ==> r
    ensures r ==> |w| <= |text|
    decreases |text|
  {
    w <= text || (text != [] && Contains(w, text[1..]))
  }

  /** `w` occurs in `text` starting at position `k`. */
  ghost predicate OccursAt(w: string, text: string, k: int) {
    0 <= k && k + |w| <= |text| && text[k..k + |w|] == w
  }

  /** The scan finds `w` exactly when `w` occurs somewhere in `text`. */
  lemma {:induction false} ContainsIff(w: string, text: string)
    ensures Contains(w, text) <==> exists k :: OccursAt(w, text, k)
    decreases |text|
  {
    if w <= text {
      assert OccursAt(w, text, 0);
    } else if text == [] {
      assert !OccursAt(w, text, 0);
    } else {
      ContainsIff(w, text[1..]);
      if Contains(w, text[1..]) {
        var k :| OccursAt(w, text[1..], k);
        assert text[k + 1..k + 1 + |w|] == text[1..][k..k + |w|];
        assert OccursAt(w, text, k + 1);
      }
      if exists k :: OccursAt(w, text, k) {
        var k :| OccursAt(w, text, k);
        assert text[1..][k - 1..k - 1 + |w|] == text[k..k + |w|];
        assert OccursAt(w, text[1..], k - 1);
      }
    }
  }

  /** A word reaches at least as far as a run of non-space characters that
      starts with it. */
  lemma {:induction false} WordEndAtLeast(s: string, i: nat, q: nat)
    requires i <= q <= |s|
    requires forall m :: i <= m < q ==> !IsSpace(s[m])
    ensures WordEnd(s, i) >= q
    decreases |s| - i
  {
    if i < q {
      WordEndAtLeast(s, i + 1, q);
    }
  }

  /** `w` occurs inside one of the words `ws`. */
  ghost predicate InSomeWord(w: string, ws: seq<string>) {
    exists n, j :: 0 <= n < |ws| && OccursAt(w, ws[n], j)
  }

  /** An occurrence of a string without whitespace lies inside one word: the
      substring test never matches across a space. */
  lemma {:induction false} OccurrenceInWord(w: string, s: string, i: nat, k: nat)
    requires IsToken(w) && i <= k && OccursAt(w, s, k)
    ensures InSomeWord(w, WordsFrom(s, i))
    decreases |s| - i
  {
    var j := SkipSpace(s, i);
    var ws := WordsFrom(s, i);
    assert s[k] == w[0];
    assert j <= k by {
      SkipSpaceSkipsSpace(s, i);
    }
    var e := WordEnd(s, j);
    WordsFromStep(s, i, j, e);
    if k < e {
      assert k + |w| <= e by {
        WordEndSkipsWord(s, j);
        forall m | j <= m < k + |w| ensures !IsSpace(s[m]) {
          if k <= m {
            assert s[m] == w[m - k];
          }
        }
        WordEndAtLeast(s, j, k + |w|);
      }
      assert ws[0] == s[j..e];
      OccursInSlice(w, s, j, e, k);
    } else {
      OccurrenceInWord(w, s, e, k);
      var n, q :| 0 <= n < |WordsFrom(s, e)| && OccursAt(w, WordsFrom(s, e)[n], q);
      assert OccursAt(w, ws[n + 1], q);
    }
  }

  /** An occurrence inside a slice is an occurrence in that slice. */
  lemma OccursInSlice(w: string, s: string, lo: nat, hi: nat, k: nat)
    requires lo <= k && k + |w| <= hi <= |s| && OccursAt(w, s, k)
    ensures OccursAt(w, s[lo..hi], k - lo)
  {
    var u := s[lo..hi];
    forall m | 0 <= m < |w| ensures u[k - lo + m] == w[m] {
      assert u[k - lo + m] == s[k + m];
      assert s[k..k + |w|][m] == s[k + m];
    }
    assert u[k - lo..k - lo + |w|] == w;
  }

  /** Every word of `s` occurs in `s`. */
  lemma {:induction false} WordsFromOccur(s: string, i: nat, n: nat)
    requires i <= |s| && n < |WordsFrom(s, i)|
    ensures exists k :: OccursAt(WordsFrom(s, i)[n], s, k)
    decreases |s| - i
  {
    var j := SkipSpace(s, i);
    var e := WordEnd(s, j);
    assert j < |s|;
    WordsFromStep(s, i, j, e);
    if n == 0 {
      assert j < |s|;
      assert WordsFrom(s, i)[n] == s[j..e];
      assert OccursAt(WordsFrom(s, i)[n], s, j);
    } else {
      WordsFromOccur(s, e, n - 1);
    }
  }
}
