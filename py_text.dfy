/** The Python `str` built-ins the core relies on, on `seq<char>`:
    whitespace as `str.split()` and `str.strip()` see it, `strip`, `split()`,
    `split(sep)` for the separators the core uses, `join`, the text after the
    last '.', and lower-casing. */
module PyText {

  /** Python's whitespace for `str.split()` / `str.strip()` on `str`
      (the characters for which `str.isspace()` is true). */
  predicate IsSpace(c: char) {
    || c == ' '
    || ('\t' <= c <= '\r')
    || ('\U{1C}' <= c <= '\U{1F}')
    || c == '\U{85}' || c == '\U{A0}' || c == '\U{1680}'
    || ('\U{2000}' <= c <= '\U{200A}')
    || c == '\U{2028}' || c == '\U{2029}' || c == '\U{202F}' || c == '\U{205F}' || c == '\U{3000}'
  }

  predicate NoSpace(s: string) {
    forall i | 0 <= i < |s| :: !IsSpace(s[i])
  }

  /** A word of `str.split()`: non-empty, no whitespace. */
  predicate IsWord(w: string) {
    w != [] && NoSpace(w)
  }

  /** Neither starts nor ends with whitespace. */
  predicate IsStripped(s: string) {
    s == [] || (!IsSpace(s[0]) && !IsSpace(s[|s| - 1]))
  }

  /** Python's `s.lstrip()`. */
  function TrimLeft(s: string): (r: string)
    ensures |r| <= |s|
  {
    if s != [] && IsSpace(s[0]) then TrimLeft(s[1..]) else s
  }

  /** Python's `s.rstrip()`. */
  function TrimRight(s: string): (r: string)
    ensures |r| <= |s|
  {
    if s != [] && IsSpace(s[|s| - 1]) then TrimRight(s[..|s| - 1]) else s
  }

  /** Python's `s.strip()`. */
  function Strip(s: string): string {
    TrimRight(TrimLeft(s))
  }

  /** `lstrip` removes exactly the leading whitespace: what remains is a suffix that
      does not start with whitespace, and everything before it is whitespace. */
  lemma {:induction false} TrimLeftSpec(s: string)
    ensures var r := TrimLeft(s);
      && |r| <= |s| && r == s[|s| - |r|..]
      && (r == [] || !IsSpace(r[0]))
      && (forall i | 0 <= i < |s| - |r| :: IsSpace(s[i]))
  {
    if s != [] && IsSpace(s[0]) {
      var t := s[1..];
      TrimLeftSpec(t);
      var r := TrimLeft(t);
      assert TrimLeft(s) == r;
      assert r == s[|s| - |r|..];
      forall i | 0 <= i < |s| - |r| ensures IsSpace(s[i]) {
        if i > 0 {
          assert s[i] == t[i - 1];
        }
      }
    }
  }

  /** `rstrip` removes exactly the trailing whitespace. */
  lemma {:induction false} TrimRightSpec(s: string)
    ensures var r := TrimRight(s);
      && |r| <= |s| && r == s[..|r|]
      && (r == [] || !IsSpace(r[|r| - 1]))
      && (forall i | |r| <= i < |s| :: IsSpace(s[i]))
  {
    if s != [] && IsSpace(s[|s| - 1]) {
      var t := s[..|s| - 1];
      TrimRightSpec(t);
      var r := TrimRight(t);
      assert TrimRight(s) == r;
      assert r == s[..|r|];
      forall i | |r| <= i < |s| ensures IsSpace(s[i]) {
        if i < |s| - 1 {
          assert s[i] == t[i];
        }
      }
    }
  }

  /** Where `strip`'s result starts in its input: after the leading whitespace. */
  function StripStart(s: string): nat {
    |s| - |TrimLeft(s)|
  }

  /** `strip` removes exactly the whitespace at both ends: the result is the slice of
      the input from `StripStart`, everything outside it is whitespace, and it neither
      starts nor ends with whitespace. */
  lemma StripSpec(s: string)
    ensures var r := Strip(s);
      var i := StripStart(s);
      && IsStripped(r)
      && i + |r| <= |s|
      && r == s[i..i + |r|]
      && (forall k | 0 <= k < i :: IsSpace(s[k]))
      && (forall k | i + |r| <= k < |s| :: IsSpace(s[k]))
  {
    var l := TrimLeft(s);
    TrimLeftSpec(s);
    TrimRightSpec(l);
    var r := TrimRight(l);
    var i := |s| - |l|;
    assert r == s[i..i + |r|];
    forall k | i + |r| <= k < |s| ensures IsSpace(s[k]) {
      assert s[k] == l[k - i];
    }
    if r != [] {
      assert r[0] == l[0];
    }
  }

  /** Number of leading non-whitespace characters. */
  function WordLen(s: string): (n: nat)
    ensures n <= |s|
    ensures NoSpace(s[..n])
    ensures n < |s| ==> IsSpace(s[n])
  {
    if s == [] || IsSpace(s[0]) then 0 else 1 + WordLen(s[1..])
  }

  /** Python's `s.split()` with no argument: the maximal runs of non-whitespace. */
  function Words(s: string): (ws: seq<string>)
    ensures forall i | 0 <= i < |ws| :: IsWord(ws[i])
    decreases |s|
  {
    if s == [] then []
    else if IsSpace(s[0]) then Words(s[1..])
    else
      var n := WordLen(s);
      [s[..n]] + Words(s[n..])
  }

  /** The non-whitespace characters of `s`, in order. */
  function NonSpace(s: string): string
    decreases |s|
  {
    if s == [] then ""
    else (if IsSpace(s[0]) then "" else [s[0]]) + NonSpace(s[1..])
  }

  /** The words, written one after the other. */
  function Concat(ws: seq<string>): string
    decreases |ws|
  {
    if ws == [] then "" else ws[0] + Concat(ws[1..])
  }

  lemma {:induction false} NonSpaceAppend(a: string, b: string)
    ensures NonSpace(a + b) == NonSpace(a) + NonSpace(b)
    decreases |a|
  {
    if a != [] {
      assert (a + b)[1..] == a[1..] + b;
      NonSpaceAppend(a[1..], b);
    } else {
      assert a + b == b;
    }
  }

  lemma {:induction false} NonSpaceOfWord(w: string)
    requires NoSpace(w)
    ensures NonSpace(w) == w
    decreases |w|
  {
    if w != [] {
      assert !IsSpace(w[0]);
      NonSpaceOfWord(w[1..]);
    }
  }

  /** `split()` loses only whitespace: its words, written one after the other, are
      exactly the non-whitespace characters of the text, in order. */
  lemma {:induction false} WordsCover(s: string)
    ensures Concat(Words(s)) == NonSpace(s)
    decreases |s|
  {
    if s != [] {
      if IsSpace(s[0]) {
        WordsCover(s[1..]);
      } else {
        var n := WordLen(s);
        WordsCover(s[n..]);
        assert Words(s) == [s[..n]] + Words(s[n..]);
        assert Concat([s[..n]] + Words(s[n..])) == s[..n] + Concat(Words(s[n..]));
        NonSpaceOfWord(s[..n]);
        assert s == s[..n] + s[n..];
        NonSpaceAppend(s[..n], s[n..]);
      }
    }
  }

  /** The first word ends where it did when more text follows a whitespace character. */
  lemma {:induction false} WordLenAppend(a: string, t: string)
    requires t == [] || IsSpace(t[0])
    ensures WordLen(a + t) == WordLen(a)
    decreases |a|
  {
    if a == [] {
      assert a + t == t;
    } else if !IsSpace(a[0]) {
      assert (a + t)[0] == a[0];
      assert (a + t)[1..] == a[1..] + t;
      WordLenAppend(a[1..], t);
    } else {
      assert (a + t)[0] == a[0];
    }
  }

  /** A single word splits into itself. */
  lemma WordsOfWord(w: string)
    requires IsWord(w)
    ensures Words(w) == [w]
  {
    WordLenAppend(w, []);
    assert w + [] == w;
    assert w[|w|..] == [];
  }

  /** `split()` breaks at every whitespace character: the words on either side of one
      are the words of each side. */
  lemma {:induction false} WordsSplitAt(a: string, c: char, b: string)
    requires IsSpace(c)
    ensures Words(a + [c] + b) == Words(a) + Words(b)
    decreases |a|
  {
    var s := a + [c] + b;
    if a == [] {
      assert s[0] == c && s[1..] == b;
    } else if IsSpace(a[0]) {
      assert s[0] == a[0] && s[1..] == a[1..] + [c] + b;
      WordsSplitAt(a[1..], c, b);
    } else {
      assert s == a + ([c] + b);
      WordLenAppend(a, [c] + b);
      var n := WordLen(a);
      assert s[0] == a[0];
      assert s[..n] == a[..n];
      assert s[n..] == a[n..] + [c] + b;
      WordsSplitAt(a[n..], c, b);
    }
  }

  /** Python's `sep.join(parts)`. */
  function JoinWith(sep: string, parts: seq<string>): string
  {
    if |parts| == 0 then ""
    else if |parts| == 1 then parts[0]
    else parts[0] + sep + JoinWith(sep, parts[1..])
  }

  /** Python's `s.split(c)` for a one-character separator: never empty, and no piece
      holds the separator. */
  function SplitOnChar(s: string, c: char): (r: seq<string>)
    ensures |r| >= 1
    ensures forall i | 0 <= i < |r| :: c !in r[i]
  {
    if s == [] then [""]
    else
      var rest := SplitOnChar(s[1..], c);
      if s[0] == c then [""] + rest else [[s[0]] + rest[0]] + rest[1..]
  }

  /** Python's `s.split('. ')`: the separator cannot overlap itself, so a left-to-right
      scan that cuts at the first ". " is what Python does. */
  function SplitSentences(s: string): (r: seq<string>)
    ensures |r| >= 1
  {
    if |s| < 2 then [s]
    else if s[0] == '.' && s[1] == ' ' then [""] + SplitSentences(s[2..])
    else
      var rest := SplitSentences(s[1..]);
      [[s[0]] + rest[0]] + rest[1..]
  }

  /** No ". " occurs in `p`. */
  predicate NoSentenceBreak(p: string) {
    forall j | 0 <= j < |p| - 1 :: !(p[j] == '.' && p[j + 1] == ' ')
  }

  /** No piece of `split('. ')` holds the separator, and the first piece is a prefix
      of the text; with `SplitSentencesJoin` this fixes the pieces to Python's. */
  lemma {:induction false} SplitSentencesPieces(s: string)
    ensures var r := SplitSentences(s);
      && r[0] <= s
      && forall i | 0 <= i < |r| :: NoSentenceBreak(r[i])
    decreases |s|
  {
    if |s| < 2 {
    } else if s[0] == '.' && s[1] == ' ' {
      SplitSentencesPieces(s[2..]);
      var rest := SplitSentences(s[2..]);
      assert SplitSentences(s) == [""] + rest;
    } else {
      SplitSentencesPieces(s[1..]);
      var rest := SplitSentences(s[1..]);
      var head := [s[0]] + rest[0];
      assert SplitSentences(s) == [head] + rest[1..];
      assert head <= s;
      forall j | 0 <= j < |head| - 1 ensures !(head[j] == '.' && head[j + 1] == ' ') {
        if j == 0 {
          assert head[1] == rest[0][0] == s[1];
        } else {
          assert head[j] == rest[0][j - 1] && head[j + 1] == rest[0][j];
        }
      }
      forall i | 0 <= i < |[head] + rest[1..]| ensures NoSentenceBreak(([head] + rest[1..])[i]) {
        if i > 0 {
          assert ([head] + rest[1..])[i] == rest[i];
        }
      }
    }
  }

  /** Joining the pieces of `split(c)` with `c` gives the input back. */
  lemma {:induction false} SplitOnCharJoin(s: string, c: char)
    ensures JoinWith([c], SplitOnChar(s, c)) == s
  {
    if s != [] {
      var rest := SplitOnChar(s[1..], c);
      SplitOnCharJoin(s[1..], c);
      if s[0] == c {
        assert SplitOnChar(s, c) == [""] + rest;
        assert JoinWith([c], [""] + rest) == "" + [c] + JoinWith([c], rest);
      } else {
        JoinHead(rest, [s[0]], [c]);
      }
    }
  }

  /** Joining the pieces of `split('. ')` with ". " gives the input back. */
  lemma {:induction false} SplitSentencesJoin(s: string)
    ensures JoinWith(". ", SplitSentences(s)) == s
  {
    if |s| >= 2 {
      if s[0] == '.' && s[1] == ' ' {
        var rest := SplitSentences(s[2..]);
        SplitSentencesJoin(s[2..]);
        assert JoinWith(". ", [""] + rest) == "" + ". " + JoinWith(". ", rest);
        assert s == ". " + s[2..];
      } else {
        var rest := SplitSentences(s[1..]);
        SplitSentencesJoin(s[1..]);
        JoinHead(rest, [s[0]], ". ");
      }
    }
  }

  /** Prefixing the first part prefixes the joined string. */
  lemma JoinHead(parts: seq<string>, p: string, sep: string)
    requires |parts| >= 1
    ensures JoinWith(sep, [p + parts[0]] + parts[1..]) == p + JoinWith(sep, parts)
  {
    var q := [p + parts[0]] + parts[1..];
    if |parts| > 1 {
      assert q[1..] == parts[1..];
    }
  }

  /** The text after the last '.', as in `s.rsplit('.', 1)[1]` when `'.' in s`. */
  function AfterLastDot(s: string): (r: string)
    requires '.' in s
    ensures '.' !in r
    ensures |r| < |s| && s[|s| - |r| - 1] == '.' && r == s[|s| - |r|..]
  {
    if s[|s| - 1] == '.' then ""
    else
      assert '.' in s[..|s| - 1] by {
        var i :| 0 <= i < |s| && s[i] == '.';
        assert s[..|s| - 1][i] == '.';
      }
      AfterLastDot(s[..|s| - 1]) + [s[|s| - 1]]
  }

  function LowerChar(c: char): char {
    if 'A' <= c <= 'Z' then (c as int + 32) as char else c
  }

  /** Lower-casing of the ASCII letters. For comparing against an all-ASCII lower-case
      word this agrees with Python's Unicode `str.lower()`: no non-ASCII character
      lower-cases to an ASCII letter other than 'k' (from the Kelvin sign U+212A). */
  function AsciiLower(s: string): (r: string)
    ensures |r| == |s|
    ensures forall i | 0 <= i < |s| :: r[i] == LowerChar(s[i])
  {
    seq(|s|, i requires 0 <= i < |s| => LowerChar(s[i]))
  }
}
