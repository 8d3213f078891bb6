/** The text side of document ingestion: the whitespace clean-up applied to the text
    every reader extracts, and the sentence-aligned chunker with overlap. */
module DocumentProcessor {
  import opened PyText

  // ---------------------------------------------------------------------------
  // Whitespace normalisation: ' '.join(text.split())
  // ---------------------------------------------------------------------------

  /** The clean-up applied to the extracted text of every document format. */
  function NormalizeWhitespace(text: string): string {
    JoinWith(" ", Words(text))
  }

  /** Every whitespace character is a plain space that stands between two
      non-whitespace characters: no leading or trailing whitespace, no runs. */
  predicate SingleSpaced(s: string) {
    forall i | 0 <= i < |s| && IsSpace(s[i]) ::
      s[i] == ' ' && 0 < i < |s| - 1 && !IsSpace(s[i - 1]) && !IsSpace(s[i + 1])
  }

  lemma {:induction false} WordLenOfWord(w: string, t: string)
    requires IsWord(w)
    requires t == [] || IsSpace(t[0])
    ensures WordLen(w + t) == |w|
  {
    if |w| > 1 {
      assert (w + t)[1..] == w[1..] + t;
      WordLenOfWord(w[1..], t);
    }
    else {
      assert (w + t)[1..] == t;
    }
  }

  /** `split()` undoes `' '.join` on a list of words. */
  lemma {:induction false} WordsOfJoin(ws: seq<string>)
    requires forall i | 0 <= i < |ws| :: IsWord(ws[i])
    ensures Words(JoinWith(" ", ws)) == ws
  {
    if |ws| == 1 {
      var w := ws[0];
      WordLenOfWord(w, "");
      assert w[..|w|] == w && w + "" == w;
    } else if |ws| > 1 {
      var w := ws[0];
      var rest := JoinWith(" ", ws[1..]);
      var s := w + " " + rest;
      WordLenOfWord(w, " " + rest);
      assert s == w + (" " + rest);
      assert s[..|w|] == w;
      assert s[|w|..] == " " + rest;
      assert (" " + rest)[1..] == rest;
      WordsOfJoin(ws[1..]);
      assert Words(s) == [w] + Words(" " + rest);
    }
  }

  /** The first and last characters of a join of words are not whitespace. */
  lemma {:induction false} JoinedWordsEnds(ws: seq<string>)
    requires |ws| >= 1
    requires forall i | 0 <= i < |ws| :: IsWord(ws[i])
    ensures var r := JoinWith(" ", ws);
      r != [] && !IsSpace(r[0]) && !IsSpace(r[|r| - 1])
  {
    assert IsWord(ws[0]) && IsWord(ws[|ws| - 1]);
    if |ws| > 1 {
      JoinedWordsEnds(ws[1..]);
      var w, rest := ws[0], JoinWith(" ", ws[1..]);
      assert (w + " " + rest)[0] == w[0];
    }
  }

  lemma {:induction false} JoinedWordsSingleSpaced(ws: seq<string>)
    requires forall i | 0 <= i < |ws| :: IsWord(ws[i])
    ensures SingleSpaced(JoinWith(" ", ws))
  {
    if |ws| == 1 {
      assert NoSpace(ws[0]);
    } else if |ws| > 1 {
      var w := ws[0];
      var rest := JoinWith(" ", ws[1..]);
      var s := w + " " + rest;
      JoinedWordsSingleSpaced(ws[1..]);
      JoinedWordsEnds(ws[1..]);
      assert NoSpace(w) && !IsSpace(rest[0]);
      forall i | 0 <= i < |s| && IsSpace(s[i])
        ensures s[i] == ' ' && 0 < i < |s| - 1 && !IsSpace(s[i - 1]) && !IsSpace(s[i + 1])
      {
        if i == |w| {
          assert s[i + 1] == rest[0];
          assert s[i - 1] == w[|w| - 1];
        } else if i > |w| {
          var j := i - |w| - 1;
          assert s[i] == rest[j];
          if j > 0 {
            assert s[i - 1] == rest[j - 1];
          }
          assert j < |rest| - 1 && s[i + 1] == rest[j + 1];
        }
      }
    }
  }

  /** The clean-up keeps the words of the text, leaves only single spaces between
      them and none at either end, and applying it a second time changes nothing. */
  lemma NormalizeWhitespaceSpec(text: string)
    ensures Words(NormalizeWhitespace(text)) == Words(text)
    ensures SingleSpaced(NormalizeWhitespace(text))
    ensures IsStripped(NormalizeWhitespace(text))
    ensures NormalizeWhitespace(NormalizeWhitespace(text)) == NormalizeWhitespace(text)
  {
    var r := NormalizeWhitespace(text);
    WordsOfJoin(Words(text));
    JoinedWordsSingleSpaced(Words(text));
    if r != [] {
      assert IsSpace(r[0]) ==> 0 < 0;
      assert IsSpace(r[|r| - 1]) ==> |r| - 1 < |r| - 1;
    }
  }

  // ---------------------------------------------------------------------------
  // Sentence-aligned chunking with overlap
  // ---------------------------------------------------------------------------

  const DefaultChunkSize: nat := 1000
  const DefaultOverlap: nat := 200

  predicate EndsWithDot(s: string) {
    |s| > 0 && s[|s| - 1] == '.'
  }

  /** A sentence as the chunker uses it: with a '.' added unless it already ends with one. */
  function WithPeriod(sentence: string): (p: string)
    ensures EndsWithDot(p)
    ensures EndsWithDot(sentence) ==> p == sentence
    ensures !EndsWithDot(sentence) ==> p == sentence + "."
  {
    if EndsWithDot(sentence) then sentence else sentence + "."
  }

  /** The sentence pieces of a text, each ending with '.'. */
  function Pieces(text: string): (ps: seq<string>)
    ensures |ps| == |SplitSentences(text)| >= 1
    ensures forall k | 0 <= k < |ps| :: ps[k] == WithPeriod(SplitSentences(text)[k])
  {
    var ss := SplitSentences(text);
    seq(|ss|, k requires 0 <= k < |ss| => WithPeriod(ss[k]))
  }

  /** Python's `current[-overlap:]` for a chunk longer than `overlap`: the last
      `overlap` characters, except that `[-0:]` is the whole chunk. */
  function OverlapTail(current: string, overlap: nat): (t: string)
    requires |current| > overlap
    ensures |t| <= |current| && t == current[|current| - |t|..]
    ensures overlap == 0 ==> t == current
    ensures overlap > 0 ==> |t| == overlap
  {
    if overlap == 0 then current else current[|current| - overlap..]
  }

  /** The chunks closed so far and the chunk being built. */
  datatype ChunkState = ChunkState(chunks: seq<string>, current: string)

  /** One turn of the loop over sentences. */
  function Step(chunkSize: nat, overlap: nat, st: ChunkState, piece: string): ChunkState {
    if |st.current| + |piece| + 1 > chunkSize then
      ChunkState(st.chunks + [st.current],
                 if |st.current| > overlap then OverlapTail(st.current, overlap) + " " + piece else piece)
    else
      ChunkState(st.chunks, if st.current != "" then st.current + " " + piece else piece)
  }

  /** The rest of the loop from state `st`, then the closing append of a non-empty chunk. */
  function Finish(chunkSize: nat, overlap: nat, st: ChunkState, pieces: seq<string>): seq<string>
    decreases |pieces|
  {
    if pieces == [] then
      (if st.current != "" then st.chunks + [st.current] else st.chunks)
    else
      Finish(chunkSize, overlap, Step(chunkSize, overlap, st, pieces[0]), pieces[1..])
  }

  /** A loop turn closes at most one chunk, the one being built, and the chunk it
      builds ends with the sentence. */
  lemma StepSpec(chunkSize: nat, overlap: nat, st: ChunkState, piece: string)
    ensures var r := Step(chunkSize, overlap, st, piece);
      && |st.chunks| <= |r.chunks| <= |st.chunks| + 1 && r.chunks[..|st.chunks|] == st.chunks
      && (|r.chunks| == |st.chunks| + 1 ==> r.chunks[|st.chunks|] == st.current)
      && |piece| <= |r.current| && r.current[|r.current| - |piece|..] == piece
  {
    var r := Step(chunkSize, overlap, st, piece);
    if |st.current| + |piece| + 1 > chunkSize {
      assert r.chunks[..|st.chunks|] == st.chunks;
    }
  }

  /** The loop keeps the chunks closed so far as a prefix and closes at most one chunk
      per sentence, plus the last one. */
  lemma {:induction false} FinishSpec(chunkSize: nat, overlap: nat, st: ChunkState, pieces: seq<string>)
    ensures var r := Finish(chunkSize, overlap, st, pieces);
      |st.chunks| <= |r| <= |st.chunks| + |pieces| + 1 && r[..|st.chunks|] == st.chunks
    decreases |pieces|
  {
    var r := Finish(chunkSize, overlap, st, pieces);
    if pieces == [] {
      assert r[..|st.chunks|] == st.chunks;
    } else {
      var st' := Step(chunkSize, overlap, st, pieces[0]);
      StepSpec(chunkSize, overlap, st, pieces[0]);
      FinishSpec(chunkSize, overlap, st', pieces[1..]);
      assert r[..|st.chunks|] == r[..|st'.chunks|][..|st.chunks|];
    }
  }

  /** The chunks of `text`: the text itself when it fits, otherwise the sentence loop. */
  function Chunks(text: string, chunkSize: nat, overlap: nat): seq<string> {
    if |text| <= chunkSize then [text]
    else Finish(chunkSize, overlap, ChunkState([], ""), Pieces(text))
  }

  /** Splits a document into sentence-aligned chunks; consecutive chunks overlap by the
      tail of the earlier one. */
  method ChunkText(text: string, chunkSize: nat, overlap: nat) returns (chunks: seq<string>)
    ensures chunks == Chunks(text, chunkSize, overlap)
  {
    chunks := [];
    if |text| <= chunkSize {
      return [text];
    }
    var sentences := SplitSentences(text);
    ghost var pieces := Pieces(text);
    var current := "";
    for k := 0 to |sentences|
      invariant Finish(chunkSize, overlap, ChunkState(chunks, current), pieces[k..])
             == Chunks(text, chunkSize, overlap)
    {
      var sentence := sentences[k];
      if !EndsWithDot(sentence) {
        sentence := sentence + ".";
      }
      assert sentence == pieces[k];
      if |current| + |sentence| + 1 > chunkSize {
        chunks := chunks + [current];
        if |current| > overlap {
          current := OverlapTail(current, overlap) + " " + sentence;
        } else {
          current := sentence;
        }
      } else {
        if current != "" {
          current := current + " " + sentence;
        } else {
          current := sentence;
        }
      }
      assert pieces[k..][1..] == pieces[k + 1..];
    }
    if current != "" {
      chunks := chunks + [current];
    }
  }

  // --- properties of the chunker ----------------------------------------------

  predicate AllEndWithDot(pieces: seq<string>) {
    forall k | 0 <= k < |pieces| :: EndsWithDot(pieces[k])
  }

  /** What the loop keeps: the chunk being built is empty only before the first
      sentence, and every non-empty chunk ends with '.'; only the first chunk can be empty. */
  predicate Shaped(st: ChunkState) {
    && (st.current == "" ==> st.chunks == [])
    && (st.current != "" ==> EndsWithDot(st.current))
    && (forall i | 0 <= i < |st.chunks| :: st.chunks[i] == "" ==> i == 0)
    && (forall i | 0 <= i < |st.chunks| :: st.chunks[i] != "" ==> EndsWithDot(st.chunks[i]))
  }

  lemma {:induction false} FinishShaped(chunkSize: nat, overlap: nat, st: ChunkState, pieces: seq<string>)
    requires Shaped(st) && AllEndWithDot(pieces)
    ensures var r := Finish(chunkSize, overlap, st, pieces);
      && st.chunks <= r
      && (pieces != [] || st.current != "" ==> |r| > |st.chunks|)
      && (forall i | 0 <= i < |r| :: r[i] == "" ==> i == 0)
      && (forall i | 0 <= i < |r| :: r[i] != "" ==> EndsWithDot(r[i]))
      && (st.current != "" ==> forall i | |st.chunks| <= i < |r| :: r[i] != "")
    decreases |pieces|
  {
    if pieces != [] {
      var st' := Step(chunkSize, overlap, st, pieces[0]);
      assert EndsWithDot(pieces[0]);
      assert Shaped(st');
      FinishShaped(chunkSize, overlap, st', pieces[1..]);
    }
  }

  /** The chunker never returns an empty list: a text that fits is its own single chunk
      (the empty text included), and a longer one ends with the closing append of the
      chunk being built. Every non-empty chunk ends with '.', and only the first chunk
      can be empty. */
  lemma ChunksShape(text: string, chunkSize: nat, overlap: nat)
    ensures var r := Chunks(text, chunkSize, overlap);
      && |r| >= 1
      && (|text| <= chunkSize ==> r == [text])
      && (|text| > chunkSize ==> forall i | 0 <= i < |r| :: r[i] != "" ==> EndsWithDot(r[i]))
      && (|text| > chunkSize ==> forall i | 0 <= i < |r| :: r[i] == "" ==> i == 0)
  {
    if |text| > chunkSize {
      FinishShaped(chunkSize, overlap, ChunkState([], ""), Pieces(text));
    }
  }

  /** The first chunk of a long text is empty exactly when its first sentence alone
      (with its '.', plus the joining space) does not fit. */
  lemma FirstChunkEmpty(text: string, chunkSize: nat, overlap: nat)
    requires |text| > chunkSize
    ensures var r := Chunks(text, chunkSize, overlap);
      |r| >= 1 && (r[0] == "" <==> |Pieces(text)[0]| + 1 > chunkSize)
  {
    var ps := Pieces(text);
    var st' := Step(chunkSize, overlap, ChunkState([], ""), ps[0]);
    assert EndsWithDot(ps[0]);
    FinishShaped(chunkSize, overlap, st', ps[1..]);
  }

  /** A chunk that begins with one of the sentences. */
  predicate StartsWithPiece(next: string, pieces: seq<string>) {
    exists k | 0 <= k < |pieces| :: pieces[k] <= next
  }

  /** How a chunk begins given the chunk closed before it: with that chunk's overlap
      tail and a space when it was longer than `overlap`, otherwise with a sentence. */
  predicate Linked(prev: string, next: string, overlap: nat, pieces: seq<string>) {
    && (|prev| > overlap ==> OverlapTail(prev, overlap) + " " <= next)
    && (|prev| <= overlap ==> StartsWithPiece(next, pieces))
  }

  predicate ChainLinked(st: ChunkState, overlap: nat, pieces: seq<string>) {
    && (forall i | 0 <= i < |st.chunks| - 1 :: Linked(st.chunks[i], st.chunks[i + 1], overlap, pieces))
    && (st.chunks != [] ==> Linked(st.chunks[|st.chunks| - 1], st.current, overlap, pieces))
  }

  lemma PrefixExtends(p: string, s: string, t: string)
    requires p <= s
    ensures p <= s + t
  {
    assert (s + t)[..|p|] == s[..|p|];
  }

  /** Closing a chunk links it to the next one, which starts with its tail or with the sentence. */
  lemma StepLinkedClose(chunkSize: nat, overlap: nat, st: ChunkState, p: string, all: seq<string>)
    requires p in all
    requires ChainLinked(st, overlap, all)
    requires |st.current| + |p| + 1 > chunkSize
    ensures ChainLinked(Step(chunkSize, overlap, st, p), overlap, all)
  {
    var cur := st.current;
    var r := st.chunks + [cur];
    var next := Step(chunkSize, overlap, st, p).current;
    forall i | 0 <= i < |r| - 1
      ensures Linked(r[i], r[i + 1], overlap, all)
    {
      if i < |st.chunks| - 1 {
        assert r[i] == st.chunks[i] && r[i + 1] == st.chunks[i + 1];
      } else {
        assert r[i] == st.chunks[|st.chunks| - 1] && r[i + 1] == cur;
      }
    }
    if |cur| > overlap {
      assert OverlapTail(cur, overlap) + " " <= next;
    } else {
      var k :| 0 <= k < |all| && all[k] == p;
      assert all[k] <= next;
    }
    assert Linked(r[|r| - 1], next, overlap, all);
  }

  /** Appending to a chunk keeps how it begins. */
  lemma LinkedExtends(prev: string, cur: string, tail: string, overlap: nat, all: seq<string>)
    requires Linked(prev, cur, overlap, all)
    ensures Linked(prev, cur + tail, overlap, all)
  {
    if |prev| > overlap {
      PrefixExtends(OverlapTail(prev, overlap) + " ", cur, tail);
    } else {
      var j :| 0 <= j < |all| && all[j] <= cur;
      PrefixExtends(all[j], cur, tail);
    }
  }

  /** Extending a chunk keeps how it begins. */
  lemma StepLinkedExtend(chunkSize: nat, overlap: nat, st: ChunkState, p: string, all: seq<string>)
    requires Shaped(st)
    requires ChainLinked(st, overlap, all)
    requires |st.current| + |p| + 1 <= chunkSize
    ensures ChainLinked(Step(chunkSize, overlap, st, p), overlap, all)
  {
    if st.chunks != [] {
      assert st.current != "";
      var prev := st.chunks[|st.chunks| - 1];
      assert Step(chunkSize, overlap, st, p) == ChunkState(st.chunks, st.current + " " + p);
      LinkedExtends(prev, st.current, " ", overlap, all);
      LinkedExtends(prev, st.current + " ", p, overlap, all);
    }
  }

  /** Every chunk of `r` is linked to the one after it. */
  predicate AllLinked(r: seq<string>, overlap: nat, pieces: seq<string>) {
    forall i | 0 <= i < |r| - 1 :: Linked(r[i], r[i + 1], overlap, pieces)
  }

  /** The closing append keeps the chain linked. */
  lemma ClosingLinked(st: ChunkState, overlap: nat, all: seq<string>)
    requires ChainLinked(st, overlap, all)
    ensures AllLinked(if st.current != "" then st.chunks + [st.current] else st.chunks, overlap, all)
  {
    if st.current != "" {
      var r := st.chunks + [st.current];
      forall i | 0 <= i < |r| - 1
        ensures Linked(r[i], r[i + 1], overlap, all)
      {
        if i < |st.chunks| - 1 {
          assert r[i] == st.chunks[i] && r[i + 1] == st.chunks[i + 1];
        } else {
          assert r[i] == st.chunks[|st.chunks| - 1] && r[i + 1] == st.current;
        }
      }
    }
  }

  /** One loop turn keeps the chunk state shaped and linked. */
  lemma StepLinked(chunkSize: nat, overlap: nat, st: ChunkState, p: string, all: seq<string>)
    requires Shaped(st) && EndsWithDot(p) && p in all
    requires ChainLinked(st, overlap, all)
    ensures Shaped(Step(chunkSize, overlap, st, p))
    ensures ChainLinked(Step(chunkSize, overlap, st, p), overlap, all)
  {
    if |st.current| + |p| + 1 > chunkSize {
      StepLinkedClose(chunkSize, overlap, st, p, all);
    } else {
      StepLinkedExtend(chunkSize, overlap, st, p, all);
    }
  }

  lemma {:induction false} FinishLinked(chunkSize: nat, overlap: nat, st: ChunkState,
                                        rest: seq<string>, all: seq<string>)
    requires Shaped(st) && AllEndWithDot(rest)
    requires ChainLinked(st, overlap, all)
    requires forall k | 0 <= k < |rest| :: rest[k] in all
    ensures AllLinked(Finish(chunkSize, overlap, st, rest), overlap, all)
    decreases |rest|
  {
    if rest == [] {
      ClosingLinked(st, overlap, all);
    } else {
      assert EndsWithDot(rest[0]) && rest[0] in all;
      StepLinked(chunkSize, overlap, st, rest[0], all);
      FinishLinked(chunkSize, overlap, Step(chunkSize, overlap, st, rest[0]), rest[1..], all);
    }
  }

  /** Consecutive chunks of a long text overlap: when the earlier chunk is longer than
      `overlap`, the later one starts with its last `overlap` characters and a space
      (its whole text when `overlap` is 0, Python's `[-0:]`); otherwise the later one
      starts with a sentence of the text. */
  lemma ChunksOverlap(text: string, chunkSize: nat, overlap: nat)
    requires |text| > chunkSize
    ensures var r := Chunks(text, chunkSize, overlap);
      forall i | 0 <= i < |r| - 1 :: Linked(r[i], r[i + 1], overlap, Pieces(text))
  {
    var ps := Pieces(text);
    assert AllEndWithDot(ps);
    assert forall k | 0 <= k < |ps| :: ps[k] in ps;
    assert Chunks(text, chunkSize, overlap) == Finish(chunkSize, overlap, ChunkState([], ""), ps);
    FinishLinked(chunkSize, overlap, ChunkState([], ""), ps, ps);
  }

  /** `p` occurs in `c` as a contiguous run of characters. */
  ghost predicate IsSubstring(p: string, c: string) {
    exists i: nat :: OccursAt(p, c, i)
  }

  /** `p` occurs in `c` from position `i`. */
  predicate OccursAt(p: string, c: string, i: nat) {
    i + |p| <= |c| && c[i..i + |p|] == p
  }

  lemma SubstringLength(p: string, c: string)
    requires IsSubstring(p, c)
    ensures |p| <= |c|
  {
    var i: nat :| OccursAt(p, c, i);
  }

  /** `p` occurs in some chunk of `r`. */
  ghost predicate InSome(p: string, r: seq<string>) {
    exists j | 0 <= j < |r| :: IsSubstring(p, r[j])
  }

  lemma SubstringExtends(p: string, c: string, d: string)
    requires IsSubstring(p, c)
    ensures IsSubstring(p, c + d)
  {
    var i: nat :| OccursAt(p, c, i);
    assert (c + d)[i..i + |p|] == p;
    assert OccursAt(p, c + d, i);
  }

  lemma SubstringEnd(p: string, c: string)
    ensures IsSubstring(p, c + p)
  {
    assert (c + p)[|c|..|c| + |p|] == p;
    assert OccursAt(p, c + p, |c|);
  }

  /** A sentence placed in the chunk state stays in it: one loop turn keeps every
      covered sentence covered and covers the new one. */
  lemma StepCovers(chunkSize: nat, overlap: nat, st: ChunkState, p: string, done: seq<string>)
    requires forall k | 0 <= k < |done| :: InSome(done[k], st.chunks + [st.current])
    ensures var st' := Step(chunkSize, overlap, st, p);
      forall k | 0 <= k < |done + [p]| :: InSome((done + [p])[k], st'.chunks + [st'.current])
  {
    var st' := Step(chunkSize, overlap, st, p);
    var before := st.chunks + [st.current];
    var after := st'.chunks + [st'.current];
    if |st.current| + |p| + 1 > chunkSize {
      assert after[..|before|] == before;
      var t := st'.current;
      if |st.current| > overlap {
        assert t == (OverlapTail(st.current, overlap) + " ") + p;
        SubstringEnd(p, OverlapTail(st.current, overlap) + " ");
      } else {
        SubstringEnd(p, "");
        assert "" + p == t;
      }
      assert IsSubstring(p, after[|after| - 1]);
      forall k | 0 <= k < |done| ensures InSome(done[k], after) {
        var j :| 0 <= j < |before| && IsSubstring(done[k], before[j]);
        assert after[j] == before[j];
      }
    } else {
      assert after[..|st.chunks|] == st.chunks;
      if st.current != "" {
        assert st'.current == (st.current + " ") + p;
        SubstringEnd(p, st.current + " ");
      } else {
        SubstringEnd(p, "");
        assert "" + p == st'.current;
      }
      assert IsSubstring(p, after[|after| - 1]);
      forall k | 0 <= k < |done| ensures InSome(done[k], after) {
        var j :| 0 <= j < |before| && IsSubstring(done[k], before[j]);
        if j < |st.chunks| {
          assert after[j] == before[j];
        } else {
          if st.current != "" {
            SubstringExtends(done[k], st.current, " " + p);
            assert st'.current == st.current + (" " + p);
          } else {
            SubstringLength(done[k], before[j]);
            assert done[k] == [];
            assert OccursAt(done[k], st'.current, 0);
          }
          assert IsSubstring(done[k], after[|after| - 1]);
        }
      }
    }
    forall k | 0 <= k < |done + [p]| ensures InSome((done + [p])[k], after) {
      if k < |done| {
        assert (done + [p])[k] == done[k];
      } else {
        assert IsSubstring(p, after[|after| - 1]);
      }
    }
  }

  lemma {:induction false} FinishCovers(chunkSize: nat, overlap: nat, st: ChunkState,
                                        done: seq<string>, rest: seq<string>)
    requires forall k | 0 <= k < |done| :: done[k] != "" && InSome(done[k], st.chunks + [st.current])
    requires forall k | 0 <= k < |rest| :: rest[k] != ""
    ensures forall k | 0 <= k < |done + rest| ::
      InSome((done + rest)[k], Finish(chunkSize, overlap, st, rest))
    decreases |rest|
  {
    var r := Finish(chunkSize, overlap, st, rest);
    if rest == [] {
      assert done + rest == done;
      forall k | 0 <= k < |done| ensures InSome(done[k], r) {
        var j :| 0 <= j < |st.chunks + [st.current]| && IsSubstring(done[k], (st.chunks + [st.current])[j]);
        if j < |st.chunks| {
          assert r[j] == st.chunks[j];
        } else {
          SubstringLength(done[k], st.current);
          assert r[j] == st.current;
        }
      }
    } else {
      var p := rest[0];
      var st' := Step(chunkSize, overlap, st, p);
      StepCovers(chunkSize, overlap, st, p, done);
      FinishCovers(chunkSize, overlap, st', done + [p], rest[1..]);
      assert done + [p] + rest[1..] == done + rest;
    }
  }

  /** No sentence is lost: every sentence of a long text (with its '.') occurs whole
      in some chunk. */
  lemma ChunksCover(text: string, chunkSize: nat, overlap: nat)
    requires |text| > chunkSize
    ensures forall k | 0 <= k < |Pieces(text)| :: InSome(Pieces(text)[k], Chunks(text, chunkSize, overlap))
  {
    var ps := Pieces(text);
    FinishCovers(chunkSize, overlap, ChunkState([], ""), [], ps);
    assert [] + ps == ps;
  }

  predicate Bounded(st: ChunkState, bound: nat) {
    && |st.current| <= bound
    && (forall i | 0 <= i < |st.chunks| :: |st.chunks[i]| <= bound)
  }

  lemma {:induction false} FinishBounded(chunkSize: nat, overlap: nat, st: ChunkState,
                                         pieces: seq<string>, bound: nat)
    requires 1 <= overlap && chunkSize <= bound
    requires forall k | 0 <= k < |pieces| :: overlap + 1 + |pieces[k]| <= bound
    requires Bounded(st, bound)
    ensures var r := Finish(chunkSize, overlap, st, pieces);
      forall i | 0 <= i < |r| :: |r[i]| <= bound
    decreases |pieces|
  {
    if pieces != [] {
      var p := pieces[0];
      var st' := Step(chunkSize, overlap, st, p);
      assert overlap + 1 + |p| <= bound;
      if |st.current| + |p| + 1 > chunkSize && |st.current| > overlap {
        assert |OverlapTail(st.current, overlap)| == overlap;
      }
      assert Bounded(st', bound);
      var r := Finish(chunkSize, overlap, st, pieces);
      assert r == Finish(chunkSize, overlap, st', pieces[1..]);
      FinishBounded(chunkSize, overlap, st', pieces[1..], bound);
      assert forall i | 0 <= i < |r| :: |r[i]| <= bound;
    }
  }

  /** A chunk grows only while it still fits `chunkSize`; what can exceed it is a chunk
      that starts with an overlap tail (`overlap` characters) and a space before a long
      sentence. So with `overlap` at least 1, no chunk is longer than `bound` when
      `bound` is at least `chunkSize` and at least `overlap + 1 +` every sentence's
      length; with `bound == chunkSize` this says that short sentences never produce an
      oversized chunk. */
  lemma ChunkLengthBound(text: string, chunkSize: nat, overlap: nat, bound: nat)
    requires 1 <= overlap && chunkSize <= bound
    requires forall k | 0 <= k < |Pieces(text)| :: overlap + 1 + |Pieces(text)[k]| <= bound
    ensures var r := Chunks(text, chunkSize, overlap);
      forall i | 0 <= i < |r| :: |r[i]| <= bound
  {
    if |text| > chunkSize {
      assert Chunks(text, chunkSize, overlap) == Finish(chunkSize, overlap, ChunkState([], ""), Pieces(text));
      FinishBounded(chunkSize, overlap, ChunkState([], ""), Pieces(text), bound);
    }
  }
}
