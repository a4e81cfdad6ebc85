/**
 * backend/utils/text.py: whitespace normalisation and overlapping fixed-size windows.
 */
module Text {
  import opened Common

  function Min(a: int, b: int): int { if a < b then a else b }
  function Max(a: int, b: int): int { if a < b then b else a }

  // ---------------------------------------------------------------------------
  // normalize_ws
  // ---------------------------------------------------------------------------

  /** `re.sub(r"\s+", " ", t)`: every maximal whitespace run becomes one space. */
  function CollapseSpaces(t: string): string
    decreases |t|
  {
    if t == [] then []
    else if IsSpace(t[0]) then " " + CollapseSpaces(LStrip(t))
    else [t[0]] + CollapseSpaces(t[1..])
  }

  /** A word in the sense of `str.split()`: non-empty and free of whitespace. */
  predicate IsWord(w: string)
  {
    w != [] && forall i :: 0 <= i < |w| ==> !IsSpace(w[i])
  }

  /** The longest prefix of `t` without whitespace. */
  function WordPrefix(t: string): (w: string)
    ensures |w| <= |t| && w == t[..|w|]
    ensures |w| == |t| || IsSpace(t[|w|])
    ensures t != [] && !IsSpace(t[0]) ==> w != []
  {
    if t == [] || IsSpace(t[0]) then [] else [t[0]] + WordPrefix(t[1..])
  }

  lemma {:induction false} WordPrefixIsWord(t: string)
    requires t != [] && !IsSpace(t[0])
    ensures IsWord(WordPrefix(t))
  {
    if |t| > 1 && !IsSpace(t[1]) {
      WordPrefixIsWord(t[1..]);
    }
  }

  /** Python's `s.split()`: the maximal whitespace-free runs of `s`, in order. */
  function Words(s: string): seq<string>
    decreases |s|
  {
    var t := LStrip(s);
    if t == [] then []
    else
      var w := WordPrefix(t);
      [w] + Words(t[|w|..])
  }

  /** Every piece `split()` returns is a non-empty run without whitespace. */
  lemma {:induction false} WordsAreWords(s: string)
    ensures forall i :: 0 <= i < |Words(s)| ==> IsWord(Words(s)[i])
    decreases |s|
  {
    var t := LStrip(s);
    if t != [] {
      var w := WordPrefix(t);
      var ws, more := Words(s), Words(t[|w|..]);
      assert ws == [w] + more;
      WordPrefixIsWord(t);
      WordsAreWords(t[|w|..]);
      forall i | 0 < i < |ws| ensures IsWord(ws[i]) {
        assert ws[i] == more[i - 1];
      }
    }
  }

  /**
   * `normalize_ws(s)`: strip, then turn every whitespace run into one space. The
   * result is exactly the words of `s` joined by single spaces.
   */
  function NormalizeWs(s: string): string
  {
    CollapseSpaces(Strip(s))
  }

  lemma LStripFixed(t: string)
    requires t == [] || !IsSpace(t[0])
    ensures LStrip(t) == t
  {
  }

  lemma {:induction false} CollapseWord(w: string, x: string)
    requires forall i :: 0 <= i < |w| ==> !IsSpace(w[i])
    ensures CollapseSpaces(w + x) == w + CollapseSpaces(x)
    decreases |w|
  {
    if w != [] {
      var wx := w + x;
      assert wx[0] == w[0];
      assert wx[1..] == w[1..] + x;
      CollapseWord(w[1..], x);
      assert w == [w[0]] + w[1..];
    } else {
      assert w + x == x;
    }
  }

  lemma CollapseRun(sp: string, y: string)
    requires sp != [] && forall i :: 0 <= i < |sp| ==> IsSpace(sp[i])
    requires y == [] || !IsSpace(y[0])
    ensures CollapseSpaces(sp + y) == " " + CollapseSpaces(y)
  {
    LStripRun(sp, y);
  }

  lemma {:induction false} LStripRun(sp: string, y: string)
    requires forall i :: 0 <= i < |sp| ==> IsSpace(sp[i])
    requires y == [] || !IsSpace(y[0])
    ensures LStrip(sp + y) == y
    decreases |sp|
  {
    if sp != [] {
      assert (sp + y)[1..] == sp[1..] + y;
      LStripRun(sp[1..], y);
    } else {
      assert sp + y == y;
    }
  }

  lemma {:induction false} RStripSpaceless(w: string, sp: string)
    requires w == [] || !IsSpace(w[|w| - 1])
    requires forall i :: 0 <= i < |sp| ==> IsSpace(sp[i])
    ensures RStrip(w + sp) == w
    decreases |sp|
  {
    if sp != [] {
      assert (w + sp)[..|w + sp| - 1] == w + sp[..|sp| - 1];
      RStripSpaceless(w, sp[..|sp| - 1]);
    } else {
      assert w + sp == w;
    }
  }

  lemma {:induction false} RStripKeepsFront(a: string, b: string)
    requires RStrip(b) != []
    ensures RStrip(a + b) == a + RStrip(b)
    decreases |b|
  {
    if b != [] && IsSpace(b[|b| - 1]) {
      assert (a + b)[..|a + b| - 1] == a + b[..|b| - 1];
      RStripKeepsFront(a, b[..|b| - 1]);
    }
  }

  lemma WordsFront(t: string)
    requires t != [] && !IsSpace(t[0])
    ensures Words(t) == [WordPrefix(t)] + Words(t[|WordPrefix(t)|..])
  {
    LStripFixed(t);
  }

  lemma WordsSkipSpaces(sp: string, u: string)
    requires forall i :: 0 <= i < |sp| ==> IsSpace(sp[i])
    requires u == [] || !IsSpace(u[0])
    ensures Words(sp + u) == Words(u)
  {
    LStripRun(sp, u);
    LStripFixed(u);
  }

  lemma {:induction false} CollapseStripIsJoin(t: string)
    requires t == [] || !IsSpace(t[0])
    ensures CollapseSpaces(RStrip(t)) == Join(Words(t), " ")
    decreases |t|
  {
    if t != [] {
      var w, sp, u := SplitFirstWord(t);
      if u == [] {
        LastWord(w, sp);
      } else {
        CollapseStripIsJoin(u);
        NextWord(w, sp, u);
      }
    }
  }

  /** The inductive step of `CollapseStripIsJoin`, for a word followed by more words. */
  lemma NextWord(w: string, sp: string, u: string)
    requires IsWord(w)
    requires sp != [] && forall i :: 0 <= i < |sp| ==> IsSpace(sp[i])
    requires u != [] && !IsSpace(u[0])
    requires CollapseSpaces(RStrip(u)) == Join(Words(u), " ")
    ensures CollapseSpaces(RStrip(w + (sp + u))) == Join([w] + Words(u), " ")
  {
    MoreWords(w, sp, u);
    WordsFront(u);
    JoinCons(w, Words(u), " ");
  }

  lemma JoinCons(w: string, ws: seq<string>, sep: string)
    requires ws != []
    ensures Join([w] + ws, sep) == w + (sep + Join(ws, sep))
  {
    assert ([w] + ws)[1..] == ws;
  }

  /** A text that starts with a word is that word, a whitespace run, and the rest. */
  lemma SplitFirstWord(t: string) returns (w: string, sp: string, u: string)
    requires t != [] && !IsSpace(t[0])
    ensures t == w + (sp + u) && |u| < |t|
    ensures IsWord(w) && forall i :: 0 <= i < |sp| ==> IsSpace(sp[i])
    ensures u == [] || (sp != [] && !IsSpace(u[0]))
    ensures Words(t) == [w] + Words(u)
  {
    w := WordPrefix(t);
    WordPrefixIsWord(t);
    var rest := t[|w|..];
    assert t == w + rest;
    sp, u := SplitSpaces(rest);
    if u != [] {
      assert rest[0] == t[|w|];
    }
    WordsFront(t);
    WordsSkipSpaces(sp, u);
  }

  /** `lstrip` splits a text into its leading whitespace and the rest. */
  lemma SplitSpaces(rest: string) returns (sp: string, u: string)
    ensures rest == sp + u && u == LStrip(rest)
    ensures forall i :: 0 <= i < |sp| ==> IsSpace(sp[i])
    ensures rest != [] && IsSpace(rest[0]) ==> sp != []
  {
    u := LStrip(rest);
    LStripDropsSpaces(rest);
    sp := rest[..|rest| - |u|];
    assert rest == sp + u;
    forall i | 0 <= i < |sp| ensures IsSpace(sp[i]) {
      assert sp[i] == rest[i];
    }
  }

  lemma LastWord(w: string, sp: string)
    requires IsWord(w)
    requires forall i :: 0 <= i < |sp| ==> IsSpace(sp[i])
    ensures CollapseSpaces(RStrip(w + (sp + []))) == Join([w] + Words([]), " ")
  {
    assert [w] + Words([]) == [w];
    assert sp + [] == sp;
    RStripSpaceless(w, sp);
    assert w + [] == w;
    CollapseWord(w, []);
  }

  lemma MoreWords(w: string, sp: string, u: string)
    requires IsWord(w)
    requires sp != [] && forall i :: 0 <= i < |sp| ==> IsSpace(sp[i])
    requires u != [] && !IsSpace(u[0])
    ensures CollapseSpaces(RStrip(w + (sp + u))) == w + (" " + CollapseSpaces(RStrip(u)))
  {
    var r := RStripNonSpaceFront(u);
    RStripMiddle(w, sp, u);
    CollapseWord(w, sp + r);
    CollapseRun(sp, r);
  }

  lemma RStripNonSpaceFront(u: string) returns (r: string)
    requires u != [] && !IsSpace(u[0])
    ensures r == RStrip(u) && r != [] && !IsSpace(r[0])
  {
    r := RStrip(u);
    RStripDropsSpaces(u);
    assert r[0] == u[0];
  }

  lemma RStripMiddle(w: string, sp: string, u: string)
    requires RStrip(u) != []
    ensures RStrip(w + (sp + u)) == w + (sp + RStrip(u))
  {
    RStripKeepsFront(sp, u);
    RStripKeepsFront(w, sp + u);
  }

  /** `normalize_ws(s)` is exactly the words of `s` joined by single spaces. */
  lemma NormalizeIsJoinedWords(s: string)
    ensures NormalizeWs(s) == Join(Words(s), " ")
  {
    var t := LStrip(s);
    LStripFixed(t);
    CollapseStripIsJoin(t);
    assert Words(s) == Words(t);
  }

  /**
   * Joining words with single spaces gives text with no whitespace at either end,
   * in which every whitespace character is a single space followed by a word.
   */
  lemma {:induction false} JoinedWordsShape(ws: seq<string>)
    requires forall i :: 0 <= i < |ws| ==> IsWord(ws[i])
    ensures var r := Join(ws, " ");
      && (r == [] <==> ws == [])
      && (r != [] ==> !IsSpace(r[0]) && !IsSpace(r[|r| - 1]))
      && (forall i :: 0 <= i < |r| && IsSpace(r[i]) ==> r[i] == ' ' && i + 1 < |r| && !IsSpace(r[i + 1]))
  {
    if |ws| > 1 {
      JoinedWordsShape(ws[1..]);
      var w, rest := ws[0], Join(ws[1..], " ");
      var r := Join(ws, " ");
      assert r == w + (" " + rest);
      forall i | 0 <= i < |r| && IsSpace(r[i]) ensures r[i] == ' ' && i + 1 < |r| && !IsSpace(r[i + 1]) {
        if i > |w| {
          assert r[i] == rest[i - |w| - 1];
          assert i + 1 < |r| ==> r[i + 1] == rest[i - |w|];
        } else if i == |w| {
          assert r[i + 1] == rest[0];
        }
      }
    }
  }

  /** Splitting words joined by single spaces gives the words back. */
  lemma {:induction false} SplitJoin(ws: seq<string>)
    requires forall i :: 0 <= i < |ws| ==> IsWord(ws[i])
    ensures Words(Join(ws, " ")) == ws
  {
    if |ws| == 1 {
      SplitOneWord(ws[0]);
    } else if |ws| > 1 {
      SplitJoin(ws[1..]);
      SplitJoinStep(ws);
    }
  }

  lemma SplitOneWord(w: string)
    requires IsWord(w)
    ensures Words(Join([w], " ")) == [w]
  {
    WordsOfWordThen(w, []);
    assert w + [] == w;
  }

  /** The inductive step of `SplitJoin`. */
  lemma SplitJoinStep(ws: seq<string>)
    requires |ws| > 1 && forall i :: 0 <= i < |ws| ==> IsWord(ws[i])
    requires Words(Join(ws[1..], " ")) == ws[1..]
    ensures Words(Join(ws, " ")) == ws
  {
    var rest := Join(ws[1..], " ");
    JoinFront(ws[1..], " ");
    assert IsWord(ws[1]);
    WordSpaceRest(ws[0], rest);
    HeadTail(ws);
  }

  lemma JoinFront(ws: seq<string>, sep: string)
    requires ws != [] && ws[0] != []
    ensures Join(ws, sep) != [] && Join(ws, sep)[0] == ws[0][0]
  {
    if |ws| > 1 {
      assert Join(ws, sep)[0] == ws[0][0];
    }
  }

  lemma WordSpaceRest(w: string, rest: string)
    requires IsWord(w)
    requires rest == [] || !IsSpace(rest[0])
    ensures Words(w + (" " + rest)) == [w] + Words(rest)
  {
    WordThenSpace(w, rest);
    SpaceThenWord(rest);
  }

  lemma WordThenSpace(w: string, rest: string)
    requires IsWord(w)
    ensures Words(w + (" " + rest)) == [w] + Words(" " + rest)
  {
    var x := " " + rest;
    assert x[0] == ' ';
    WordsOfWordThen(w, x);
  }

  lemma SpaceThenWord(rest: string)
    requires rest == [] || !IsSpace(rest[0])
    ensures Words(" " + rest) == Words(rest)
  {
    WordsSkipSpaces(" ", rest);
  }

  /** The words of a word followed by text that starts with whitespace (or nothing). */
  lemma WordsOfWordThen(w: string, x: string)
    requires IsWord(w)
    requires x == [] || IsSpace(x[0])
    ensures Words(w + x) == [w] + Words(x)
  {
    assert (w + x)[0] == w[0];
    WordsFront(w + x);
    WordAtFront(w, x);
    assert (w + x)[|w|..] == x;
  }

  lemma {:induction false} WordAtFront(w: string, x: string)
    requires IsWord(w)
    requires x == [] || IsSpace(x[0])
    ensures WordPrefix(w + x) == w
    decreases |w|
  {
    if |w| > 1 {
      assert (w + x)[1..] == w[1..] + x;
      WordAtFront(w[1..], x);
    } else {
      assert (w + x)[1..] == x;
    }
  }

  /**
   * The normalised text has no whitespace at either end, every whitespace character
   * in it is a single space followed by a non-space, and it is empty exactly when
   * the input is all whitespace.
   */
  lemma NormalizeWsShape(s: string)
    ensures var r := NormalizeWs(s);
      && (r == [] <==> forall i :: 0 <= i < |s| ==> IsSpace(s[i]))
      && (r != [] ==> !IsSpace(r[0]) && !IsSpace(r[|r| - 1]))
      && (forall i :: 0 <= i < |r| && IsSpace(r[i]) ==> r[i] == ' ' && i + 1 < |r| && !IsSpace(r[i + 1]))
  {
    NormalizeIsJoinedWords(s);
    WordsAreWords(s);
    JoinedWordsShape(Words(s));
    LStripDropsSpaces(s);
    var t := LStrip(s);
    if t != [] {
      assert !IsSpace(s[|s| - |t|]);
    }
  }

  /** Normalising keeps the words: `split()` sees the same words before and after. */
  lemma NormalizeWsKeepsWords(s: string)
    ensures Words(NormalizeWs(s)) == Words(s)
  {
    NormalizeIsJoinedWords(s);
    WordsAreWords(s);
    SplitJoin(Words(s));
  }

  /** Normalising twice is the same as normalising once. */
  lemma NormalizeWsIdempotent(s: string)
    ensures NormalizeWs(NormalizeWs(s)) == NormalizeWs(s)
  {
    NormalizeWsKeepsWords(s);
    NormalizeIsJoinedWords(s);
    NormalizeIsJoinedWords(NormalizeWs(s));
  }

  // ---------------------------------------------------------------------------
  // chunk_text
  // ---------------------------------------------------------------------------

  /**
   * The windows the loop of `chunk_text` emits once `start` has been reached:
   * `t[start:end]` with `end = min(start + size, n)`, then `start` moves to
   * `max(0, end - overlap)`, until a window reaches the end or `start` passes it.
   */
  function WindowsFrom(t: string, size: int, overlap: int, start: nat): seq<string>
    requires 0 < size && overlap < size
    decreases |t| - start
  {
    if start >= |t| then []
    else
      var end := Min(start + size, |t|);
      [t[start..end]] + if end == |t| then [] else WindowsFrom(t, size, overlap, Max(0, end - overlap))
  }

  /** `chunk_text` on already normalised text. */
  function Windows(t: string, size: int, overlap: int): seq<string>
    requires 0 < size && overlap < size
  {
    WindowsFrom(t, size, overlap, 0)
  }

  /**
   * `chunk_text(text, chunk_size, overlap)`. The source loop only stops when
   * `overlap < chunk_size` (see `ChunkLoopStalls`), which is therefore required.
   */
  method ChunkText(text: string, chunkSize: int, overlap: int) returns (chunks: seq<string>)
    requires 0 < chunkSize && overlap < chunkSize
    ensures chunks == Windows(NormalizeWs(text), chunkSize, overlap)
  {
    var t := NormalizeWs(text);
    if t == [] {
      return [];
    }
    chunks := SlideWindows(t, chunkSize, overlap);
  }

  /** The loop of `chunk_text` over the normalised, non-empty text `t`. */
  method SlideWindows(t: string, chunkSize: int, overlap: int) returns (chunks: seq<string>)
    requires 0 < chunkSize && overlap < chunkSize
    ensures chunks == Windows(t, chunkSize, overlap)
  {
    chunks := [];
    var start, n := 0, |t|;
    while start < n
      invariant 0 <= start
      invariant chunks + WindowsFrom(t, chunkSize, overlap, start) == Windows(t, chunkSize, overlap)
      decreases n - start
    {
      var end := Min(start + chunkSize, n);
      WindowsFromStep(t, chunkSize, overlap, start, chunks);
      chunks := chunks + [t[start..end]];
      if end == n {
        assert chunks + [] == chunks;
        break;
      }
      start := Max(0, end - overlap);
    }
    assert start >= n ==> WindowsFrom(t, chunkSize, overlap, start) == [];
    assert chunks + [] == chunks;
  }

  /** One turn of the loop of `chunk_text`: the window at `start` is emitted, then the rest. */
  lemma WindowsFromStep(t: string, size: int, overlap: int, start: nat, done: seq<string>)
    requires 0 < size && overlap < size && start < |t|
    ensures var end := Min(start + size, |t|);
      done + WindowsFrom(t, size, overlap, start)
      == (done + [t[start..end]]) + if end == |t| then [] else WindowsFrom(t, size, overlap, Max(0, end - overlap))
  {
    var end := Min(start + size, |t|);
    var rest := if end == |t| then [] else WindowsFrom(t, size, overlap, Max(0, end - overlap));
    assert WindowsFrom(t, size, overlap, start) == [t[start..end]] + rest;
    assert done + ([t[start..end]] + rest) == (done + [t[start..end]]) + rest;
  }

  /**
   * The termination quirk: once the text is longer than one window and
   * `overlap >= chunk_size`, the loop sends `start` back to 0 after the first
   * window, so it would emit that window forever.
   */
  lemma ChunkLoopStalls(n: int, size: int, overlap: int)
    requires 0 <= size < n && size <= overlap
    ensures var end := Min(0 + size, n); end != n && Max(0, end - overlap) == 0
  {
  }

  /** The start positions of the windows `WindowsFrom` emits. */
  function StartsFrom(n: nat, size: int, overlap: int, start: nat): seq<nat>
    requires 0 < size && overlap < size
    decreases n - start
  {
    if start >= n then []
    else
      var end := Min(start + size, n);
      [start] + if end == n then [] else StartsFrom(n, size, overlap, Max(0, end - overlap))
  }

  lemma {:induction false} WindowsStartsLength(t: string, size: int, overlap: int, start: nat)
    requires 0 < size && overlap < size
    ensures |WindowsFrom(t, size, overlap, start)| == |StartsFrom(|t|, size, overlap, start)|
    ensures start < |t| ==> StartsFrom(|t|, size, overlap, start)[0] == start
    decreases |t| - start
  {
    if start < |t| {
      var end := Min(start + size, |t|);
      if end != |t| {
        WindowsStartsLength(t, size, overlap, Max(0, end - overlap));
      }
    }
  }

  /** Window `i` is the slice of `t` of at most `size` characters from start `i`. */
  lemma {:induction false} WindowAt(t: string, size: int, overlap: int, start: nat, i: nat)
    requires 0 < size && overlap < size
    requires i < |StartsFrom(|t|, size, overlap, start)|
    ensures var ws, st := WindowsFrom(t, size, overlap, start), StartsFrom(|t|, size, overlap, start);
      i < |ws| && st[i] < |t| && ws[i] == t[st[i]..Min(st[i] + size, |t|)]
    decreases i
  {
    WindowsStartsLength(t, size, overlap, start);
    if i > 0 {
      var next := Max(0, Min(start + size, |t|) - overlap);
      WindowAt(t, size, overlap, next, i - 1);
    }
  }

  /**
   * Consecutive starts are `size - overlap` apart, and a window that is followed
   * by another one is followed by more text than it covers.
   */
  lemma {:induction false} StartStep(n: nat, size: int, overlap: int, start: nat, i: nat)
    requires 0 < size && overlap < size
    requires i + 1 < |StartsFrom(n, size, overlap, start)|
    ensures StartsFrom(n, size, overlap, start)[i + 1] == StartsFrom(n, size, overlap, start)[i] + size - overlap
    ensures StartsFrom(n, size, overlap, start)[i] + size < n
    decreases i
  {
    var next := Max(0, Min(start + size, n) - overlap);
    if i > 0 {
      StartStep(n, size, overlap, next, i - 1);
    } else {
      assert StartsFrom(n, size, overlap, next)[0] == next;
    }
  }

  /** After the last window, the window or the next start reaches the end of the text. */
  lemma {:induction false} LastStart(n: nat, size: int, overlap: int, start: nat)
    requires 0 < size && overlap < size && start < n
    ensures var st := StartsFrom(n, size, overlap, start);
      st != [] && (st[|st| - 1] + size >= n || st[|st| - 1] + size - overlap >= n)
    decreases n - start
  {
    var next := Max(0, Min(start + size, n) - overlap);
    if Min(start + size, n) != n && next < n {
      LastStart(n, size, overlap, next);
    }
  }

  /** Every window is non-empty and at most `size` long; all but the last are full. */
  lemma WindowSize(t: string, size: int, overlap: int, i: nat)
    requires 0 < size && overlap < size
    requires i < |Windows(t, size, overlap)|
    ensures var ws := Windows(t, size, overlap);
      0 < |ws[i]| <= size && (i < |ws| - 1 ==> |ws[i]| == size)
  {
    WindowsStartsLength(t, size, overlap, 0);
    WindowAt(t, size, overlap, 0, i);
    if i < |Windows(t, size, overlap)| - 1 {
      StartStep(|t|, size, overlap, 0, i);
    }
  }

  /** With a non-negative overlap, window `j` begins with the last `overlap` characters of window `j - 1`. */
  lemma WindowOverlap(t: string, size: int, overlap: int, j: nat)
    requires 0 <= overlap < size
    requires 0 < j < |Windows(t, size, overlap)|
    ensures var ws := Windows(t, size, overlap);
      |ws[j - 1]| == size && overlap <= |ws[j]| && ws[j][..overlap] == ws[j - 1][size - overlap..]
  {
    WindowsStartsLength(t, size, overlap, 0);
    WindowAt(t, size, overlap, 0, j - 1);
    WindowAt(t, size, overlap, 0, j);
    StartStep(|t|, size, overlap, 0, j - 1);
    OverlapFromStarts(t, size, overlap, Windows(t, size, overlap), StartsFrom(|t|, size, overlap, 0), j);
  }

  /** Windows `j - 1` and `j` as slices from starts `size - overlap` apart share `overlap` characters. */
  lemma OverlapFromStarts(t: string, size: int, overlap: int, ws: seq<string>, st: seq<nat>, j: nat)
    requires 0 <= overlap < size && 0 < j < |ws| && j < |st|
    requires st[j - 1] < |t| && ws[j - 1] == t[st[j - 1]..Min(st[j - 1] + size, |t|)]
    requires st[j] < |t| && ws[j] == t[st[j]..Min(st[j] + size, |t|)]
    requires st[j] == st[j - 1] + size - overlap && st[j - 1] + size < |t|
    ensures |ws[j - 1]| == size && overlap <= |ws[j]| && ws[j][..overlap] == ws[j - 1][size - overlap..]
  {
    SliceOverlap(t, st[j - 1], size, overlap, ws[j - 1], ws[j]);
  }

  lemma SliceOverlap(t: string, a: nat, size: int, overlap: int, u: string, v: string)
    requires 0 <= overlap < size && a + size < |t|
    requires u == t[a..a + size]
    requires v == t[a + size - overlap..Min(a + 2 * size - overlap, |t|)]
    ensures |u| == size && overlap <= |v| && v[..overlap] == u[size - overlap..]
  {
    assert v[..overlap] == t[a + size - overlap..a + size];
  }

  /** With a non-negative overlap, the first window starts the text and the last one ends it. */
  lemma WindowsCover(t: string, size: int, overlap: int)
    requires 0 <= overlap < size && t != []
    ensures var ws := Windows(t, size, overlap);
      ws != [] && StartsWith(t, ws[0]) && EndsWith(t, ws[|ws| - 1])
  {
    var ws, st := Windows(t, size, overlap), StartsFrom(|t|, size, overlap, 0);
    WindowsStartsLength(t, size, overlap, 0);
    LastStart(|t|, size, overlap, 0);
    WindowAt(t, size, overlap, 0, 0);
    WindowAt(t, size, overlap, 0, |ws| - 1);
  }

  /**
   * The window properties of `chunk_text`, on normalised text `t`: no windows
   * exactly when `t` is empty; each window is non-empty and at most `size` long;
   * all but the last have exactly `size` characters; and, for a non-negative
   * overlap, the first starts the text, the last ends it, and each window begins
   * with the last `overlap` characters of the one before.
   */
  lemma WindowsShape(t: string, size: int, overlap: int)
    requires 0 < size && overlap < size
    ensures var ws := Windows(t, size, overlap);
      && (ws == [] <==> t == [])
      && (forall i :: 0 <= i < |ws| ==> 0 < |ws[i]| <= size)
      && (forall i :: 0 <= i < |ws| - 1 ==> |ws[i]| == size)
      && (0 <= overlap && ws != [] ==> StartsWith(t, ws[0]) && EndsWith(t, ws[|ws| - 1]))
      && (0 <= overlap ==> forall j :: 0 < j < |ws| ==>
            overlap <= |ws[j]| && ws[j][..overlap] == ws[j - 1][size - overlap..])
  {
    var ws := Windows(t, size, overlap);
    forall i | 0 <= i < |ws| ensures 0 < |ws[i]| <= size && (i < |ws| - 1 ==> |ws[i]| == size) {
      WindowSize(t, size, overlap, i);
    }
    if 0 <= overlap {
      forall j | 0 < j < |ws| ensures overlap <= |ws[j]| && ws[j][..overlap] == ws[j - 1][size - overlap..] {
        WindowOverlap(t, size, overlap, j);
      }
      if t != [] {
        WindowsCover(t, size, overlap);
      }
    }
  }

  predicate EndsWith(s: string, p: string)
  {
    |p| <= |s| && s[|s| - |p|..] == p
  }

  /** Chunk 0, then every later chunk without its first `overlap` characters. */
  function Reassemble(ws: seq<string>, overlap: nat): string
  {
    if ws == [] then [] else ws[0] + Glue(ws[1..], overlap)
  }

  function Glue(ws: seq<string>, overlap: nat): string
  {
    if ws == [] then []
    else (if overlap <= |ws[0]| then ws[0][overlap..] else []) + Glue(ws[1..], overlap)
  }

  lemma {:induction false} ReassembleFrom(t: string, size: int, overlap: nat, start: nat)
    requires overlap < size && start < |t|
    ensures Reassemble(WindowsFrom(t, size, overlap, start), overlap) == t[start..]
    decreases |t| - start
  {
    var ws := WindowsFrom(t, size, overlap, start);
    var end := Min(start + size, |t|);
    if end == |t| {
      assert ws == [t[start..end]];
      assert ws[0] + Glue([], overlap) == ws[0];
    } else {
      var next := end - overlap;
      var rest := WindowsFrom(t, size, overlap, next);
      ReassembleFrom(t, size, overlap, next);
      assert ws[1..] == rest;
      GlueNext(t, end, overlap, rest, Min(next + size, |t|));
      assert Reassemble(ws, overlap) == t[start..end] + Glue(rest, overlap);
      SliceSplit(t, start, end);
    }
  }

  /** The next window repeats `overlap` characters before `end`; gluing drops exactly those. */
  lemma GlueNext(t: string, end: nat, overlap: nat, rest: seq<string>, e: nat)
    requires overlap <= end < e <= |t| && rest != []
    requires rest[0] == t[end - overlap..e]
    requires t[end - overlap..] == Reassemble(rest, overlap)
    ensures Glue(rest, overlap) == t[end..]
  {
    var g := Glue(rest[1..], overlap);
    assert Glue(rest, overlap) == rest[0][overlap..] + g;
    DropFromConcat(rest[0], g, overlap);
    assert t[end..] == t[end - overlap..][overlap..];
  }

  lemma SliceSplit<T>(s: seq<T>, i: nat, j: nat)
    requires i <= j <= |s|
    ensures s[i..] == s[i..j] + s[j..]
  {
  }

  lemma DropFromConcat<T>(a: seq<T>, b: seq<T>, k: nat)
    requires k <= |a|
    ensures (a + b)[k..] == a[k..] + b
  {
  }

  /**
   * Round trip for a non-negative overlap: chunk 0 followed by every later chunk
   * minus its first `overlap` characters gives back the normalised text.
   */
  lemma ChunkRoundTrip(text: string, size: int, overlap: nat)
    requires overlap < size
    ensures Reassemble(Windows(NormalizeWs(text), size, overlap), overlap) == NormalizeWs(text)
  {
    var t := NormalizeWs(text);
    if t != [] {
      ReassembleFrom(t, size, overlap, 0);
    }
  }
}
