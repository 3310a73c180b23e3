/** String operations the adapters apply to scraped and fetched text:
    Python's whitespace test, `' '.join(s.split())`, `strip`, `split(sep)`,
    `startswith`, `s[:-1]` and `int(s)`, written out on `seq<char>`. */
module Text {

  datatype Option<T> = None | Some(value: T)

  /** Python's `str.isspace` on one character (the Unicode White_Space
      characters together with the four ASCII separators 0x1C..0x1F). */
  predicate IsSpace(c: char) {
    c == ' ' || ('\t' <= c <= '\r') || ('\U{1C}' <= c <= '\U{1F}')
    || c == '\U{85}' || c == '\U{A0}' || c == '\U{1680}'
    || ('\U{2000}' <= c <= '\U{200A}') || c == '\U{2028}' || c == '\U{2029}'
    || c == '\U{202F}' || c == '\U{205F}' || c == '\U{3000}'
  }

  predicate IsDigit(c: char) { '0' <= c <= '9' }

  // ---------------------------------------------------------------------
  // Whitespace collapse: ' '.join(s.split())
  // ---------------------------------------------------------------------

  /** A word of `s.split()`: non-empty and free of whitespace. */
  predicate IsWord(w: string) {
    |w| > 0 && forall i :: 0 <= i < |w| ==> !IsSpace(w[i])
  }

  predicate AllWords(ws: seq<string>) {
    forall k :: 0 <= k < |ws| ==> IsWord(ws[k])
  }

  /** `s` with its leading whitespace removed. */
  function DropSpaces(s: string): (t: string)
    ensures |t| <= |s| && t == s[|s| - |t|..]
    ensures t == [] || !IsSpace(t[0])
    ensures forall i :: 0 <= i < |s| - |t| ==> IsSpace(s[i])
  {
    if s != [] && IsSpace(s[0]) then DropSpaces(s[1..]) else s
  }

  /** The longest whitespace-free prefix of `s`. */
  function WordPrefix(s: string): (w: string)
    ensures |w| <= |s| && w == s[..|w|]
    ensures forall i :: 0 <= i < |w| ==> !IsSpace(w[i])
    ensures |w| == |s| || IsSpace(s[|w|])
  {
    if s != [] && !IsSpace(s[0]) then [s[0]] + WordPrefix(s[1..]) else []
  }

  /** Python's `s.split()` with no separator: the maximal runs of
      non-whitespace characters, in order. */
  function Words(s: string): (ws: seq<string>)
    decreases |s|
  {
    var t := DropSpaces(s);
    if t == [] then []
    else
      var w := WordPrefix(t);
      [w] + Words(t[|w|..])
  }

  /** Python's `' '.join(ws)`. */
  function JoinSpace(ws: seq<string>): string {
    if ws == [] then []
    else if |ws| == 1 then ws[0]
    else ws[0] + " " + JoinSpace(ws[1..])
  }

  /** The characters of `s` that are not whitespace, in order. */
  function NonSpace(s: string): string {
    if s == [] then []
    else (if IsSpace(s[0]) then [] else [s[0]]) + NonSpace(s[1..])
  }

  function Flatten(ws: seq<string>): string {
    if ws == [] then [] else ws[0] + Flatten(ws[1..])
  }

  /** The shape of a collapsed title: no leading or trailing whitespace,
      no whitespace other than the plain space, and never two whitespace
      characters next to each other. */
  ghost predicate Collapsed(r: string) {
    (r == [] || (!IsSpace(r[0]) && !IsSpace(r[|r| - 1])))
    && (forall i :: 0 <= i < |r| && IsSpace(r[i]) ==> r[i] == ' ')
    && (forall i, j :: 0 <= i < j < |r| && j == i + 1 && IsSpace(r[j]) ==> !IsSpace(r[i]))
  }

  /** The HackerEarth title clean-up `' '.join(text.split())`. */
  function Collapse(s: string): (r: string)
    ensures Collapsed(r)
    ensures NonSpace(r) == NonSpace(s)
  {
    WordsAreWords(s);
    JoinIsCollapsed(Words(s));
    NonSpaceOfJoin(Words(s));
    NonSpaceOfWords(s);
    JoinSpace(Words(s))
  }

  lemma {:induction false} WordsAreWords(s: string)
    ensures AllWords(Words(s))
    decreases |s|
  {
    var t := DropSpaces(s);
    if t != [] {
      WordsHead(s);
      var w := WordPrefix(t);
      WordsAreWords(t[|w|..]);
      AllWordsCons(w, Words(t[|w|..]));
    }
  }

  /** Unless `s` is all whitespace, its words are its first word followed
      by the words of what comes after that word. */
  lemma WordsHead(s: string)
    requires DropSpaces(s) != []
    ensures var t := DropSpaces(s); var w := WordPrefix(t);
      IsWord(w) && |w| <= |t| && Words(s) == [w] + Words(t[|w|..])
  {
    var t := DropSpaces(s);
    assert !IsSpace(t[0]);
  }

  lemma AllWordsCons(w: string, ws: seq<string>)
    requires IsWord(w) && AllWords(ws)
    ensures AllWords([w] + ws)
  {
    assert forall k :: 0 < k < |[w] + ws| ==> ([w] + ws)[k] == ws[k - 1];
  }

  lemma {:induction false} JoinIsCollapsed(ws: seq<string>)
    requires AllWords(ws)
    ensures Collapsed(JoinSpace(ws))
    ensures ws != [] ==> |JoinSpace(ws)| > 0
  {
    if |ws| > 1 {
      var w, t := ws[0], JoinSpace(ws[1..]);
      assert IsWord(w);
      JoinIsCollapsed(ws[1..]);
      assert |t| > 0 && !IsSpace(t[0]) && !IsSpace(t[|t| - 1]);
      var r := w + " " + t;
      assert JoinSpace(ws) == r;
      assert forall k :: 0 <= k < |w| ==> r[k] == w[k];
      forall i | 0 <= i < |r| && IsSpace(r[i])
        ensures r[i] == ' '
        ensures i > 0 ==> !IsSpace(r[i - 1])
      {
        if i == |w| {
          assert r[i - 1] == w[|w| - 1];
        } else if i > |w| {
          assert r[i] == t[i - |w| - 1];
          if i > |w| + 1 {
            assert r[i - 1] == t[i - |w| - 2];
          }
        }
      }
      assert r[0] == w[0] && r[|r| - 1] == t[|t| - 1];
    }
  }

  /** Joining words with single spaces and splitting the text again gives
      the same words back: every gap becomes exactly one separator. */
  lemma {:induction false} WordsOfJoin(ws: seq<string>)
    requires AllWords(ws)
    ensures Words(JoinSpace(ws)) == ws
  {
    if |ws| == 1 {
      SingleWord(ws[0]);
    } else if |ws| > 1 {
      var w, rest := ws[0], ws[1..];
      AllWordsTail(ws);
      WordsOfJoin(rest);
      WordsOfJoinStep(w, rest);
    } else {
      assert DropSpaces([]) == [];
    }
  }

  lemma AllWordsTail(ws: seq<string>)
    requires AllWords(ws) && ws != []
    ensures AllWords(ws[1..]) && IsWord(ws[0]) && ws == [ws[0]] + ws[1..]
  {
    assert forall k :: 0 <= k < |ws[1..]| ==> ws[1..][k] == ws[k + 1];
  }

  lemma WordsOfJoinStep(w: string, rest: seq<string>)
    requires IsWord(w) && AllWords(rest) && rest != []
    requires Words(JoinSpace(rest)) == rest
    ensures Words(JoinSpace([w] + rest)) == [w] + rest
  {
    var u := JoinSpace(rest);
    assert ([w] + rest)[1..] == rest;
    JoinHead(rest);
    WordsCons(w, u);
  }

  /** The clean-up keeps the words: each run of whitespace between two
      words becomes exactly one space, and nothing else changes. */
  lemma CollapseWords(s: string)
    ensures Words(Collapse(s)) == Words(s)
  {
    WordsAreWords(s);
    WordsOfJoin(Words(s));
  }

  /** A joined text of words is non-empty and starts with a non-space. */
  lemma JoinHead(ws: seq<string>)
    requires AllWords(ws) && ws != []
    ensures JoinSpace(ws) != [] && !IsSpace(JoinSpace(ws)[0])
  {
    JoinIsCollapsed(ws);
  }

  lemma SingleWord(w: string)
    requires IsWord(w)
    ensures Words(w) == [w]
  {
    WordsStep(w);
    WordPrefixOfWord(w, []);
    assert w + [] == w;
    assert w[|w|..] == [] && DropSpaces([]) == [];
  }

  lemma {:induction false} NonSpaceAppend(a: string, b: string)
    ensures NonSpace(a + b) == NonSpace(a) + NonSpace(b)
  {
    if a != [] {
      var head := if IsSpace(a[0]) then [] else [a[0]];
      assert (a + b)[0] == a[0] && (a + b)[1..] == a[1..] + b;
      NonSpaceAppend(a[1..], b);
      assert NonSpace(a + b) == head + NonSpace(a[1..] + b);
      assert NonSpace(a) == head + NonSpace(a[1..]);
    } else {
      assert a + b == b;
    }
  }

  lemma {:induction false} NonSpaceOfWord(w: string)
    requires forall i :: 0 <= i < |w| ==> !IsSpace(w[i])
    ensures NonSpace(w) == w
  {
    if w != [] {
      NonSpaceOfWord(w[1..]);
    }
  }

  lemma {:induction false} NonSpaceOfJoin(ws: seq<string>)
    requires AllWords(ws)
    ensures NonSpace(JoinSpace(ws)) == Flatten(ws)
  {
    if |ws| == 1 {
      NonSpaceOfWord(ws[0]);
      assert Flatten(ws) == ws[0] + Flatten([]);
    } else if |ws| > 1 {
      NonSpaceOfJoin(ws[1..]);
      NonSpaceOfWord(ws[0]);
      NonSpaceAppend(ws[0] + " ", JoinSpace(ws[1..]));
      NonSpaceAppend(ws[0], " ");
    }
  }

  lemma {:induction false} NonSpaceOfDropSpaces(s: string)
    ensures NonSpace(DropSpaces(s)) == NonSpace(s)
  {
    if s != [] && IsSpace(s[0]) {
      NonSpaceOfDropSpaces(s[1..]);
    }
  }

  /** One step of `Words`: a string that starts with a non-space character
      begins with its first word. */
  lemma WordsStep(t: string)
    requires t != [] && !IsSpace(t[0])
    ensures Words(t) == [WordPrefix(t)] + Words(t[|WordPrefix(t)|..])
  {
    assert DropSpaces(t) == t;
  }

  lemma {:induction false} NonSpaceOfWordStep(t: string)
    requires t != [] && !IsSpace(t[0])
    ensures NonSpace(t) == WordPrefix(t) + NonSpace(t[|WordPrefix(t)|..])
  {
    var w := WordPrefix(t);
    assert t == w + t[|w|..];
    NonSpaceAppend(w, t[|w|..]);
    NonSpaceOfWord(w);
  }

  lemma {:induction false} NonSpaceOfWords(s: string)
    ensures Flatten(Words(s)) == NonSpace(s)
    decreases |s|
  {
    var t := DropSpaces(s);
    NonSpaceOfDropSpaces(s);
    if t != [] {
      WordsStep(t);
      var w := WordPrefix(t);
      NonSpaceOfWords(t[|w|..]);
      NonSpaceOfWordStep(t);
      assert Words(s) == Words(t);
      var ws := [w] + Words(t[|w|..]);
      assert Flatten(ws) == w + Flatten(ws[1..]);
      assert ws[1..] == Words(t[|w|..]);
    }
  }

  lemma CollapsedSuffix(r: string, j: nat)
    requires Collapsed(r) && j < |r| && !IsSpace(r[j])
    ensures Collapsed(r[j..])
  {
    var u := r[j..];
    assert forall i :: 0 <= i < |u| ==> u[i] == r[j + i];
  }

  /** A single space before a word does not change the words. */
  lemma WordsAfterSpace(u: string)
    requires u != [] && !IsSpace(u[0])
    ensures Words(" " + u) == Words(u)
  {
    assert (" " + u)[1..] == u;
    assert DropSpaces(" " + u) == DropSpaces(u) == u;
  }

  lemma {:induction false} WordPrefixOfWord(w: string, rest: string)
    requires forall i :: 0 <= i < |w| ==> !IsSpace(w[i])
    requires rest == [] || IsSpace(rest[0])
    ensures WordPrefix(w + rest) == w
  {
    if w != [] {
      assert (w + rest)[0] == w[0] && (w + rest)[1..] == w[1..] + rest;
      WordPrefixOfWord(w[1..], rest);
      assert [w[0]] + w[1..] == w;
    } else {
      assert w + rest == rest;
    }
  }

  /** The words of `w + " " + u` are `w` followed by the words of `u`. */
  lemma WordsCons(w: string, u: string)
    requires IsWord(w) && u != [] && !IsSpace(u[0])
    ensures Words(w + " " + u) == [w] + Words(u)
  {
    var r := w + " " + u;
    WordBeforeSpace(w, u);
    WordsStep(r);
    WordsAfterSpace(u);
  }

  lemma WordBeforeSpace(w: string, u: string)
    requires IsWord(w)
    ensures var r := w + " " + u;
      r != [] && !IsSpace(r[0]) && WordPrefix(r) == w && r[|w|..] == " " + u
  {
    var r := w + " " + u;
    assert r == w + (" " + u);
    WordPrefixOfWord(w, " " + u);
    assert r[0] == w[0];
  }

  lemma SplitAround(r: string, j: nat)
    requires j < |r| && r[j] == ' '
    ensures r == r[..j] + " " + r[j + 1..]
  {
  }

  lemma JoinCons(w: string, u: string)
    requires IsWord(w) && u != [] && !IsSpace(u[0])
    requires JoinSpace(Words(u)) == u
    ensures JoinSpace(Words(w + " " + u)) == w + " " + u
  {
    WordsCons(w, u);
    WordsStep(u);
    var ws := [w] + Words(u);
    assert |ws| > 1 && ws[0] == w && ws[1..] == Words(u);
  }

  /** In a collapsed string, the first word is followed by one space and a
      collapsed remainder. */
  lemma CollapsedAfterFirstWord(r: string)
    requires Collapsed(r) && r != []
    requires |WordPrefix(r)| < |r|
    ensures var j := |WordPrefix(r)|;
      j + 1 < |r| && IsWord(r[..j]) && !IsSpace(r[j + 1]) && Collapsed(r[j + 1..])
      && r == r[..j] + " " + r[j + 1..]
  {
    var j := |WordPrefix(r)|;
    assert IsSpace(r[j]);
    assert r[j] == ' ' && j + 1 < |r| && !IsSpace(r[j + 1]);
    CollapsedSuffix(r, j + 1);
    SplitAround(r, j);
  }

  /** A collapsed string is a fixpoint of the clean-up. */
  lemma {:induction false} CollapsedIsFixpoint(r: string)
    requires Collapsed(r)
    ensures JoinSpace(Words(r)) == r
    decreases |r|
  {
    if r != [] {
      var j := |WordPrefix(r)|;
      if j == |r| {
        SingleWordFixpoint(r);
      } else {
        CollapsedAfterFirstWord(r);
        var u := r[j + 1..];
        CollapsedIsFixpoint(u);
        FixpointStep(r, r[..j], u);
      }
    }
  }

  lemma SingleWordFixpoint(r: string)
    requires r != [] && !IsSpace(r[0]) && |WordPrefix(r)| == |r|
    ensures JoinSpace(Words(r)) == r
  {
    WordsStep(r);
    assert WordPrefix(r) == r && r[|r|..] == [];
    assert Words([]) == [];
  }

  lemma FixpointStep(r: string, w: string, u: string)
    requires IsWord(w) && u != [] && !IsSpace(u[0]) && r == w + " " + u
    requires JoinSpace(Words(u)) == u
    ensures JoinSpace(Words(r)) == r
  {
    JoinCons(w, u);
  }

  lemma CollapseIdempotent(s: string)
    ensures Collapse(Collapse(s)) == Collapse(s)
  {
    CollapsedIsFixpoint(Collapse(s));
  }

  lemma CollapseFixpoints(s: string)
    ensures Collapse(s) == s <==> Collapsed(s)
  {
    if Collapsed(s) {
      CollapsedIsFixpoint(s);
    }
  }

  // ---------------------------------------------------------------------
  // strip / strip(chars)
  // ---------------------------------------------------------------------

  function TrimStart(s: string, drop: char -> bool): (t: string)
    ensures |t| <= |s| && t == s[|s| - |t|..]
    ensures t == [] || !drop(t[0])
    ensures forall i :: 0 <= i < |s| - |t| ==> drop(s[i])
  {
    if s != [] && drop(s[0]) then
      var t := TrimStart(s[1..], drop);
      assert forall i :: 1 <= i < |s| - |t| ==> s[i] == s[1..][i - 1];
      t
    else s
  }

  function TrimEnd(s: string, drop: char -> bool): (t: string)
    ensures |t| <= |s| && t == s[..|t|]
    ensures t == [] || !drop(t[|t| - 1])
    ensures forall i :: |t| <= i < |s| ==> drop(s[i])
  {
    if s != [] && drop(s[|s| - 1]) then TrimEnd(s[..|s| - 1], drop) else s
  }

  /** Python's `s.strip(chars)`: `s` without the characters of `drop` at
      either end. */
  function Trim(s: string, drop: char -> bool): (t: string)
    ensures |t| <= |s|
    ensures t == [] || (!drop(t[0]) && !drop(t[|t| - 1]))
  {
    TrimEnd(TrimStart(s, drop), drop)
  }

  /** `strip` removes nothing but stripped characters, and only at the two
      ends: its result is the slice of `s` between a run of them at the
      front and a run of them at the back. With the end conditions of
      `Trim` this determines the result. */
  lemma TrimWindow(s: string, drop: char -> bool)
    ensures exists i, j :: 0 <= i <= j <= |s| && Trim(s, drop) == s[i..j]
              && (forall k :: 0 <= k < i ==> drop(s[k]))
              && (forall k :: j <= k < |s| ==> drop(s[k]))
  {
    var u := TrimStart(s, drop);
    var t := TrimEnd(u, drop);
    var i := |s| - |u|;
    PrefixOfSuffix(s, i, |t|);
    assert t == s[i..i + |t|];
    EndsDropped(s, u, t, drop);
  }

  lemma PrefixOfSuffix(s: string, i: nat, n: nat)
    requires i + n <= |s|
    ensures s[i..][..n] == s[i..i + n]
  {
  }

  /** What `TrimEnd` removes from the back of `TrimStart`'s result are the
      characters of `s` after the window. */
  lemma EndsDropped(s: string, u: string, t: string, drop: char -> bool)
    requires |u| <= |s| && u == s[|s| - |u|..]
    requires |t| <= |u| && forall k :: |t| <= k < |u| ==> drop(u[k])
    ensures forall k :: |s| - |u| + |t| <= k < |s| ==> drop(s[k])
  {
    forall k | |s| - |u| + |t| <= k < |s|
      ensures drop(s[k])
    {
      assert s[k] == u[k - (|s| - |u|)];
    }
  }

  lemma TrimKeeps(s: string, drop: char -> bool)
    requires s == [] || (!drop(s[0]) && !drop(s[|s| - 1]))
    ensures Trim(s, drop) == s
  {
  }

  /** Python's `s.strip()`. */
  function Strip(s: string): string {
    Trim(s, IsSpace)
  }

  // ---------------------------------------------------------------------
  // split(sep) and its inverse
  // ---------------------------------------------------------------------

  /** Python's `s.split(sep)` for a one-character separator: always at
      least one part, more than one exactly when the separator occurs, and
      the parts never contain the separator. */
  function Split(s: string, sep: char): (parts: seq<string>)
    ensures |parts| >= 1
    ensures |parts| > 1 <==> sep in s
    ensures forall k :: 0 <= k < |parts| ==> sep !in parts[k]
  {
    if s == [] then [[]]
    else
      var rest := Split(s[1..], sep);
      if s[0] == sep then [[]] + rest
      else [[s[0]] + rest[0]] + rest[1..]
  }

  /** Python's `sep.join(parts)`. */
  function Join(parts: seq<string>, sep: char): string
    requires |parts| >= 1
  {
    if |parts| == 1 then parts[0] else parts[0] + [sep] + Join(parts[1..], sep)
  }

  lemma {:induction false} JoinSplit(s: string, sep: char)
    ensures Join(Split(s, sep), sep) == s
  {
    if s != [] {
      JoinSplit(s[1..], sep);
      var rest := Split(s[1..], sep);
      if s[0] != sep {
        if |rest| > 1 {
          assert Split(s, sep)[1..] == rest[1..];
        }
      }
    }
  }

  lemma {:induction false} SplitOfPlain(s: string, sep: char)
    requires sep !in s
    ensures Split(s, sep) == [s]
  {
    if s != [] {
      assert sep !in s[1..];
      SplitOfPlain(s[1..], sep);
      assert [s[0]] + s[1..] == s;
    }
  }

  lemma {:induction false} SplitAtFirst(a: string, b: string, sep: char)
    requires sep !in a
    ensures Split(a + [sep] + b, sep) == [a] + Split(b, sep)
  {
    var x := a + [sep] + b;
    if a != [] {
      assert x[0] == a[0] && x[1..] == a[1..] + [sep] + b;
      SplitAtFirst(a[1..], b, sep);
      var rest := Split(x[1..], sep);
      assert rest[0] == a[1..] && rest[1..] == Split(b, sep);
      assert [a[0]] + a[1..] == a;
    } else {
      assert x[0] == sep && x[1..] == b;
    }
  }

  /** `p` is the part of `s` after its last separator `sep`, or all of `s`
      when there is none. */
  predicate EndSegment(p: string, s: string, sep: char) {
    |p| <= |s| && p == s[|s| - |p|..] && sep !in p
    && (|p| == |s| || s[|s| - |p| - 1] == sep)
  }

  /** `s.split(sep)[-1]`: the text after the last separator. */
  function LastPart(s: string, sep: char): string {
    var parts := Split(s, sep);
    parts[|parts| - 1]
  }

  /** The last part is the suffix of `s` after its last separator (or all
      of `s` when there is none). */
  lemma {:induction false} LastPartIsSuffix(s: string, sep: char)
    ensures EndSegment(LastPart(s, sep), s, sep)
  {
    if s != [] {
      LastPartIsSuffix(s[1..], sep);
      LastPartStep(s, sep);
      if LastPart(s, sep) != s {
        TailSuffix(s, LastPart(s[1..], sep));
      }
    }
  }

  /** The last part of `s` is the last part of its tail, unless `s` holds
      no separator at all. */
  lemma LastPartStep(s: string, sep: char)
    requires s != []
    ensures LastPart(s, sep) == s || LastPart(s, sep) == LastPart(s[1..], sep)
    ensures LastPart(s, sep) == s ==> sep !in s
  {
    var rest := Split(s[1..], sep);
    if s[0] == sep {
      assert Split(s, sep) == [[]] + rest;
    } else if |rest| == 1 {
      JoinSplit(s[1..], sep);
      assert Split(s, sep) == [[s[0]] + s[1..]];
      assert [s[0]] + s[1..] == s;
    } else {
      assert Split(s, sep) == [[s[0]] + rest[0]] + rest[1..];
    }
  }

  /** A suffix of the tail of `s` is a suffix of `s`, with the same
      character before it. */
  lemma TailSuffix(s: string, p: string)
    requires s != [] && |p| <= |s| - 1 && p == s[1..][|s| - 1 - |p|..]
    ensures p == s[|s| - |p|..]
    ensures |p| < |s| - 1 ==> s[1..][|s| - 1 - |p| - 1] == s[|s| - |p| - 1]
  {
  }

  // ---------------------------------------------------------------------
  // startswith and s[:-1]
  // ---------------------------------------------------------------------

  predicate StartsWith(s: string, prefix: string) {
    |prefix| <= |s| && s[..|prefix|] == prefix
  }

  /** Python's `s[:-1]`, which is the empty string for an empty `s`. */
  function DropLast(s: string): (t: string)
    ensures |s| > 0 ==> t + [s[|s| - 1]] == s
    ensures |s| == 0 ==> t == []
  {
    if |s| == 0 then [] else s[..|s| - 1]
  }

  // ---------------------------------------------------------------------
  // Decimal numerals: int(s) and str(n)
  // ---------------------------------------------------------------------

  function DigitValue(c: char): nat
    requires IsDigit(c)
  {
    (c - '0') as nat
  }

  function DigitChar(d: nat): (c: char)
    requires d < 10
    ensures IsDigit(c) && DigitValue(c) == d
  {
    ('0' as int + d) as char
  }

  /** The value of an ASCII digit string, most significant digit first. */
  function Value(s: string): nat
    requires forall i :: 0 <= i < |s| ==> IsDigit(s[i])
  {
    if s == [] then 0 else Value(s[..|s| - 1]) * 10 + DigitValue(s[|s| - 1])
  }

  /** Python's `str(n)` for a natural number. */
  function Show(n: nat): (s: string)
    ensures |s| > 0 && forall i :: 0 <= i < |s| ==> IsDigit(s[i])
  {
    if n < 10 then [DigitChar(n)] else Show(n / 10) + [DigitChar(n % 10)]
  }

  /** The digits of an integer literal as `int()` reads them: ASCII digits
      with single underscores allowed between two digits. */
  predicate Numeral(s: string) {
    |s| > 0 && IsDigit(s[0]) && IsDigit(s[|s| - 1])
    && (forall i :: 0 <= i < |s| ==> IsDigit(s[i]) || s[i] == '_')
    && (forall i :: 0 < i < |s| && s[i] == '_' ==> s[i - 1] != '_')
  }

  function Digits(s: string): (d: string)
    ensures forall i :: 0 <= i < |d| ==> d[i] != '_'
  {
    if s == [] then [] else (if s[0] == '_' then [] else [s[0]]) + Digits(s[1..])
  }

  lemma {:induction false} DigitsOfNumeral(s: string)
    requires forall i :: 0 <= i < |s| ==> IsDigit(s[i]) || s[i] == '_'
    ensures forall i :: 0 <= i < |Digits(s)| ==> IsDigit(Digits(s)[i])
    ensures (forall i :: 0 <= i < |s| ==> IsDigit(s[i])) ==> Digits(s) == s
  {
    if s != [] {
      DigitsOfNumeral(s[1..]);
    }
  }

  /** The value of a numeral, underscores ignored. */
  function NumeralValue(body: string): nat
    requires Numeral(body)
  {
    DigitsOfNumeral(body);
    Value(Digits(body))
  }

  /** The whitespace `int()` skips around a number: the C locale's space,
      tab, newline, vertical tab, form feed and carriage return, and the
      non-ASCII whitespace characters, which it reads as spaces. The ASCII
      separators 0x1C..0x1F, whitespace to `str.isspace`, are not skipped. */
  predicate IsIntSpace(c: char) {
    c == ' ' || ('\t' <= c <= '\r')
    || c == '\U{85}' || c == '\U{A0}' || c == '\U{1680}'
    || ('\U{2000}' <= c <= '\U{200A}') || c == '\U{2028}' || c == '\U{2029}'
    || c == '\U{202F}' || c == '\U{205F}' || c == '\U{3000}'
  }

  /** `s` without the whitespace `int()` skips at either end. */
  function IntStrip(s: string): string {
    Trim(s, IsIntSpace)
  }

  /** Python's `int(s)` on a string: surrounding whitespace, an optional
      sign, then a numeral; any other text is a `ValueError` (`None`). The
      interpreter's limit on the number of digits is not modelled. */
  function ParseInt(s: string): Option<int> {
    ParseSigned(IntStrip(s))
  }

  /** An optional sign, then a numeral. */
  function ParseSigned(t: string): Option<int> {
    if |t| > 0 && (t[0] == '+' || t[0] == '-') then
      if Numeral(t[1..]) then
        var v: int := NumeralValue(t[1..]);
        Some(if t[0] == '-' then -v else v)
      else None
    else if Numeral(t) then Some(NumeralValue(t))
    else None
  }

  lemma {:induction false} ValueOfShow(n: nat)
    ensures Value(Show(n)) == n
  {
    if n >= 10 {
      ValueOfShow(n / 10);
      assert Show(n)[..|Show(n)| - 1] == Show(n / 10);
    }
  }

  /** `int()` reads a plain digit string as its decimal value. */
  lemma ParseDigits(s: string)
    requires |s| > 0 && forall i :: 0 <= i < |s| ==> IsDigit(s[i])
    ensures ParseInt(s) == Some(Value(s))
  {
    DigitsUnstripped(s);
    DigitsAreNumeral(s);
    UnsignedNumeral(s);
  }

  lemma DigitsUnstripped(s: string)
    requires |s| > 0 && forall i :: 0 <= i < |s| ==> IsDigit(s[i])
    ensures ParseInt(s) == ParseSigned(s)
  {
    Unstripped(s);
  }

  /** A text with no skipped whitespace at its ends is read as it is. */
  lemma Unstripped(s: string)
    requires |s| > 0 && !IsIntSpace(s[0]) && !IsIntSpace(s[|s| - 1])
    ensures ParseInt(s) == ParseSigned(s)
  {
    TrimKeeps(s, IsIntSpace);
  }

  lemma DigitsAreNumeral(s: string)
    requires |s| > 0 && forall i :: 0 <= i < |s| ==> IsDigit(s[i])
    ensures Numeral(s) && NumeralValue(s) == Value(s)
  {
    DigitsOfNumeral(s);
  }

  lemma UnsignedNumeral(t: string)
    requires Numeral(t)
    ensures ParseSigned(t) == Some(NumeralValue(t))
  {
    assert IsDigit(t[0]);
  }

  /** `int()` refuses a digit followed by an ASCII separator, which
      `str.strip` would have removed: `int("5\x1c")` is a `ValueError`. */
  lemma SeparatorNotSkipped()
    ensures ParseInt(['5', '\U{1C}']) == None
  {
    var s := ['5', '\U{1C}'];
    Unstripped(s);
    assert !Numeral(s) by {
      assert s[1] == '\U{1C}';
    }
  }

  /** `int(str(n)) == n`. */
  lemma ParseShow(n: nat)
    ensures ParseInt(Show(n)) == Some(n)
  {
    ParseDigits(Show(n));
    ValueOfShow(n);
  }
}
