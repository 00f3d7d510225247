/** Python string operations on whitespace and lines. */
module Text {

  /** `str.isspace` for one character. */
  predicate IsSpace(c: char) {
    || c == ' ' || '\t' <= c <= '\r' || '\U{1C}' <= c <= '\U{1F}' || c == '\U{85}' || c == '\U{A0}'
    || c == '\U{1680}' || '\U{2000}' <= c <= '\U{200A}' || c == '\U{2028}' || c == '\U{2029}'
    || c == '\U{202F}' || c == '\U{205F}' || c == '\U{3000}'
  }

  /** The characters at which `str.splitlines` breaks. */
  predicate IsLineBreak(c: char) {
    '\n' <= c <= '\r' || '\U{1C}' <= c <= '\U{1E}' || c == '\U{85}' || c == '\U{2028}' || c == '\U{2029}'
  }

  /** The code points that Python takes for whitespace and, among them, for line boundaries. */
  lemma SpacesByCode(c: char)
    ensures IsSpace(c)
            <==> c as int in {9, 10, 11, 12, 13, 28, 29, 30, 31, 32, 133, 160, 5760, 8232, 8233, 8239, 8287, 12288}
                 || 8192 <= c as int <= 8202
    ensures IsLineBreak(c) <==> c as int in {10, 11, 12, 13, 28, 29, 30, 133, 8232, 8233}
  {
  }

  function TrimLeft(s: string): (r: string)
    ensures |r| <= |s| && r == s[|s| - |r|..]
    ensures r != "" ==> !IsSpace(r[0])
  {
    if s == "" || !IsSpace(s[0]) then s else TrimLeft(s[1..])
  }

  function TrimRight(s: string): (r: string)
    ensures r <= s
    ensures r != "" ==> !IsSpace(r[|r| - 1])
  {
    if s == "" || !IsSpace(s[|s| - 1]) then s else TrimRight(s[..|s| - 1])
  }

  /** `s.strip()`. */
  function Strip(s: string): (r: string)
    ensures |r| <= |s|
    ensures r != "" ==> !IsSpace(r[0]) && !IsSpace(r[|r| - 1])
  {
    TrimRight(TrimLeft(s))
  }

  lemma StripFixed(s: string)
    requires s == "" || (!IsSpace(s[0]) && !IsSpace(s[|s| - 1]))
    ensures Strip(s) == s
  {
  }

  /** The non-space characters of `s`. */
  function Squeeze(s: string): (r: string)
  {
    if s == "" then "" else (if IsSpace(s[0]) then "" else [s[0]]) + Squeeze(s[1..])
  }

  lemma {:induction false} SqueezeAppend(a: string, b: string)
    ensures Squeeze(a + b) == Squeeze(a) + Squeeze(b)
  {
    if a == "" {
      assert a + b == b;
    } else {
      assert (a + b)[1..] == a[1..] + b;
      SqueezeAppend(a[1..], b);
    }
  }

  lemma {:induction false} SqueezeTrimLeft(s: string)
    ensures Squeeze(TrimLeft(s)) == Squeeze(s)
  {
    if s != "" && IsSpace(s[0]) {
      SqueezeTrimLeft(s[1..]);
    }
  }

  lemma {:induction false} SqueezeTrimRight(s: string)
    ensures Squeeze(TrimRight(s)) == Squeeze(s)
  {
    if s != "" && IsSpace(s[|s| - 1]) {
      SqueezeTrimRight(s[..|s| - 1]);
      assert s == s[..|s| - 1] + [s[|s| - 1]];
      SqueezeAppend(s[..|s| - 1], [s[|s| - 1]]);
    }
  }

  /** Stripping loses only whitespace. */
  lemma SqueezeStrip(s: string)
    ensures Squeeze(Strip(s)) == Squeeze(s)
  {
    SqueezeTrimLeft(s);
    SqueezeTrimRight(TrimLeft(s));
  }

  lemma {:induction false} StripBlank(s: string)
    ensures Strip(s) == "" <==> forall c | c in s :: IsSpace(c)
  {
    if Strip(s) == "" {
      SqueezeStrip(s);
      SqueezeBlank(s);
    } else {
      assert Strip(s)[0] in TrimLeft(s);
      assert Strip(s)[0] in s;
    }
  }

  lemma {:induction false} SqueezeBlank(s: string)
    ensures Squeeze(s) == "" <==> forall c | c in s :: IsSpace(c)
  {
    if s != "" {
      assert s == [s[0]] + s[1..];
      SqueezeBlank(s[1..]);
    }
  }

  // ----- words: " ".join(s.split())

  function WordEnd(s: string): (n: nat)
    ensures n <= |s|
    ensures forall i | 0 <= i < n :: !IsSpace(s[i])
    ensures n < |s| ==> IsSpace(s[n])
  {
    if s == "" || IsSpace(s[0]) then 0 else 1 + WordEnd(s[1..])
  }

  /** Words separated by single spaces, nothing around them. */
  predicate SingleSpaced(s: string) {
    && (s != "" ==> !IsSpace(s[0]) && !IsSpace(s[|s| - 1]))
    && (forall i | 0 <= i < |s| && IsSpace(s[i]) :: s[i] == ' ')
    && (forall i | 0 <= i < |s| - 1 :: !(IsSpace(s[i]) && IsSpace(s[i + 1])))
  }

  /** Line breaks are spaces other than ' ', so a single-spaced text is one line. */
  lemma SingleSpacedIsOneLine(s: string)
    requires SingleSpaced(s)
    ensures OneLine(s)
  {
    forall c | c in s ensures !IsLineBreak(c) {
      var i :| 0 <= i < |s| && s[i] == c;
      assert IsLineBreak(c) ==> IsSpace(c) && c != ' ';
    }
  }

  function JoinWord(w: string, rest: string): string {
    if rest == "" then w else w + " " + rest
  }

  function OneSpaced(s: string): string
    decreases |s|
  {
    var t := TrimLeft(s);
    if t == "" then "" else JoinWord(t[..WordEnd(t)], OneSpaced(t[WordEnd(t)..]))
  }

  lemma JoinWordSpacing(w: string, rest: string)
    requires w != "" && SingleSpaced(rest) && forall c | c in w :: !IsSpace(c)
    ensures SingleSpaced(JoinWord(w, rest)) && JoinWord(w, rest) != ""
  {
    var r := JoinWord(w, rest);
    if rest != "" {
      forall i | 0 <= i < |r|
        ensures r[i] == if i < |w| then w[i] else if i == |w| then ' ' else rest[i - |w| - 1]
      {
      }
      assert forall i | 0 <= i < |w| :: w[i] in w;
      assert r[|r| - 1] == rest[|rest| - 1];
    } else {
      assert forall i | 0 <= i < |w| :: w[i] in w;
    }
  }

  lemma {:induction false} OneSpacedIsSingle(s: string)
    ensures SingleSpaced(OneSpaced(s))
    ensures (exists c :: c in s && !IsSpace(c)) ==> OneSpaced(s) != ""
    decreases |s|
  {
    var t := TrimLeft(s);
    if t != "" {
      OneSpacedIsSingle(t[WordEnd(t)..]);
      JoinWordSpacing(t[..WordEnd(t)], OneSpaced(t[WordEnd(t)..]));
    } else {
      SqueezeTrimLeft(s);
      SqueezeBlank(s);
    }
  }

  // ----- the words of a text: s.split()

  /** The words of `s` behind the unfinished word `word`. */
  function WordsAfter(word: string, s: string): seq<string>
    decreases |s|
  {
    if s == "" then if word == "" then [] else [word]
    else if IsSpace(s[0]) then (if word == "" then [] else [word]) + WordsAfter("", s[1..])
    else WordsAfter(word + [s[0]], s[1..])
  }

  /** `s.split()`. */
  function Words(s: string): seq<string> {
    WordsAfter("", s)
  }

  lemma {:induction false} WordsOfWord(word: string, w: string, rest: string)
    requires forall c | c in w :: !IsSpace(c)
    ensures WordsAfter(word, w + rest) == WordsAfter(word + w, rest)
    decreases |w|
  {
    if w == "" {
      assert w + rest == rest && word + w == word;
    } else {
      assert (w + rest)[1..] == w[1..] + rest;
      assert (word + [w[0]]) + w[1..] == word + w;
      WordsOfWord(word + [w[0]], w[1..], rest);
    }
  }

  /** A word that ends where a space begins comes first. */
  lemma FirstWord(w: string, rest: string)
    requires w != "" && (forall c | c in w :: !IsSpace(c)) && (rest != "" ==> IsSpace(rest[0]))
    ensures Words(w + rest) == [w] + Words(rest)
  {
    WordsOfWord("", w, rest);
    assert "" + w == w;
  }

  lemma {:induction false} WordsTrimLeft(s: string)
    ensures Words(TrimLeft(s)) == Words(s)
  {
    if s != "" && IsSpace(s[0]) {
      WordsTrimLeft(s[1..]);
    }
  }

  lemma {:induction false} WordsThenSpace(word: string, s: string, c: char)
    requires IsSpace(c)
    ensures WordsAfter(word, s + [c]) == WordsAfter(word, s)
    decreases |s|
  {
    if s == "" {
      assert s + [c] == [c] && [c][1..] == "";
    } else {
      assert (s + [c])[1..] == s[1..] + [c];
      if IsSpace(s[0]) {
        WordsThenSpace("", s[1..], c);
      } else {
        WordsThenSpace(word + [s[0]], s[1..], c);
      }
    }
  }

  lemma {:induction false} WordsTrimRight(s: string)
    ensures Words(TrimRight(s)) == Words(s)
  {
    if s != "" && IsSpace(s[|s| - 1]) {
      var n := |s| - 1;
      assert s == s[..n] + [s[n]];
      WordsThenSpace("", s[..n], s[n]);
      WordsTrimRight(s[..n]);
    }
  }

  /** Stripping loses no word. */
  lemma WordsStrip(s: string)
    ensures Words(Strip(s)) == Words(s)
  {
    WordsTrimLeft(s);
    WordsTrimRight(TrimLeft(s));
  }

  lemma {:induction false} WordsApartAfter(word: string, a: string, c: char, b: string)
    requires IsSpace(c)
    ensures WordsAfter(word, a + [c] + b) == WordsAfter(word, a) + Words(b)
    decreases |a|
  {
    if a == "" {
      assert a + [c] + b == [c] + b && ([c] + b)[1..] == b;
    } else {
      assert (a + [c] + b)[1..] == a[1..] + [c] + b;
      if IsSpace(a[0]) {
        WordsApartAfter("", a[1..], c, b);
      } else {
        WordsApartAfter(word + [a[0]], a[1..], c, b);
      }
    }
  }

  /** Two texts joined by a space have the words of the first and then those of the second. */
  lemma WordsApart(a: string, c: char, b: string)
    requires IsSpace(c)
    ensures Words(a + [c] + b) == Words(a) + Words(b)
  {
    WordsApartAfter("", a, c, b);
  }

  lemma OneWord(w: string)
    requires w != "" && forall c | c in w :: !IsSpace(c)
    ensures Words(w) == [w]
  {
    FirstWord(w, "");
    assert w + "" == w;
  }

  lemma OneSpacedUnfolds(s: string) returns (w: string, rest: string)
    requires TrimLeft(s) != ""
    ensures w != "" && (forall c | c in w :: !IsSpace(c)) && (rest != "" ==> IsSpace(rest[0]))
    ensures TrimLeft(s) == w + rest && |rest| < |s| && OneSpaced(s) == JoinWord(w, OneSpaced(rest))
  {
    hide TrimLeft, WordEnd, IsSpace, JoinWord;
    var t := TrimLeft(s);
    var n := WordEnd(t);
    w, rest := t[..n], t[n..];
    forall c | c in w ensures !IsSpace(c) {
      var i :| 0 <= i < n && t[i] == c;
    }
  }

  /** Single spacing keeps the words and their order. */
  lemma {:induction false} OneSpacedKeepsWords(s: string)
    ensures Words(OneSpaced(s)) == Words(s)
    decreases |s|
  {
    hide Words, OneSpaced, TrimLeft, IsSpace;
    WordsTrimLeft(s);
    if TrimLeft(s) == "" {
      OneSpacedBlank(s);
    } else {
      var w, rest := OneSpacedUnfolds(s);
      FirstWord(w, rest);
      OneSpacedKeepsWords(rest);
      JoinWordWords(w, OneSpaced(rest));
    }
  }

  lemma OneSpacedBlank(s: string)
    requires TrimLeft(s) == ""
    ensures OneSpaced(s) == ""
  {
  }

  lemma JoinWordWords(w: string, rest: string)
    requires w != "" && forall c | c in w :: !IsSpace(c)
    ensures Words(JoinWord(w, rest)) == [w] + Words(rest)
  {
    hide Words;
    OneWord(w);
    NoWords("");
    WordsApart(w, ' ', rest);
    assert w + " " == w + [' '];
  }

  /** A single-spaced text stays as it is. */
  lemma {:induction false} OneSpacedFixed(s: string)
    requires SingleSpaced(s)
    ensures OneSpaced(s) == s
    decreases |s|
  {
    hide OneSpaced, TrimLeft, SingleSpaced, IsSpace;
    NothingSpaced();
    if s != "" {
      NothingToTrim(s);
      var w, rest := OneSpacedUnfolds(s);
      assert s[..|w|] == w && s[|w|..] == rest;
      if rest == "" {
        assert s == w;
      } else {
        assert s[|w|] == rest[0];
        SingleSpacedTail(s, |w|);
        var next := s[|w| + 1..];
        OneSpacedFixed(next);
        assert rest == [' '] + next;
        OneMoreSpace(next);
        assert s == w + " " + next;
      }
    }
  }

  lemma NothingToTrim(s: string)
    requires SingleSpaced(s)
    ensures TrimLeft(s) == s
  {
  }

  lemma NothingSpaced()
    ensures OneSpaced("") == ""
  {
  }

  lemma SingleSpacedTail(s: string, n: nat)
    requires SingleSpaced(s) && 0 < n < |s| && IsSpace(s[n])
    ensures s[n] == ' ' && n + 1 < |s| && s[n + 1..] != "" && SingleSpaced(s[n + 1..])
  {
    var next := s[n + 1..];
    assert forall i | 0 <= i < |next| :: next[i] == s[n + 1 + i];
  }

  lemma OneMoreSpace(s: string)
    ensures OneSpaced([' '] + s) == OneSpaced(s)
  {
    assert ([' '] + s)[1..] == s;
  }

  lemma {:induction false} NoWords(s: string)
    requires forall c | c in s :: IsSpace(c)
    ensures Words(s) == []
  {
    if s != "" {
      assert s[0] in s;
      NoWords(s[1..]);
    }
  }

  // ----- lines

  predicate OneLine(s: string) {
    forall c | c in s :: !IsLineBreak(c)
  }

  /** `"\n".join(lines)`. */
  function JoinLines(lines: seq<string>): string {
    if lines == [] then ""
    else if |lines| == 1 then lines[0]
    else lines[0] + "\n" + JoinLines(lines[1..])
  }

  function LineEnd(s: string): (n: nat)
    ensures n <= |s|
    ensures OneLine(s[..n])
    ensures n < |s| ==> IsLineBreak(s[n])
  {
    if s == "" || IsLineBreak(s[0]) then 0 else 1 + LineEnd(s[1..])
  }

  /** `s.splitlines()`: a final line break ends the last line and starts no new one. */
  function SplitLines(s: string): (r: seq<string>)
    ensures forall l | l in r :: OneLine(l)
    ensures s != "" ==> r != []
    decreases |s|
  {
    if s == "" then []
    else
      var n := LineEnd(s);
      if n == |s| then [s]
      else
        var next := if s[n] == '\r' && n + 1 < |s| && s[n + 1] == '\n' then n + 2 else n + 1;
        [s[..n]] + SplitLines(s[next..])
  }

  lemma {:induction false} LineEndAt(a: string, rest: string)
    requires OneLine(a) && (rest == "" || IsLineBreak(rest[0]))
    ensures LineEnd(a + rest) == |a|
  {
    if a == "" {
      assert a + rest == rest;
    } else {
      assert (a + rest)[1..] == a[1..] + rest;
      assert a[0] in a;
      LineEndAt(a[1..], rest);
    }
  }

  lemma SplitFirst(a: string, rest: string)
    requires OneLine(a)
    ensures SplitLines(a + "\n" + rest) == [a] + SplitLines(rest)
  {
    var s := a + "\n" + rest;
    assert s == a + ("\n" + rest);
    LineEndAt(a, "\n" + rest);
    assert s[..|a|] == a && s[|a|] == '\n' && s[|a| + 1..] == rest;
  }

  /** Splitting joined one-line texts gives them back, if none is empty. */
  lemma {:induction false} SplitJoined(lines: seq<string>)
    requires forall l | l in lines :: OneLine(l) && l != ""
    ensures SplitLines(JoinLines(lines)) == lines
  {
    if lines != [] {
      var a := lines[0];
      assert a in lines;
      if |lines| == 1 {
        assert a + "" == a;
        LineEndAt(a, "");
      } else {
        SplitFirst(a, JoinLines(lines[1..]));
        SplitJoined(lines[1..]);
      }
    }
  }

  lemma {:induction false} JoinAppend(a: seq<string>, b: seq<string>)
    requires a != [] && b != []
    ensures JoinLines(a + b) == JoinLines(a) + "\n" + JoinLines(b)
  {
    if |a| == 1 {
      assert (a + b)[1..] == b;
    } else {
      assert (a + b)[1..] == a[1..] + b;
      JoinAppend(a[1..], b);
    }
  }
}
