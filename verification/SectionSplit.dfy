/** Splitting a document at its headings (app/mneme/clients/text_splitter_client.py, `split_document_into_sections`).
    The headings found by the pattern are an input; they start at '#' characters at increasing offsets. */
module SectionSplit {
  import opened Wrappers
  import opened Text

  datatype Heading = Heading(start: nat, level: nat, title: string)

  datatype Section = Section(index: nat, title: Option<string>, level: Option<nat>, path: Option<seq<string>>,
                             start: nat, text: string)

  /** What the pattern promises of the headings of a text. */
  ghost predicate Matches(text: string, hs: seq<Heading>) {
    && (forall i | 0 <= i < |hs| :: hs[i].start < |text| && text[hs[i].start] == '#' && 1 <= hs[i].level <= 6)
    && (forall i, j | 0 <= i < j < |hs| :: hs[i].start < hs[j].start)
  }

  // ----- enclosing headings

  /** The nearest heading before position `k` with a level below `level`; -1 if there is none. */
  function Nearest(hs: seq<Heading>, k: nat, level: nat): (j: int)
    requires k <= |hs|
    ensures -1 <= j < k
    ensures j >= 0 ==> hs[j].level < level
    ensures forall i | j < i < k :: hs[i].level >= level
  {
    if k == 0 then -1 else if hs[k - 1].level < level then k - 1 else Nearest(hs, k - 1, level)
  }

  /** The headings enclosing a heading of level `level` at position `k`, outermost first. */
  function Enclosing(hs: seq<Heading>, k: nat, level: nat): (c: seq<nat>)
    requires k <= |hs|
    ensures forall i | 0 <= i < |c| :: c[i] < k && hs[c[i]].level < level
    decreases k
  {
    var j := Nearest(hs, k, level);
    if j < 0 then [] else Enclosing(hs, j, hs[j].level) + [j]
  }

  function Chain(hs: seq<Heading>, i: nat): seq<nat>
    requires i < |hs|
  {
    Enclosing(hs, i, hs[i].level) + [i]
  }

  /** The stack the program keeps after heading `i`, as positions: cut to `level - 1` entries, then extended. */
  function Stack(hs: seq<Heading>, i: nat): (s: seq<nat>)
    requires i < |hs|
    ensures s != [] && forall k | 0 <= k < |s| :: s[k] <= i
  {
    Push(hs, if i == 0 then [] else Stack(hs, i - 1), i)
  }

  function Push(hs: seq<Heading>, s: seq<nat>, i: nat): seq<nat>
    requires i < |hs|
  {
    FirstN(s, if hs[i].level >= 1 then hs[i].level - 1 else 0) + [i]
  }

  function FirstN<T>(s: seq<T>, n: nat): seq<T> {
    if n <= |s| then s[..n] else s
  }

  /** Levels grow strictly from the outermost heading inwards. */
  ghost predicate Deepening(hs: seq<Heading>, c: seq<nat>) {
    && (forall i | 0 <= i < |c| :: c[i] < |hs| && hs[c[i]].level >= 1)
    && (forall i, j | 0 <= i < j < |c| :: hs[c[i]].level < hs[c[j]].level)
  }

  ghost predicate Levels(hs: seq<Heading>) {
    forall i | 0 <= i < |hs| :: hs[i].level >= 1
  }

  lemma {:induction false} EnclosingDeepens(hs: seq<Heading>, k: nat, level: nat)
    requires k <= |hs| && Levels(hs)
    ensures Deepening(hs, Enclosing(hs, k, level))
    decreases k
  {
    var j := Nearest(hs, k, level);
    if j >= 0 {
      EnclosingDeepens(hs, j, hs[j].level);
    }
  }

  /** `c` without the entries at its end that are not shallower than `level`. */
  function Keep(hs: seq<Heading>, c: seq<nat>, level: nat): (r: seq<nat>)
    ensures |r| <= |c|
  {
    if c == [] then []
    else
      var last := c[|c| - 1];
      if last >= |hs| || hs[last].level < level then c else Keep(hs, c[..|c| - 1], level)
  }

  lemma {:induction false} KeepIsCut(hs: seq<Heading>, c: seq<nat>, level: nat)
    ensures var n := |Keep(hs, c, level)|;
            && Keep(hs, c, level) == c[..n]
            && (n < |c| && c[n] < |hs| ==> hs[c[n]].level >= level)
            && (n > 0 && c[n - 1] < |hs| ==> hs[c[n - 1]].level < level)
  {
    if c != [] && c[|c| - 1] < |hs| && hs[c[|c| - 1]].level >= level {
      KeepIsCut(hs, c[..|c| - 1], level);
    }
  }

  lemma {:induction false} KeepTwice(hs: seq<Heading>, c: seq<nat>, l: nat, m: nat)
    requires l <= m
    ensures Keep(hs, Keep(hs, c, m), l) == Keep(hs, c, l)
  {
    if c != [] && c[|c| - 1] < |hs| && hs[c[|c| - 1]].level >= m {
      KeepTwice(hs, c[..|c| - 1], l, m);
    }
  }

  lemma EnclosingNext(hs: seq<Heading>, k: nat, level: nat)
    requires 0 < k <= |hs|
    ensures Enclosing(hs, k, level)
            == if hs[k - 1].level < level then Chain(hs, k - 1) else Enclosing(hs, k - 1, level)
  {
  }

  lemma NoneEnclosing(hs: seq<Heading>, level: nat)
    ensures Enclosing(hs, 0, level) == Keep(hs, [], level) == []
  {
  }

  lemma KeepChain(hs: seq<Heading>, i: nat, level: nat)
    requires i < |hs|
    ensures Keep(hs, Chain(hs, i), level)
            == if hs[i].level < level then Chain(hs, i) else Keep(hs, Enclosing(hs, i, hs[i].level), level)
  {
    hide Enclosing, Nearest;
    var c := Enclosing(hs, i, hs[i].level);
    assert (c + [i])[..|c|] == c;
  }

  /** The headings enclosing position `k` are those on the chain of the previous heading that are shallower. */
  lemma {:induction false} EnclosingIsKept(hs: seq<Heading>, k: nat, level: nat)
    requires 0 < k <= |hs|
    ensures Enclosing(hs, k, level) == Keep(hs, Chain(hs, k - 1), level)
    decreases k
  {
    hide Enclosing, Keep, Nearest, Chain;
    var l := hs[k - 1].level;
    EnclosingNext(hs, k, level);
    KeepChain(hs, k - 1, level);
    if l >= level {
      if k == 1 {
        NoneEnclosing(hs, level);
        NoneEnclosing(hs, l);
      } else {
        var c := Chain(hs, k - 2);
        EnclosingIsKept(hs, k - 1, level);
        EnclosingIsKept(hs, k - 1, l);
        KeepTwice(hs, c, level, l);
        assert Enclosing(hs, k, level) == Keep(hs, Keep(hs, c, l), level);
      }
    }
  }

  lemma {:induction false} LevelGrows(hs: seq<Heading>, c: seq<nat>, i: nat)
    requires Deepening(hs, c) && i < |c|
    ensures hs[c[i]].level >= i + 1
  {
    if i > 0 {
      LevelGrows(hs, c, i - 1);
    }
  }

  /** No heading that does not go deeper than the one before it leaves out a level above itself. */
  ghost predicate NoGapOnReturn(hs: seq<Heading>, i: nat)
    requires 0 < i < |hs|
  {
    hs[i].level <= hs[i - 1].level ==> |Chain(hs, i)| == hs[i].level
  }

  /** Cutting a deepening chain to `level - 1` entries keeps its shallower part exactly if all of them are kept, or
      the kept part has every level above. */
  lemma CutIsKeep(hs: seq<Heading>, c: seq<nat>, level: nat)
    requires Deepening(hs, c) && level >= 1
    ensures |Keep(hs, c, level)| <= level - 1
    ensures FirstN(c, level - 1) == Keep(hs, c, level) <==> Keep(hs, c, level) == c || |Keep(hs, c, level)| == level - 1
  {
    hide Keep;
    KeepIsCut(hs, c, level);
    var n := |Keep(hs, c, level)|;
    if n > 0 {
      LevelGrows(hs, c, n - 1);
    }
    hide Deepening;
  }

  lemma ChainDeepens(hs: seq<Heading>, i: nat)
    requires i < |hs| && Levels(hs)
    ensures Deepening(hs, Chain(hs, i))
  {
    EnclosingDeepens(hs, i, hs[i].level);
  }

  /** If the stack was the enclosing chain before, it is so after heading `i` exactly if no level was left out. */
  lemma StackStep(hs: seq<Heading>, i: nat)
    requires 0 < i < |hs| && Levels(hs) && Stack(hs, i - 1) == Chain(hs, i - 1)
    ensures Stack(hs, i) == Chain(hs, i) <==> NoGapOnReturn(hs, i)
  {
    hide Deepening, Enclosing, FirstN, Keep;
    var level := hs[i].level;
    var c := Chain(hs, i - 1);
    assert c[|c| - 1] == i - 1;
    EnclosingIsKept(hs, i, level);
    ChainDeepens(hs, i - 1);
    CutIsKeep(hs, c, level);
    KeptAll(hs, c, level);
    Appended(FirstN(c, level - 1), Keep(hs, c, level), i);
  }

  lemma KeptAll(hs: seq<Heading>, c: seq<nat>, level: nat)
    requires c != [] && c[|c| - 1] < |hs|
    ensures Keep(hs, c, level) == c <==> hs[c[|c| - 1]].level < level
  {
  }

  lemma Appended(a: seq<nat>, b: seq<nat>, i: nat)
    ensures a + [i] == b + [i] <==> a == b
  {
    if a + [i] == b + [i] {
      assert a == (a + [i])[..|a|] && b == (b + [i])[..|b|];
    }
  }

  /** The paths are the chains of enclosing headings for the whole document exactly if no heading that returns to
      the same or a shallower level leaves out a level above itself. */
  lemma {:induction false} PathsExactIff(hs: seq<Heading>, n: nat)
    requires n <= |hs| && Levels(hs)
    ensures (forall i | 0 <= i < n :: Stack(hs, i) == Chain(hs, i)) <==> (forall i | 0 < i < n :: NoGapOnReturn(hs, i))
  {
    hide Stack, Chain, NoGapOnReturn;
    if n > 1 {
      PathsExactIff(hs, n - 1);
      if Stack(hs, n - 2) == Chain(hs, n - 2) {
        StackStep(hs, n - 1);
      }
    } else if n == 1 {
      FirstPath(hs);
    }
  }

  lemma FirstPath(hs: seq<Heading>)
    requires hs != []
    ensures Stack(hs, 0) == [0] == Chain(hs, 0)
  {
    assert Nearest(hs, 0, hs[0].level) == -1;
  }

  /** Headings that start at level one and never skip a level when going deeper. */
  ghost predicate NoSkippedLevel(hs: seq<Heading>) {
    && (hs != [] ==> hs[0].level == 1)
    && (forall i | 0 < i < |hs| :: hs[i].level <= hs[i - 1].level + 1)
  }

  lemma {:induction false} DepthIsLevel(hs: seq<Heading>, i: nat)
    requires i < |hs| && Levels(hs) && NoSkippedLevel(hs)
    ensures |Chain(hs, i)| == hs[i].level
    decreases i
  {
    hide Enclosing, Nearest, Keep, Deepening;
    if i > 0 {
      DepthIsLevel(hs, i - 1);
      EnclosingIsKept(hs, i, hs[i].level);
      ChainDeepens(hs, i - 1);
      KeptDepth(hs, Chain(hs, i - 1), hs[i].level);
    } else {
      FirstPath(hs);
    }
  }

  /** A chain that holds every level is cut just above `level`. */
  lemma KeptDepth(hs: seq<Heading>, c: seq<nat>, level: nat)
    requires Deepening(hs, c) && c != [] && hs[c[|c| - 1]].level == |c| && 1 <= level <= |c| + 1
    ensures |Keep(hs, c, level)| == level - 1
  {
    hide Keep;
    FullChainLevels(hs, c);
    KeepIsCut(hs, c, level);
  }

  /** A deepening chain as long as its deepest level holds every level. */
  lemma {:induction false} FullChainLevels(hs: seq<Heading>, c: seq<nat>)
    requires Deepening(hs, c) && c != [] && hs[c[|c| - 1]].level == |c|
    ensures forall i | 0 <= i < |c| :: hs[c[i]].level == i + 1
  {
    var last := |c| - 1;
    if last > 0 {
      LevelGrows(hs, c, last - 1);
      assert hs[c[last - 1]].level < hs[c[last]].level;
      var front := c[..last];
      FullChainLevels(hs, front);
      assert forall i | 0 <= i < last :: front[i] == c[i];
    }
  }

  /** Without skipped levels every path is the chain of enclosing headings. */
  lemma PathsOfTidyDocument(hs: seq<Heading>)
    requires Levels(hs) && NoSkippedLevel(hs)
    ensures forall i | 0 <= i < |hs| :: Stack(hs, i) == Chain(hs, i)
  {
    forall i | 0 < i < |hs| ensures NoGapOnReturn(hs, i) {
      DepthIsLevel(hs, i);
    }
    PathsExactIff(hs, |hs|);
  }

  lemma StackNext(hs: seq<Heading>, i: nat)
    requires 0 < i < |hs|
    ensures Stack(hs, i) == Push(hs, Stack(hs, i - 1), i)
  {
  }

  /** Levels 1, 3, 3: the second heading of level three is filed beneath the first one. */
  lemma SkippedLevelMisplaces(hs: seq<Heading>)
    requires |hs| >= 3 && hs[0].level == 1 && hs[1].level == hs[2].level == 3
    ensures Stack(hs, 2) == [0, 1, 2] && Chain(hs, 2) == [0, 2]
  {
    StackOfThree(hs);
    ChainOfThree(hs);
  }

  lemma StackOfThree(hs: seq<Heading>)
    requires |hs| >= 3 && hs[1].level == hs[2].level == 3
    ensures Stack(hs, 2) == [0, 1, 2]
  {
    hide Stack, Chain, Enclosing, Nearest, Keep;
    FirstPath(hs);
    StackNext(hs, 1);
    assert Stack(hs, 1) == [0, 1];
    StackNext(hs, 2);
  }

  lemma ChainOfThree(hs: seq<Heading>)
    requires |hs| >= 3 && hs[0].level == 1 && hs[1].level == hs[2].level == 3
    ensures Chain(hs, 2) == [0, 2]
  {
    hide Stack, Enclosing, Nearest, Keep, Push, FirstN;
    FirstPath(hs);
    EnclosingNext(hs, 1, 3);
    EnclosingNext(hs, 2, 3);
    assert Enclosing(hs, 2, 3) == [0];
  }

  // ----- the sections

  /** `text.replace("\r\n", "\n")`. */
  function UnixLines(s: string): string {
    if s == "" then ""
    else if |s| >= 2 && s[0] == '\r' && s[1] == '\n' then "\n" + UnixLines(s[2..])
    else [s[0]] + UnixLines(s[1..])
  }

  function Titles(hs: seq<Heading>, c: seq<nat>): (r: seq<string>)
    requires forall i | 0 <= i < |c| :: c[i] < |hs|
    ensures |r| == |c| && forall i | 0 <= i < |c| :: r[i] == hs[c[i]].title
  {
    seq(|c|, i requires 0 <= i < |c| => hs[c[i]].title)
  }

  /** Where the text of heading `i` begins; the end of the document after the last one. */
  function Start(text: string, hs: seq<Heading>, i: nat): nat
    requires i <= |hs|
  {
    if i < |hs| then hs[i].start else |text|
  }

  function BuildSection(index: nat, title: Option<string>, level: Option<nat>, path: Option<seq<string>>, start: nat,
                        text: string)
    : Option<Section>
  {
    if Strip(text) == "" then None else Some(Section(index, title, level, path, start, Strip(text)))
  }

  function Texts(sections: seq<Section>): string {
    if sections == [] then "" else Texts(sections[..|sections| - 1]) + sections[|sections| - 1].text
  }

  /** The section's text is the slice of the document at its recorded offset. */
  ghost predicate IsSlice(text: string, s: Section) {
    s.start + |s.text| <= |text| && s.text == text[s.start..s.start + |s.text|] && s.text != ""
  }

  /** The section of heading `i`, filed under the stack of titles. */
  ghost predicate IsSectionOf(hs: seq<Heading>, i: nat, s: Section)
    requires i < |hs|
  {
    && s.title == Some(hs[i].title) && s.level == Some(hs[i].level) && s.start == hs[i].start
    && s.path == Some(Titles(hs, Stack(hs, i)))
  }

  /** Consecutive identifiers, growing offsets, every text a slice of the document. */
  ghost predicate InPlace(text: string, sections: seq<Section>, end: nat) {
    && (forall i | 0 <= i < |sections| ::
          sections[i].index == i && IsSlice(text, sections[i]) && sections[i].start < end)
    && (forall i, j | 0 <= i < j < |sections| :: sections[i].start < sections[j].start)
  }

  /** The preamble, if there is one, comes first, then one section for each heading. */
  ghost predicate Filed(hs: seq<Heading>, sections: seq<Section>, first: nat, n: nat)
    requires n <= |hs|
  {
    && |sections| == first + n
    && (forall i | 0 <= i < first :: sections[i].title == None && sections[i].path == None && sections[i].start == 0)
    && (forall j | first <= j < |sections| :: IsSectionOf(hs, j - first, sections[j]))
  }

  /** All of the above, and together the sections hold all the text before `end` but whitespace. */
  ghost predicate Sections(text: string, hs: seq<Heading>, sections: seq<Section>, n: nat, end: nat)
    requires n <= |hs| && end <= |text|
  {
    && InPlace(text, sections, end)
    && Filed(hs, sections, if Start(text, hs, 0) > 0 then 1 else 0, n)
    && Squeeze(Texts(sections)) == Squeeze(text[..end])
  }

  lemma SliceStripped(text: string, a: nat, b: nat)
    requires a < b <= |text| && !IsSpace(text[a])
    ensures var s := Strip(text[a..b]);
            s != "" && a + |s| <= b && s == text[a..a + |s|] && Squeeze(s) == Squeeze(text[a..b])
  {
    hide Strip, Squeeze;
    var slice := text[a..b];
    assert slice[0] == text[a];
    SqueezeStrip(slice);
    StripIsPrefix(slice);
    assert slice[..|Strip(slice)|] == text[a..a + |Strip(slice)|];
  }

  lemma StripIsPrefix(s: string)
    requires s != "" && !IsSpace(s[0])
    ensures Strip(s) != "" && Strip(s) <= s
  {
    hide Squeeze;
    StripBlank(s);
    assert s[0] in s;
  }

  lemma AddInPlace(text: string, sections: seq<Section>, s: Section, a: nat, b: nat)
    requires InPlace(text, sections, a) && s.index == |sections| && s.start == a < b && IsSlice(text, s)
    ensures InPlace(text, sections + [s], b)
  {
    hide IsSlice;
  }

  lemma AddFiled(hs: seq<Heading>, sections: seq<Section>, first: nat, n: nat, s: Section)
    requires n < |hs| && Filed(hs, sections, first, n) && IsSectionOf(hs, n, s)
    ensures Filed(hs, sections + [s], first, n + 1)
  {
    hide IsSectionOf;
  }

  lemma AddSection(text: string, hs: seq<Heading>, sections: seq<Section>, n: nat, s: Section)
    requires n < |hs| && Matches(text, hs) && Sections(text, hs, sections, n, hs[n].start)
    requires s.index == |sections| && IsSectionOf(hs, n, s)
    requires s.text == Strip(text[hs[n].start..Start(text, hs, n + 1)])
    ensures Start(text, hs, n + 1) > hs[n].start && Sections(text, hs, sections + [s], n + 1, Start(text, hs, n + 1))
  {
    hide IsSpace, Strip, Stack, InPlace, Filed, Squeeze;
    var a, b := hs[n].start, Start(text, hs, n + 1);
    Hash();
    SliceStripped(text, a, b);
    AddInPlace(text, sections, s, a, b);
    AddFiled(hs, sections, if Start(text, hs, 0) > 0 then 1 else 0, n, s);
    assert (sections + [s])[..|sections|] == sections;
    SqueezeAppend(Texts(sections), s.text);
    assert text[..b] == text[..a] + text[a..b];
    SqueezeAppend(text[..a], text[a..b]);
  }

  lemma Hash()
    ensures !IsSpace('#')
  {
  }

  /** The preamble before the first heading, if there is any text there. */
  lemma Preamble(text: string, hs: seq<Heading>, s: Section)
    requires Matches(text, hs) && text != "" && !IsSpace(text[0]) && Start(text, hs, 0) > 0
    requires s == Section(0, None, None, None, 0, Strip(text[..Start(text, hs, 0)]))
    ensures Sections(text, hs, [s], 0, Start(text, hs, 0))
  {
    hide IsSpace, Strip;
    var b := Start(text, hs, 0);
    assert text[0..b] == text[..b];
    SliceStripped(text, 0, b);
    assert [s][..0] == [] && Texts([s]) == Texts([]) + s.text;
    assert "" + s.text == s.text;
  }

  /** The text before the first heading; the whole text if there is no heading. */
  method TakePreamble(text: string, hs: seq<Heading>) returns (sections: seq<Section>)
    requires Matches(text, hs) && text != "" && !IsSpace(text[0])
    ensures Sections(text, hs, sections, 0, Start(text, hs, 0))
  {
    hide IsSpace, Strip, Sections;
    sections := [];
    var end := Start(text, hs, 0);
    if end > 0 {
      var preamble := BuildSection(0, None, None, None, 0, text[..end]);
      SliceStripped(text, 0, end);
      assert text[0..end] == text[..end];
      Preamble(text, hs, preamble.value);
      if preamble.Some? {
        sections := sections + [preamble.value];
      }
      assert sections == [preamble.value];
    } else {
      NoPreamble(text, hs);
    }
  }

  /** The section of one heading, if it has any text; it always has, for it starts at the heading itself. */
  method TakeSection(text: string, hs: seq<Heading>, i: nat, stack: seq<string>, sections: seq<Section>)
    returns (r: seq<Section>)
    requires i < |hs| && Matches(text, hs) && Sections(text, hs, sections, i, Start(text, hs, i))
    requires stack == Titles(hs, Stack(hs, i))
    ensures Start(text, hs, i + 1) > hs[i].start && Sections(text, hs, r, i + 1, Start(text, hs, i + 1))
  {
    hide IsSpace, Strip, Sections, Stack, Titles;
    var end := Start(text, hs, i + 1);
    var section := BuildSection(|sections|, Some(hs[i].title), Some(hs[i].level), Some(stack), hs[i].start,
                                text[hs[i].start..end]);
    Hash();
    SliceStripped(text, hs[i].start, end);
    AddSection(text, hs, sections, i, section.value);
    r := sections;
    if section.Some? {
      r := sections + [section.value];
    }
  }

  lemma StartsInText(text: string, hs: seq<Heading>)
    requires Matches(text, hs)
    ensures Levels(hs) && Start(text, hs, |hs|) == |text|
    ensures forall i | 0 <= i <= |hs| :: Start(text, hs, i) <= |text|
  {
  }

  /** A carriage return directly before a line feed. */
  predicate ReturnAt(s: string, i: nat) {
    i + 1 < |s| && s[i] == '\r' && s[i + 1] == '\n'
  }

  /** Of the first `n` characters all but carriage returns directly before a line feed. */
  function WithoutReturns(s: string, n: nat): string
    requires n <= |s|
  {
    if n == 0 then "" else WithoutReturns(s, n - 1) + if ReturnAt(s, n - 1) then "" else [s[n - 1]]
  }

  /** Replacing line ends drops the carriage returns directly before line feeds and nothing else. */
  lemma {:induction false} UnixLinesDropsReturns(s: string)
    ensures UnixLines(s) == WithoutReturns(s, |s|)
    decreases |s|
  {
    if s != "" {
      hide WithoutReturns;
      FirstReturns(s);
      var k := if ReturnAt(s, 0) then 2 else 1;
      UnixLinesDropsReturns(s[k..]);
      WithoutReturnsBehind(s, k, |s|);
    }
  }

  lemma FirstReturns(s: string)
    requires s != ""
    ensures if ReturnAt(s, 0) then WithoutReturns(s, 2) == "\n" else WithoutReturns(s, 1) == [s[0]]
  {
    assert WithoutReturns(s, 0) == "";
    if ReturnAt(s, 0) {
      assert !ReturnAt(s, 1) && WithoutReturns(s, 1) == "";
    }
  }

  lemma {:induction false} WithoutReturnsBehind(s: string, k: nat, n: nat)
    requires k <= n <= |s|
    ensures WithoutReturns(s, n) == WithoutReturns(s, k) + WithoutReturns(s[k..], n - k)
    decreases n
  {
    if k < n {
      WithoutReturnsBehind(s, k, n - 1);
      assert ReturnAt(s, n - 1) <==> ReturnAt(s[k..], n - 1 - k);
    }
  }

  lemma {:induction false} SqueezeWithoutReturns(s: string, n: nat)
    requires n <= |s|
    ensures Squeeze(WithoutReturns(s, n)) == Squeeze(s[..n])
  {
    if n > 0 {
      var c := s[n - 1];
      SqueezeWithoutReturns(s, n - 1);
      assert s[..n] == s[..n - 1] + [c];
      SqueezeAppend(s[..n - 1], [c]);
      hide Squeeze;
      if ReturnAt(s, n - 1) {
        OneReturn();
        assert [c] == "\r" && WithoutReturns(s, n) == WithoutReturns(s, n - 1);
      } else {
        SqueezeAppend(WithoutReturns(s, n - 1), [c]);
      }
    } else {
      assert s[..n] == "";
    }
  }

  lemma OneReturn()
    ensures Squeeze("\r") == "" && Squeeze("") == ""
  {
    SqueezeBlank("\r");
  }

  lemma NothingVisibleLost(content: string)
    ensures Squeeze(Strip(UnixLines(content))) == Squeeze(content)
  {
    UnixLinesDropsReturns(content);
    SqueezeWithoutReturns(content, |content|);
    SqueezeStrip(UnixLines(content));
    assert content[..|content|] == content;
  }

  lemma NoTexts()
    ensures Texts([]) == "" && Squeeze("") == ""
  {
  }

  lemma SectionsHoldText(text: string, hs: seq<Heading>, sections: seq<Section>)
    requires Sections(text, hs, sections, |hs|, |text|)
    ensures Squeeze(Texts(sections)) == Squeeze(text)
  {
    assert text[..|text|] == text;
  }

  /** One section after the other, each filed under the stack of titles. */
  method TakeSections(text: string, hs: seq<Heading>) returns (sections: seq<Section>)
    requires Matches(text, hs) && text != "" && !IsSpace(text[0])
    ensures Sections(text, hs, sections, |hs|, |text|)
  {
    hide IsSpace, Strip, Sections, Titles, Stack, FirstN;
    StartsInText(text, hs);
    hide Matches, Start;
    sections := TakePreamble(text, hs);
    var stack: seq<string> := [];
    for i := 0 to |hs|
      invariant Sections(text, hs, sections, i, Start(text, hs, i))
      invariant stack == if i == 0 then [] else Titles(hs, Stack(hs, i - 1))
    {
      StackTitles(hs, i);
      stack := FirstN(stack, hs[i].level - 1) + [hs[i].title];
      sections := TakeSection(text, hs, i, stack, sections);
    }
  }

  /** `split_document_into_sections`. `find` stands for the heading pattern. */
  method SplitSections(content: string, find: string -> seq<Heading>) returns (sections: seq<Section>)
    requires Matches(Strip(UnixLines(content)), find(Strip(UnixLines(content))))
    ensures var text := Strip(UnixLines(content));
            if text == "" then sections == [] else Sections(text, find(text), sections, |find(text)|, |text|)
    ensures Squeeze(Texts(sections)) == Squeeze(content)
  {
    hide IsSpace, Strip, UnixLines, Sections, Texts, Squeeze, Matches;
    var text := Strip(UnixLines(content));
    NothingVisibleLost(content);
    if text == "" {
      NoTexts();
      return [];
    }
    sections := TakeSections(text, find(text));
    SectionsHoldText(text, find(text), sections);
  }

  lemma NoPreamble(text: string, hs: seq<Heading>)
    requires Matches(text, hs) && Start(text, hs, 0) == 0
    ensures Sections(text, hs, [], 0, 0)
  {
  }

  lemma StackTitles(hs: seq<Heading>, i: nat)
    requires i < |hs| && Levels(hs)
    ensures Titles(hs, Stack(hs, i))
            == FirstN(if i == 0 then [] else Titles(hs, Stack(hs, i - 1)), hs[i].level - 1) + [hs[i].title]
  {
  }
}
