/** Splitting an outgoing text into parts of limited length (app/mneme/channels/adapters/feishu.py, `_split_text`). */
module MessageSplit {
  import opened Text

  datatype Parts = Parts(parts: seq<string>) | LimitTooSmall

  const NOTHING := "No displayable content."

  /** `s.rfind(c, 0, end)`. */
  function RFind(s: string, c: char, end: nat): (i: int)
    ensures -1 <= i < |s| && i < end
    ensures i >= 0 ==> s[i] == c
    ensures forall j | i < j < |s| && j < end :: s[j] != c
  {
    if end == 0 then -1
    else if end <= |s| && s[end - 1] == c then end - 1
    else RFind(s, c, end - 1)
  }

  /** Where a text longer than the limit is cut: at the last newline, else at the last space, of the second half of
      the window; else at the limit. */
  function CutAt(s: string, limit: nat): (i: nat)
    requires |s| > limit >= 2
    ensures limit / 2 <= i <= limit
  {
    var newline := RFind(s, '\n', limit + 1);
    if newline >= limit / 2 then newline
    else
      var space := RFind(s, ' ', limit + 1);
      if space >= limit / 2 then space else limit
  }

  /** A cut at a newline if the second half of the window has one, and then after no other; else so for a space; and
      otherwise nothing there would have done. */
  lemma CutPrefersBreaks(s: string, limit: nat)
    requires |s| > limit >= 2
    ensures var i := CutAt(s, limit);
            var at := (c: char) => exists j :: limit / 2 <= j <= limit && s[j] == c;
            && (at('\n') ==> s[i] == '\n' && forall j | i < j <= limit :: s[j] != '\n')
            && (!at('\n') && at(' ') ==> s[i] == ' ' && forall j | i < j <= limit :: s[j] != ' ')
            && (!at('\n') && !at(' ') ==> i == limit)
  {
  }

  /** The parts: pieces cut off one after the other, each stripped. */
  function Pieces(s: string, limit: nat): seq<string>
    requires limit >= 2
    decreases |s|
  {
    if |s| <= limit then if s == "" then [] else [s]
    else [Strip(s[..CutAt(s, limit)])] + Pieces(Strip(s[CutAt(s, limit)..]), limit)
  }

  function Concat(parts: seq<string>): string {
    if parts == [] then "" else Concat(parts[..|parts| - 1]) + parts[|parts| - 1]
  }

  predicate Blank(s: string) {
    forall c | c in s :: IsSpace(c)
  }

  /** The first piece of the text has something to show. */
  predicate StartsVisibly(value: string, limit: nat)
    requires limit >= 2
  {
    |value| <= limit || !Blank(value[..CutAt(value, limit)])
  }

  lemma VisibleStart(value: string, limit: nat)
    requires limit >= 2 && value != "" && !IsSpace(value[0])
    ensures StartsVisibly(value, limit)
  {
    if |value| > limit {
      assert value[..CutAt(value, limit)][0] == value[0];
      assert value[0] in value[..CutAt(value, limit)];
    }
  }

  /** The loop ends; every part is short enough; only whitespace is lost; and every part is non-empty exactly if the
      first piece of the text is not blank, which a text without leading whitespace guarantees. */
  method SplitText(value: string, limit: int) returns (r: Parts)
    ensures r.LimitTooSmall? <==> limit < 100
    ensures r.Parts? ==> r.parts != [] && forall p | p in r.parts :: |p| <= limit
    ensures r.Parts? ==> r.parts == if value == "" then [NOTHING] else Pieces(value, limit)
    ensures r.Parts? && value == "" ==> r.parts == ["No displayable content."]
    ensures r.Parts? && value != "" ==> Squeeze(Concat(r.parts)) == Squeeze(value)
    ensures r.Parts? ==> (NoneEmpty(r.parts) <==> StartsVisibly(value, limit))
  {
    hide IsSpace, Strip, CutAt, Pieces, Squeeze, Concat, StartsVisibly;
    if limit < 100 {
      return LimitTooSmall;
    }
    var parts: seq<string> := [];
    var remaining := value;
    Start(value, limit);
    while |remaining| > limit
      invariant Progress(value, limit, parts, remaining) && parts + Pieces(remaining, limit) == Pieces(value, limit)
      decreases |remaining|
    {
      var cut := CutAt(remaining, limit);
      CutOff(value, limit, parts, remaining);
      PiecesUnfold(remaining, limit);
      assert parts + ([Strip(remaining[..cut])] + Pieces(Strip(remaining[cut..]), limit))
             == parts + [Strip(remaining[..cut])] + Pieces(Strip(remaining[cut..]), limit);
      parts := parts + [Strip(remaining[..cut])];
      remaining := Strip(remaining[cut..]);
    }
    Finish(value, limit, parts, remaining);
    if remaining != "" {
      parts := parts + [remaining];
    }
    if parts == [] {
      return Parts([NOTHING]);
    }
    return Parts(parts);
  }

  lemma PiecesUnfold(s: string, limit: nat)
    requires |s| > limit >= 2
    ensures Pieces(s, limit) == [Strip(s[..CutAt(s, limit)])] + Pieces(Strip(s[CutAt(s, limit)..]), limit)
  {
  }

  lemma Start(value: string, limit: nat)
    requires limit >= 2
    ensures Progress(value, limit, [], value)
  {
  }

  /** What holds when no more than one part is left. */
  lemma Finish(value: string, limit: nat, parts: seq<string>, remaining: string)
    requires |remaining| <= limit && limit >= 2 && Progress(value, limit, parts, remaining)
    requires parts + Pieces(remaining, limit) == Pieces(value, limit)
    ensures var all := if remaining == "" then parts else parts + [remaining];
            && all == Pieces(value, limit) && (all == [] <==> value == "") && (forall p | p in all :: |p| <= limit)
            && Squeeze(Concat(all)) == Squeeze(value)
            && (NoneEmpty(all) <==> StartsVisibly(value, limit))
  {
    hide Strip, IsSpace, CutAt;
    if remaining != "" {
      SqueezeAppend(Concat(parts), remaining);
      NoneEmptyAppend(parts, remaining);
      assert (parts + [remaining])[..|parts|] == parts;
    }
  }

  predicate NoneEmpty(parts: seq<string>) {
    forall p | p in parts :: p != ""
  }

  lemma NoneEmptyAppend(parts: seq<string>, p: string)
    ensures NoneEmpty(parts + [p]) <==> NoneEmpty(parts) && p != ""
  {
    assert p in parts + [p];
    assert forall q | q in parts :: q in parts + [p];
  }

  /** The state of the loop: short parts, nothing visible lost, and what is left is stripped once something is cut
      off. */
  ghost predicate Progress(value: string, limit: nat, parts: seq<string>, remaining: string)
    requires limit >= 2
  {
    && (forall p | p in parts :: |p| <= limit)
    && Squeeze(Concat(parts)) + Squeeze(remaining) == Squeeze(value)
    && (parts == [] ==> remaining == value)
    && (parts != [] ==> value != "" && (remaining != "" ==> !IsSpace(remaining[0])))
    && (parts != [] ==> (NoneEmpty(parts) <==> StartsVisibly(value, limit)))
  }

  lemma CutOff(value: string, limit: nat, parts: seq<string>, remaining: string)
    requires limit >= 2 && Progress(value, limit, parts, remaining) && |remaining| > limit
    ensures var cut := CutAt(remaining, limit);
            && Progress(value, limit, parts + [Strip(remaining[..cut])], Strip(remaining[cut..]))
            && |Strip(remaining[cut..])| < |remaining|
  {
    hide IsSpace, CutAt, Strip;
    var cut := CutAt(remaining, limit);
    var part, rest := Strip(remaining[..cut]), Strip(remaining[cut..]);
    CutLosesNothing(remaining, cut);
    SqueezeAppend(Concat(parts), part);
    assert (parts + [part])[..|parts|] == parts;
    StripBlank(remaining[..cut]);
    if parts != [] {
      VisibleStart(remaining, limit);
    }
    assert part != "" <==> StartsVisibly(remaining, limit);
    NoneEmptyAppend(parts, part);
  }

  lemma CutLosesNothing(s: string, cut: nat)
    requires cut <= |s|
    ensures Squeeze(Strip(s[..cut])) + Squeeze(Strip(s[cut..])) == Squeeze(s)
    ensures |Strip(s[..cut])| <= cut && |Strip(s[cut..])| <= |s| - cut
  {
    assert s == s[..cut] + s[cut..];
    SqueezeAppend(s[..cut], s[cut..]);
    SqueezeStrip(s[..cut]);
    SqueezeStrip(s[cut..]);
  }

  // ----- rendering an answer

  const FALLBACK := "The answer was completed " + "without displayable text."

  /** `_plain_text`: `clean` stands for the removal of Markdown. */
  function PlainText(clean: string -> string, content: string): string {
    var text := Strip(clean(content));
    if text == "" then FALLBACK else text
  }

  /** The text of an answer with its references, "" if it cites nothing. */
  function AnswerText(clean: string -> string, content: string, references: string): string {
    var text := PlainText(clean, content);
    if references == "" then text else text + "\n\nReferences\n" + references
  }

  lemma PlainStartsVisibly(clean: string -> string, content: string)
    ensures var text := PlainText(clean, content); text != "" && !IsSpace(text[0])
  {
    FallbackVisible();
    hide Strip;
  }

  lemma FallbackVisible()
    ensures |FALLBACK| > 0 && !IsSpace(FALLBACK[0])
  {
    assert FALLBACK[0] == 'T';
  }

  /** An answer always begins with a visible character. */
  lemma AnswerStartsVisibly(clean: string -> string, content: string, references: string)
    ensures var text := AnswerText(clean, content, references); text != "" && !IsSpace(text[0])
  {
    hide PlainText, IsSpace;
    PlainStartsVisibly(clean, content);
    var text := PlainText(clean, content);
    assert (text + "\n\nReferences\n" + references)[0] == (text + "\n\nReferences\n")[0] == text[0];
  }

  /** What is visible of an answer: its text, or the fallback if it has none, and the references behind their title. */
  lemma AnswerShows(clean: string -> string, content: string, references: string)
    ensures Squeeze(AnswerText(clean, content, references))
            == Squeeze(if Blank(clean(content)) then FALLBACK else clean(content))
               + if references == "" then "" else Squeeze("References") + Squeeze(references)
  {
    hide Squeeze, Strip, IsSpace;
    StripBlank(clean(content));
    SqueezeStrip(clean(content));
    if references != "" {
      ReferencesShow(PlainText(clean, content), references);
    }
  }

  lemma ReferencesShow(text: string, references: string)
    ensures Squeeze(text + "\n\nReferences\n" + references)
            == Squeeze(text) + Squeeze("References") + Squeeze(references)
  {
    hide Squeeze, IsSpace;
    var title := "References";
    assert text + "\n\nReferences\n" + references == text + "\n\n" + title + "\n" + references;
    SqueezeAppend(text, "\n\n");
    SqueezeAppend(text + "\n\n", title);
    SqueezeAppend(text + "\n\n" + title, "\n");
    SqueezeAppend(text + "\n\n" + title + "\n", references);
    LineBreaksVanish();
  }

  lemma LineBreaksVanish()
    ensures Squeeze("\n\n") == Squeeze("\n") == ""
  {
    SqueezeBlank("\n\n");
    SqueezeBlank("\n");
  }

  /** `render_answer`: for every answer each part has some text and respects the limit, and nothing visible is lost. */
  method RenderAnswer(clean: string -> string, content: string, references: string, limit: int) returns (r: Parts)
    ensures r.LimitTooSmall? <==> limit < 100
    ensures r.Parts? ==> r.parts == Pieces(AnswerText(clean, content, references), limit)
    ensures r.Parts? ==> r.parts != [] && forall p | p in r.parts :: 1 <= |p| <= limit
    ensures r.Parts? ==> Squeeze(Concat(r.parts)) == Squeeze(AnswerText(clean, content, references))
    ensures r.Parts? ==>
              Squeeze(Concat(r.parts))
              == Squeeze(if Blank(clean(content)) then "The answer was completed " + "without displayable text."
                         else clean(content))
                 + if references == "" then "" else Squeeze("References") + Squeeze(references)
  {
    AnswerShows(clean, content, references);
    hide IsSpace, Strip, CutAt, Pieces, Squeeze, Concat, StartsVisibly;
    var text := AnswerText(clean, content, references);
    AnswerStartsVisibly(clean, content, references);
    r := SplitText(text, limit);
    if limit >= 100 {
      VisibleStart(text, limit);
    }
  }
}
