/** One prepared conversation context and runs of turns
    (app/mneme/domains/chat/context.py, `prepare_conversation_context`;
    app/mneme/domains/chat/service.py, the part of `ask_in_chat_session` that feeds it). */
module ConversationContext {
  import opened Wrappers
  import opened Sorting
  import opened Text
  import opened ContextGovernance
  import opened BoundedSummary
  import opened HistoryContext

  // ----- what is eligible and what is not yet summarised

  function Eligible(currentId: string): Message -> bool {
    (m: Message) => m.id != currentId && (m.role == "user" || m.role == "assistant") && Strip(m.content) != ""
  }

  /** The index of the first message with this id, or the length if there is none. */
  function IndexOf(ms: seq<Message>, id: string): (i: nat)
    ensures i <= |ms|
    ensures i < |ms| ==> ms[i].id == id
    ensures forall j | 0 <= j < i :: ms[j].id != id
  {
    if ms == [] || ms[0].id == id then 0 else 1 + IndexOf(ms[1..], id)
  }

  /** How many eligible messages the watermark covers; an unknown watermark covers none. */
  function Covered(eligible: seq<Message>, watermark: Option<string>): (n: nat)
    ensures n <= |eligible|
  {
    match watermark
    case None => 0
    case Some(id) => if IndexOf(eligible, id) < |eligible| then IndexOf(eligible, id) + 1 else 0
  }

  // ----- joining the two parts

  function TokenBudget(maxContextTokens: Option<int>): (r: nat)
    ensures r >= 256
  {
    match maxContextTokens
    case None => 256
    case Some(n) => if n > 256 then n else 256
  }

  function Joined(critical: string, summary: string): string {
    JoinLines(Filter(NotEmpty, [critical, summary]))
  }

  lemma JoinedText(critical: string, summary: string)
    ensures Joined(critical, summary) == critical + (if critical != "" && summary != "" then "\n" else "") + summary
  {
    assert [critical, summary][1..] == [summary] && [summary][1..] == [];
    assert Filter(NotEmpty, [summary]) == if summary == "" then [] else [summary];
    assert [critical] + [summary] == [critical, summary];
    assert JoinLines([critical]) == critical && JoinLines([summary]) == summary;
    assert JoinLines([critical, summary]) == critical + "\n" + summary;
  }

  lemma JoinedSize(critical: string, summary: string)
    ensures |Joined(critical, summary)|
            == |critical| + |summary| + if critical != "" && summary != "" then 1 else 0
  {
    hide Joined;
    JoinedText(critical, summary);
  }

  lemma SumOfBounds(a: nat, b: nat, x: nat, y: nat, cpt: real)
    requires a as real <= x as real * cpt && b as real <= y as real * cpt
    ensures (a + b) as real <= (x + y) as real * cpt
  {
    assert (x + y) as real * cpt == x as real * cpt + y as real * cpt;
  }

  /** Joining costs at most one token more than the parts, and only for the newline between two non-empty parts. */
  lemma JoinedCost(a: nat, b: nat, cpt: real)
    requires cpt >= 1.0
    ensures Tokens(a + b, cpt) <= Tokens(a, cpt) + Tokens(b, cpt)
    ensures Tokens(a + 1 + b, cpt) <= Tokens(a, cpt) + Tokens(b, cpt) + 1
  {
    hide Tokens;
    var x, y := Tokens(a, cpt), Tokens(b, cpt);
    TokensFit(a, cpt, x);
    TokensFit(b, cpt, y);
    SumOfBounds(a, b, x, y, cpt);
    TokensFit(a + b, cpt, x + y);
    SumOfBounds(a + b, 1, x + y, 1, cpt);
    TokensFit(a + 1 + b, cpt, x + y + 1);
  }

  function ContextTokens(p: Prepared, cpt: real): nat
    requires cpt >= 1.0
  {
    Tokens(|p.summary|, cpt) + ViewTokens(p.views, cpt)
  }

  /** What one prepared context promises. */
  ghost predicate Prepares(p: Prepared, eligible: seq<Message>, watermark: Option<string>, budget: nat, cpt: real)
    requires cpt >= 1.0
  {
    var rest := eligible[Covered(eligible, watermark)..];
    && p.compacted <= |rest|
    && p.views == Mapped(ViewOf, rest[p.compacted..]) && |p.views| <= 24
    && p.watermark == (if p.compacted > 0 then Some(rest[p.compacted - 1].id) else watermark)
    && |p.summary| <= MAX_CONTEXT_CHARS && |p.persisted| <= MAX_CONTEXT_CHARS
    && ContextTokens(p, cpt) <= budget + 1
  }

  // ----- the call as a function of its inputs

  /** The settings a call is made with. */
  datatype Settings = Settings(maxMessages: int, summaryMaxChars: int, maxContextTokens: Option<int>,
                               charsPerToken: real, soft: int)

  function Budget(c: Settings): (r: nat)
    ensures r >= 256
  {
    TokenBudget(c.maxContextTokens)
  }

  function Cpt(c: Settings): (r: real)
    ensures 1.0 <= r <= 8.0
  {
    Clamp(c.charsPerToken)
  }

  /** The eligible messages after the watermark. */
  function Unsummarised(messages: seq<Message>, currentId: string, watermark: Option<string>): seq<Message> {
    var eligible := Filter(Eligible(currentId), messages);
    eligible[Covered(eligible, watermark)..]
  }

  /** The critical text; `None` stands for the assembly raising. */
  function CriticalOf(sanitize: string -> string, structured: Option<seq<Source>>, c: Settings): string {
    match structured
    case None => ""
    case Some(sources) => JoinLines(Run(sanitize, Start(CharBudget(Budget(c), Cpt(c))), Ordering(sources)).lines)
  }

  /** What is left for the old summary beside a critical text of this length. */
  function Room(summaryMaxChars: int, critical: nat): int {
    MinInt(summaryMaxChars, Monus(MAX_CONTEXT_CHARS, critical + if critical > 0 then 1 else 0))
  }

  /** The history gets what a critical text of this length leaves of both budgets. */
  function HistoryBeside(critical: nat, rest: seq<Message>, existing: string, watermark: Option<string>,
                         c: Settings): Prepared {
    HistoryOf(rest, existing, watermark, c.maxMessages, Room(c.summaryMaxChars, critical),
              Monus(Budget(c), Tokens(critical, Cpt(c))), Cpt(c), c.soft)
  }

  /** The limit of the old summary in that call. */
  function LimitBeside(critical: nat, c: Settings): nat {
    SummaryLimit(Room(c.summaryMaxChars, critical), Monus(Budget(c), Tokens(critical, Cpt(c))), Cpt(c))
  }

  /** What the history alone, or with a critical text, is prepared as. */
  function Conversation(critical: string, h: Prepared, c: Settings): Prepared {
    var summary := Joined(critical, h.summary);
    h.(summary := summary, afterTokens := Tokens(|summary|, Cpt(c)) + ViewTokens(h.views, Cpt(c)))
  }

  /** Both parts are there, together use up the budget to the last token, and leave no room for the newline in their
      last tokens. */
  predicate FillsBudget(critical: string, h: Prepared, c: Settings) {
    var cpt := Cpt(c);
    && critical != "" && h.summary != ""
    && Tokens(|critical|, cpt) + Tokens(|h.summary|, cpt) + ViewTokens(h.views, cpt) == Budget(c)
    && (|critical| + 1 + |h.summary|) as real > (Tokens(|critical|, cpt) + Tokens(|h.summary|, cpt)) as real * cpt
  }

  /** `prepare_conversation_context`. `structured` is what the messages contribute as critical sources. When their
      assembly raises, the history alone is returned as prepared, with its own estimate. */
  method PrepareConversation(sanitize: string -> string, messages: seq<Message>, currentId: string, existing: string,
                             watermark: Option<string>, c: Settings, structured: Option<seq<Source>>)
    returns (p: Prepared)
    ensures Prepares(p, Filter(Eligible(currentId), messages), watermark, Budget(c), Cpt(c))
    ensures var critical := CriticalOf(sanitize, structured, c);
            var h := HistoryBeside(|critical|, Unsummarised(messages, currentId, watermark), existing, watermark, c);
            && p == (if structured.None? then h else Conversation(critical, h, c))
            && p.persisted == h.persisted
            && p.summary == critical + (if critical != "" && p.persisted != "" then "\n" else "") + p.persisted
            && (ContextTokens(p, Cpt(c)) > Budget(c) <==> FillsBudget(critical, h, c))
  {
    hide Filter, Tokens, ViewTokens, Joined, Budget, Cpt, Covered, Prepares, HistoryBeside, FillsBudget, CriticalOf;
    hide ContextTokens;
    var eligible := Filter(Eligible(currentId), messages);
    var rest := eligible[Covered(eligible, watermark)..];
    assert rest == Unsummarised(messages, currentId, watermark);
    ghost var critical := CriticalOf(sanitize, structured, c);
    JoinedText(critical, HistoryBeside(|critical|, rest, existing, watermark, c).summary);
    SummaryIsPersisted(|critical|, rest, existing, watermark, c);
    CriticalFits(sanitize, structured, c);
    if structured.None? {
      p := HistoryAlone(sanitize, rest, existing, watermark, c);
      HistoryAloneFits(sanitize, eligible, existing, watermark, c);
    } else {
      p := WithCritical(sanitize, structured.value, rest, existing, watermark, c);
      WithCriticalFits(sanitize, structured.value, eligible, existing, watermark, c);
    }
  }

  lemma SummaryIsPersisted(critical: nat, rest: seq<Message>, existing: string, watermark: Option<string>, c: Settings)
    ensures var h := HistoryBeside(critical, rest, existing, watermark, c); h.summary == h.persisted
  {
    hide Tokens, Budget, Cpt, Persisted, SummaryLimit, Stop, Mapped;
  }

  method HistoryAlone(ghost sanitize: string -> string, rest: seq<Message>, existing: string, watermark: Option<string>,
                      c: Settings)
    returns (p: Prepared)
    ensures p == HistoryBeside(|CriticalOf(sanitize, None, c)|, rest, existing, watermark, c)
  {
    hide HistoryOf, SummaryLimit, Compacts, Tokens, Budget, Cpt;
    p := PrepareHistory(rest, existing, watermark, c.maxMessages, c.summaryMaxChars, Budget(c), Cpt(c), c.soft);
    NoCritical(rest, existing, watermark, c);
  }

  /** The critical text is assembled first; the history gets what is left of both budgets. */
  method WithCritical(sanitize: string -> string, sources: seq<Source>, rest: seq<Message>, existing: string,
                      watermark: Option<string>, c: Settings)
    returns (p: Prepared)
    ensures var critical := CriticalOf(sanitize, Some(sources), c);
            p == Conversation(critical, HistoryBeside(|critical|, rest, existing, watermark, c), c)
  {
    hide HistoryOf, Tokens, ViewTokens, Compacts, Joined, Run, Ordering, Budget, CharBudget, Room;
    var text, decisions := AssembleCriticalContext(sanitize, sources, Budget(c), Cpt(c));
    var left := Monus(Budget(c), Tokens(|text|, Cpt(c)));
    var h := PrepareHistory(rest, existing, watermark, c.maxMessages, Room(c.summaryMaxChars, |text|), left, Cpt(c),
                            c.soft);
    var summary := Joined(text, h.summary);
    p := h.(summary := summary, afterTokens := Tokens(|summary|, Cpt(c)) + ViewTokens(h.views, Cpt(c)));
  }

  /** The critical text stays within both budgets; without sources there is none. */
  lemma CriticalFits(sanitize: string -> string, structured: Option<seq<Source>>, c: Settings)
    ensures var text := CriticalOf(sanitize, structured, c);
            && |text| <= MAX_CONTEXT_CHARS && Tokens(|text|, Cpt(c)) <= Budget(c)
            && (structured.None? || structured == Some([]) ==> text == "")
  {
    hide Tokens, Budget, Cpt, CharBudget;
    if structured.Some? {
      CriticalWithinBudget(sanitize, Ordering(structured.value), Budget(c), Cpt(c));
    } else {
      NoTokens(Cpt(c));
    }
  }

  lemma NoTokens(cpt: real)
    requires cpt >= 1.0
    ensures Tokens(0, cpt) == 0
  {
  }

  /** Without a critical text the history has both budgets to itself. */
  lemma NoCritical(rest: seq<Message>, existing: string, watermark: Option<string>, c: Settings)
    ensures HistoryBeside(0, rest, existing, watermark, c)
            == HistoryOf(rest, existing, watermark, c.maxMessages, c.summaryMaxChars, Budget(c), Cpt(c), c.soft)
  {
    hide Tokens, Stop, Result;
    NoTokens(Cpt(c));
    assert SummaryLimit(Room(c.summaryMaxChars, 0), Budget(c), Cpt(c))
           == SummaryLimit(c.summaryMaxChars, Budget(c), Cpt(c));
  }

  lemma HistoryBesideFits(critical: nat, rest: seq<Message>, existing: string, watermark: Option<string>, c: Settings)
    ensures var h := HistoryBeside(critical, rest, existing, watermark, c);
            Fits(h, rest, watermark, LimitBeside(critical, c), Monus(Budget(c), Tokens(critical, Cpt(c))), Cpt(c))
  {
    hide HistoryOf, Compacts, Fits, Tokens, SummaryLimit, Room, Budget, Cpt;
    var left := Monus(Budget(c), Tokens(critical, Cpt(c)));
    var room := Room(c.summaryMaxChars, critical);
    var h := HistoryBeside(critical, rest, existing, watermark, c);
    var limit := LimitBeside(critical, c);
    HistoryCompacts(h, rest, existing, watermark, c.maxMessages, room, limit, left, Cpt(c), c.soft);
    CompactsFits(h, rest, existing, watermark, c.maxMessages, limit, left, Cpt(c), c.soft);
  }

  lemma HistoryAloneFits(sanitize: string -> string, eligible: seq<Message>, existing: string,
                         watermark: Option<string>,
                         c: Settings)
    ensures var critical := CriticalOf(sanitize, None, c);
            var h := HistoryBeside(|critical|, eligible[Covered(eligible, watermark)..], existing, watermark, c);
            && Prepares(h, eligible, watermark, Budget(c), Cpt(c))
            && ContextTokens(h, Cpt(c)) <= Budget(c) && !FillsBudget(critical, h, c)
  {
    hide HistoryBeside, Tokens, ViewTokens, Budget, Cpt, LimitBeside, Mapped, Covered;
    HistoryBesideFits(0, eligible[Covered(eligible, watermark)..], existing, watermark, c);
    LimitFits(0, c);
    NoTokens(Cpt(c));
  }

  lemma WithCriticalFits(sanitize: string -> string, sources: seq<Source>, eligible: seq<Message>, existing: string,
                         watermark: Option<string>, c: Settings)
    ensures var critical := CriticalOf(sanitize, Some(sources), c);
            var h := HistoryBeside(|critical|, eligible[Covered(eligible, watermark)..], existing, watermark, c);
            var p := Conversation(critical, h, c);
            && Prepares(p, eligible, watermark, Budget(c), Cpt(c))
            && (ContextTokens(p, Cpt(c)) > Budget(c) <==> FillsBudget(critical, h, c))
  {
    hide HistoryBeside, Tokens, ViewTokens, Budget, Cpt, LimitBeside, CriticalOf, Covered, Prepares, Conversation;
    hide FillsBudget, ContextTokens, Fits;
    var critical := CriticalOf(sanitize, Some(sources), c);
    CriticalFits(sanitize, Some(sources), c);
    var rest := eligible[Covered(eligible, watermark)..];
    HistoryBesideFits(|critical|, rest, existing, watermark, c);
    LimitFits(|critical|, c);
    JoinedFits(critical, HistoryBeside(|critical|, rest, existing, watermark, c), eligible, watermark, c);
  }

  lemma LimitFits(critical: nat, c: Settings)
    ensures LimitBeside(critical, c) <= Monus(MAX_CONTEXT_CHARS, critical + if critical > 0 then 1 else 0)
  {
    hide Tokens, Budget, Cpt;
  }

  /** Two parts that fit their budgets are joined within both, but for the token of the newline. */
  lemma JoinedFits(critical: string, h: Prepared, eligible: seq<Message>, watermark: Option<string>, c: Settings)
    requires |critical| <= MAX_CONTEXT_CHARS && Tokens(|critical|, Cpt(c)) <= Budget(c)
    requires Fits(h, eligible[Covered(eligible, watermark)..], watermark, LimitBeside(|critical|, c),
                  Monus(Budget(c), Tokens(|critical|, Cpt(c))), Cpt(c))
    requires LimitBeside(|critical|, c) <= Monus(MAX_CONTEXT_CHARS, |critical| + if |critical| > 0 then 1 else 0)
    ensures var p := Conversation(critical, h, c);
            && Prepares(p, eligible, watermark, Budget(c), Cpt(c))
            && (ContextTokens(p, Cpt(c)) > Budget(c) <==> FillsBudget(critical, h, c))
  {
    hide Tokens, Joined, Mapped, ViewTokens, Covered, Budget, Cpt, LimitBeside, FillsBudget;
    JoinedSize(critical, h.summary);
    JoinedCost(|critical|, |h.summary|, Cpt(c));
    ExceedsExactly(critical, h, c);
  }

  /** Beside a critical text the summary may have `n` characters exactly if that is within the setting, if both with the
      newline between them are within 20,000, and within a third of what the remaining tokens stand for. */
  lemma LimitMeans(critical: nat, c: Settings, n: nat)
    ensures n <= LimitBeside(critical, c)
            <==> n == 0 || (n <= c.summaryMaxChars && n + critical + (if critical > 0 then 1 else 0) <= 20000
                            && Tokens(critical, Cpt(c)) <= Budget(c)
                            && 3.0 * n as real <= (Budget(c) - Tokens(critical, Cpt(c))) as real * Cpt(c))
  {
    hide Tokens, SummaryLimit, Budget, Cpt;
    var left := Monus(Budget(c), Tokens(critical, Cpt(c)));
    SummaryLimitMeans(Room(c.summaryMaxChars, critical), left, Cpt(c), n);
    if left == 0 {
      NothingLeft(n, Cpt(c));
    }
  }

  lemma NothingLeft(n: nat, cpt: real)
    ensures n > 0 ==> 3.0 * n as real > 0 as real * cpt
  {
  }

  /** The budget is the configured one, or 256 tokens if that is less or missing. */
  lemma BudgetMeans(c: Settings, n: nat)
    ensures n <= Budget(c) <==> n <= 256 || (c.maxContextTokens.Some? && n <= c.maxContextTokens.value)
  {
  }

  // ----- the token budget is exceeded by at most the joining newline, and exactly when

  /** If the parts are within the budget, the joined context exceeds it exactly when they fill it to the last token
      and leave no room for the newline. */
  lemma ExceedsExactly(critical: string, h: Prepared, c: Settings)
    requires Tokens(|critical|, Cpt(c)) + Tokens(|h.summary|, Cpt(c)) + ViewTokens(h.views, Cpt(c)) <= Budget(c)
    ensures ContextTokens(Conversation(critical, h, c), Cpt(c)) > Budget(c) <==> FillsBudget(critical, h, c)
  {
    hide Tokens, Joined, ViewTokens, Budget, Cpt;
    var cpt := Cpt(c);
    JoinedSize(critical, h.summary);
    JoinedCost(|critical|, |h.summary|, cpt);
    NoTokens(cpt);
    TokensFit(|critical| + 1 + |h.summary|, cpt, Tokens(|critical|, cpt) + Tokens(|h.summary|, cpt));
  }

  /** What a caller can test to rule the excess out: there are no critical sources, no old summary is kept, or there is
      none and everything unsummarised fits verbatim. At one character per token the newline never has room. */
  lemma GuardsAgainstExcess(sanitize: string -> string, structured: Option<seq<Source>>, rest: seq<Message>,
                            existing: string,
                            watermark: Option<string>, c: Settings)
    ensures var critical := CriticalOf(sanitize, structured, c);
            var h := HistoryBeside(|critical|, rest, existing, watermark, c);
            var left := Monus(Budget(c), Tokens(|critical|, Cpt(c)));
            && (structured.None? || structured == Some([]) ==> !FillsBudget(critical, h, c))
            && (c.summaryMaxChars <= 0 ==> !FillsBudget(critical, h, c))
            && (Strip(existing) == "" && TurnCut(|rest|, c.maxMessages) == 0
                && PayloadTokens(rest, Cpt(c), c.soft) <= left
                ==> !FillsBudget(critical, h, c))
            && (Cpt(c) == 1.0 ==>
                  (FillsBudget(critical, h, c)
                   <==> critical != "" && h.summary != ""
                        && |critical| + |h.summary| + ViewTokens(h.views, 1.0) == Budget(c)))
  {
    hide CriticalOf, Budget, ViewTokens, Cpt, Strip, PayloadTokens, HistoryBeside, LimitBeside, Fits, Tokens;
    var critical := CriticalOf(sanitize, structured, c);
    var h := HistoryBeside(|critical|, rest, existing, watermark, c);
    CriticalFits(sanitize, structured, c);
    NoSummaryKept(|critical|, rest, existing, watermark, c);
    NothingToSummarise(|critical|, rest, existing, watermark, c);
    if Cpt(c) == 1.0 {
      OneCharPerToken(|critical|);
      OneCharPerToken(|h.summary|);
    }
  }

  lemma OneCharPerToken(n: nat)
    ensures Tokens(n, 1.0) == n
  {
  }

  lemma NoSummaryKept(critical: nat, rest: seq<Message>, existing: string, watermark: Option<string>, c: Settings)
    ensures c.summaryMaxChars <= 0 ==> HistoryBeside(critical, rest, existing, watermark, c).summary == ""
  {
    hide HistoryBeside, Tokens, Budget, Cpt, ViewTokens, Mapped;
    HistoryBesideFits(critical, rest, existing, watermark, c);
    assert c.summaryMaxChars <= 0 ==> LimitBeside(critical, c) == 0;
  }

  lemma NothingToSummarise(critical: nat, rest: seq<Message>, existing: string, watermark: Option<string>, c: Settings)
    ensures Strip(existing) == "" && TurnCut(|rest|, c.maxMessages) == 0
            && PayloadTokens(rest, Cpt(c), c.soft) <= Monus(Budget(c), Tokens(critical, Cpt(c)))
            ==> HistoryBeside(critical, rest, existing, watermark, c).summary == ""
  {
    hide Budget, Cpt, Strip, PayloadTokens, Tokens, ContentTokens, SummaryLimit, Mapped, Room;
    var left := Monus(Budget(c), Tokens(critical, Cpt(c)));
    var limit := LimitBeside(critical, c);
    BlankSummary(existing, limit);
    if Strip(existing) == "" && TurnCut(|rest|, c.maxMessages) == 0 && PayloadTokens(rest, Cpt(c), c.soft) <= left {
      NoTokens(Cpt(c));
      assert rest[0..] == rest && rest[..0] == [];
      ContentIsLess(rest, Cpt(c), c.soft);
      assert Mapped(SummaryEntry, []) == [];
      assert Persisted(existing, [], limit) == "";
      assert FirstStop(existing, rest, 0, limit, left, Cpt(c), c.soft) == 0;
      assert SecondStop(existing, rest, 0, limit, left, Cpt(c)) == 0;
    }
  }

  lemma BlankSummary(existing: string, limit: nat)
    ensures Strip(existing) == "" ==> Summary(existing, [], limit) == "" && Summary("", [], limit) == ""
  {
    hide Strip, SplitLines;
    StripNothing();
    if Strip(existing) == "" {
      assert [Strip(existing)] + [] == [""];
      assert [""][1..] == [];
      assert Parts(existing, []) == [] == Parts("", []);
    }
  }

  lemma StripNothing()
    ensures Strip("") == ""
  {
  }

  lemma {:induction false} ContentIsLess(ms: seq<Message>, cpt: real, soft: int)
    requires cpt >= 1.0
    ensures ContentTokens(ms, cpt) <= PayloadTokens(ms, cpt, soft)
  {
    if ms != [] {
      TokensMonotone(|ms[0].content|, |ms[0].content| + PayloadChars(ms[0], soft), cpt);
      ContentIsLess(ms[1..], cpt, soft);
    }
  }

  // ----- a call that exceeds its budget

  /** One message of 241 characters, a one-character old summary and one approval that sanitising leaves alone, at one
      character per token and a budget of 256 tokens: the context costs 257. */
  lemma BudgetExceeded(sanitize: string -> string, m: Message, letter: char, sources: seq<Source>, c: Settings)
    requires m == Message("m", "user", seq(241, _ => 'y'), 0, 0, 0, 0) && !IsSpace(letter)
    requires sources == [Source("a", Approval, "b")] && sanitize("b") == "b"
    requires c == Settings(1, MAX_CONTEXT_CHARS, Some(256), 1.0, 600)
    ensures var critical := CriticalOf(sanitize, Some(sources), c);
            var h := HistoryBeside(|critical|, Unsummarised([m], "q", None), [letter], None, c);
            ContextTokens(Conversation(critical, h, c), Cpt(c)) == Budget(c) + 1 == 257
  {
    hide HistoryBeside, Strip, IsSpace, CriticalOf, Unsummarised, Conversation, ContextTokens, Budget, Cpt;
    ExampleSettings(c);
    ApprovalLine(sanitize, sources, c);
    FillerEligible(m);
    var critical := CriticalOf(sanitize, Some(sources), c);
    var h := HistoryBeside(|critical|, [m], [letter], None, c);
    FillerHistory(m, [letter], |critical|, c, h);
    JoinedWithLetter(critical, h, c);
  }

  lemma ExampleSettings(c: Settings)
    requires c == Settings(1, MAX_CONTEXT_CHARS, Some(256), 1.0, 600)
    ensures Budget(c) == 256 && Cpt(c) == 1.0
  {
  }

  lemma JoinedWithLetter(critical: string, h: Prepared, c: Settings)
    requires |critical| == 14 && |h.summary| == 1 && Cpt(c) == 1.0 && ViewTokens(h.views, Cpt(c)) == 241
    ensures ContextTokens(Conversation(critical, h, c), Cpt(c)) == 257
  {
    hide Joined, Tokens, ViewTokens, Cpt;
    JoinedSize(critical, h.summary);
    OneCharPerToken(|Joined(critical, h.summary)|);
  }

  lemma FillerEligible(m: Message)
    requires m == Message("m", "user", seq(241, _ => 'y'), 0, 0, 0, 0)
    ensures Strip(m.content) == m.content && Unsummarised([m], "q", None) == [m]
  {
    hide Strip;
    assert !IsSpace('y');
    StripFixed(m.content);
    assert [m][1..] == [] && [m][0..] == [m];
  }

  lemma FillerHistory(m: Message, existing: string, critical: nat, c: Settings, h: Prepared)
    requires |m.content| == 241 && Strip(m.content) == m.content && m.toolCalls == m.sources == 0
    requires |existing| == 1 && !IsSpace(existing[0])
    requires Budget(c) == 256 && Cpt(c) == 1.0 && c.maxMessages == 1 && c.summaryMaxChars == MAX_CONTEXT_CHARS
    requires critical == 14 && h == HistoryBeside(critical, [m], existing, None, c)
    ensures h.summary == existing && ViewTokens(h.views, Cpt(c)) == 241
  {
    hide HistoryOf, Strip, IsSpace, Summary, Compacts, SummaryLimit, ViewTokens, Budget, Cpt, Tokens, Room;
    OneCharPerToken(critical);
    var limit, room := LimitBeside(critical, c), Room(c.summaryMaxChars, critical);
    LimitOfExample(critical, c);
    HistoryCompacts(h, [m], existing, None, 1, room, limit, 242, Cpt(c), c.soft);
    LetterSummary(existing, limit);
    OneMessage(m, existing, h, limit, 242, Cpt(c), c.soft);
  }

  lemma LimitOfExample(critical: nat, c: Settings)
    requires critical == 14 && Budget(c) == 256 && Cpt(c) == 1.0 && c.summaryMaxChars == MAX_CONTEXT_CHARS
    ensures LimitBeside(critical, c) >= 1
  {
    OneCharPerToken(critical);
    hide Tokens, Budget, Cpt;
    assert 242.0 * 1.0 / 3.0 >= 1.0;
  }

  /** The approval's line is the whole critical text. */
  lemma ApprovalLine(sanitize: string -> string, sources: seq<Source>, c: Settings)
    requires sources == [Source("a", Approval, "b")] && sanitize("b") == "b" && Budget(c) == 256 && Cpt(c) == 1.0
    ensures CriticalOf(sanitize, Some(sources), c) == "[approval:a] b" && |CriticalOf(sanitize, Some(sources), c)| == 14
  {
    hide Budget, Cpt, Run, Step;
    var s, chars := sources[0], CharBudget(Budget(c), Cpt(c));
    assert chars == 256;
    ApprovalStep(sanitize, s, chars);
    OneStep(sanitize, Start(chars), sources);
    OrderingOfOne(sources);
  }

  lemma OrderingOfOne(sources: seq<Source>)
    requires |sources| == 1
    ensures Ordering(sources) == sources
  {
    assert sources[1..] == [];
  }

  lemma OneStep(sanitize: string -> string, a: Assembly, sources: seq<Source>)
    requires |sources| == 1
    ensures Run(sanitize, a, sources) == Step(sanitize, a, sources[0])
  {
    hide Step;
    assert sources[1..] == [];
  }

  lemma ApprovalStep(sanitize: string -> string, s: Source, chars: nat)
    requires s == Source("a", Approval, "b") && sanitize("b") == "b" && chars == 256
    ensures Step(sanitize, Start(chars), s).lines == ["[approval:a] b"]
  {
    assert Prefix(s) == "[approval:a] ";
    assert BoundedContent(sanitize, s) == "b";
    assert Candidate(sanitize, s) == "[approval:a] b";
  }

  lemma LetterSummary(s: string, limit: nat)
    requires |s| == 1 && !IsSpace(s[0]) && limit >= 1
    ensures Summary(s, [], limit) == s
  {
    StripFixed(s);
    hide Strip;
    assert [s] + [] == [s] && [s][1..] == [];
    assert Parts(s, []) == [s];
  }

  /** A message that fits beside a summary that stays as it is: nothing is compacted. */
  lemma OneMessage(m: Message, existing: string, h: Prepared, limit: nat, budget: nat, cpt: real, soft: int)
    requires |existing| == 1 && Summary(existing, [], limit) == existing && cpt == 1.0
    requires 1 + |m.content| == budget && |m.content| <= MAX_MESSAGE_CHARS
    requires Strip(m.content) == m.content && m.toolCalls == m.sources == 0
    requires Compacts(h, [m], existing, None, 1, limit, budget, cpt, soft)
    ensures h.summary == existing && ViewTokens(h.views, cpt) == |m.content|
  {
    hide Strip, Summary, Compacts, Tokens, ViewTokens, ContentTokens, PayloadTokens;
    OneCharPerToken(|existing|);
    OneCosts(m, cpt, soft);
    NoEntries();
    NothingCompacted(h, [m], existing, 1, limit, budget, cpt, soft);
  }

  lemma NoEntries()
    ensures Mapped(SummaryEntry, []) == []
  {
  }

  lemma OneCosts(m: Message, cpt: real, soft: int)
    requires cpt == 1.0 && |m.content| <= MAX_MESSAGE_CHARS && Strip(m.content) == m.content
    requires m.toolCalls == m.sources == 0
    ensures PayloadTokens([m], cpt, soft) == |m.content| == ContentTokens([m], cpt)
    ensures ViewTokens(Mapped(ViewOf, [m]), cpt) == |m.content|
  {
    hide Strip, Tokens;
    OneCharPerToken(|m.content|);
    var views := Mapped(ViewOf, [m]);
    assert [m][1..] == [] && views == [ViewOf(m)] && views[1..] == [];
  }

  lemma NothingCompacted(h: Prepared, ms: seq<Message>, existing: string, maxMessages: int, limit: nat, budget: nat,
                         cpt: real, soft: int)
    requires cpt >= 1.0 && Compacts(h, ms, existing, None, maxMessages, limit, budget, cpt, soft)
    requires TurnCut(|ms|, maxMessages) == 0
    requires FirstPassCost(existing, ms, limit, cpt, soft) <= budget
    requires SecondPassCost(existing, [], ms, limit, cpt) <= budget
    ensures h.views == Mapped(ViewOf, ms) && h.summary == Persisted(existing, [], limit)
  {
    hide FirstPassCost, SecondPassCost, Mapped, Persisted, TurnCut, Tokens, ContentTokens;
    assert ms[0..] == ms && ms[..0] == [];
    var start: nat :| Stops(ms, existing, TurnCut(|ms|, maxMessages), start, h.compacted, limit, budget, cpt, soft);
    assert start == 0;
    assert h.compacted == 0;
  }

  // ----- turns

  /** The part of a chat session that turns read and write. */
  datatype Session = Session(messages: seq<Message>, summary: string, watermark: Option<string>)

  predicate AnyMessage(m: Message) {
    (m.role == "user" || m.role == "assistant") && Strip(m.content) != ""
  }

  /** All messages of the session that can appear in a context, in order. */
  function History(s: Session): seq<Message> {
    Filter(AnyMessage, s.messages)
  }

  /** How many of them the summary covers. */
  function Progress(s: Session): (n: nat)
    ensures n <= |History(s)|
  {
    Covered(History(s), s.watermark)
  }

  ghost predicate FreshIds(messages: seq<Message>) {
    forall i, j | 0 <= i < j < |messages| :: messages[i].id != messages[j].id
  }

  /** A session as the service keeps it: distinct message ids, and a watermark naming a message of the history. */
  ghost predicate WellFormed(s: Session) {
    && FreshIds(s.messages)
    && (s.watermark.Some? ==> IndexOf(History(s), s.watermark.value) < |History(s)|)
  }

  /** A message is appended; nothing else changes. */
  ghost predicate Posted(a: Session, b: Session) {
    b.messages != [] && b == a.(messages := a.messages + [b.messages[|b.messages| - 1]]) && FreshIds(b.messages)
  }

  /** A turn: the question is stored as the newest message, the context is prepared for it, and what the context
      persists is stored: the old summary bounded to `limit` and extended by the entries of what was compacted. */
  ghost predicate Turn(a: Session, b: Session, p: Prepared, limit: nat) {
    && Posted(a, a.(messages := b.messages))
    && b.summary == p.persisted && b.watermark == p.watermark
    && var question := b.messages[|b.messages| - 1];
       var eligible := Filter(Eligible(question.id), b.messages);
       && (exists budget: nat, cpt: real :: cpt >= 1.0 && Prepares(p, eligible, a.watermark, budget, cpt))
       && PersistsOf(p, a.summary, eligible[Covered(eligible, a.watermark)..], limit)
  }

  ghost predicate PersistsOf(p: Prepared, previous: string, rest: seq<Message>, limit: nat) {
    p.compacted <= |rest| && p.persisted == Persisted(previous, rest[..p.compacted], limit)
  }

  lemma {:induction false} EligibleIsEarlierHistory(front: seq<Message>, current: Message)
    requires forall i | 0 <= i < |front| :: front[i].id != current.id
    ensures Filter(Eligible(current.id), front + [current]) == Filter(AnyMessage, front)
  {
    if front == [] {
      assert front + [current] == [current];
      assert [current][1..] == [];
    } else {
      assert (front + [current])[1..] == front[1..] + [current];
      EligibleIsEarlierHistory(front[1..], current);
    }
  }

  lemma {:induction false} IndexInFront(front: seq<Message>, back: seq<Message>, id: string)
    ensures IndexOf(front, id) < |front| ==> IndexOf(front + back, id) == IndexOf(front, id)
  {
    if front != [] && front[0].id != id {
      assert (front + back)[1..] == front[1..] + back;
      IndexInFront(front[1..], back, id);
    }
  }

  lemma {:induction false} IndexExact(ms: seq<Message>, i: nat)
    requires i < |ms| && forall j | 0 <= j < i :: ms[j].id != ms[i].id
    ensures IndexOf(ms, ms[i].id) == i
  {
  }

  lemma FreshTail(messages: seq<Message>)
    requires messages != [] && FreshIds(messages)
    ensures FreshIds(messages[1..]) && forall m | m in messages[1..] :: m.id != messages[0].id
  {
  }

  lemma FreshFirst(m: Message, rest: seq<Message>)
    requires FreshIds(rest) && forall x | x in rest :: x.id != m.id
    ensures FreshIds([m] + rest)
  {
    var all := [m] + rest;
    assert forall i | 0 < i < |all| :: all[i] == rest[i - 1] && rest[i - 1] in rest;
  }

  lemma {:induction false} HistoryIds(messages: seq<Message>)
    requires FreshIds(messages)
    ensures FreshIds(Filter(AnyMessage, messages))
  {
    hide FreshIds, AnyMessage;
    if messages == [] {
      NoIds();
    } else {
      FreshTail(messages);
      HistoryIds(messages[1..]);
      FreshFirst(messages[0], Filter(AnyMessage, messages[1..]));
    }
  }

  lemma NoIds()
    ensures FreshIds([])
  {
  }

  /** Appending a message leaves the covered part of the history as it is. */
  lemma PostKeepsProgress(a: Session, b: Session)
    requires WellFormed(a) && Posted(a, b)
    ensures WellFormed(b) && Progress(b) == Progress(a) && History(a) <= History(b)
  {
    var m := b.messages[|b.messages| - 1];
    FilterAppend(AnyMessage, a.messages, [m]);
    if a.watermark.Some? {
      IndexInFront(History(a), Filter(AnyMessage, [m]), a.watermark.value);
    }
  }

  /** A turn covers what it compacted: every earlier message is either covered or verbatim in the context, never
      both. */
  lemma TurnPartitions(a: Session, b: Session, p: Prepared, limit: nat)
    requires WellFormed(a) && Turn(a, b, p, limit)
    ensures WellFormed(b) && History(a) <= History(b) && Progress(a) <= Progress(b) <= |History(a)|
    ensures p.views == Mapped(ViewOf, History(a)[Progress(b)..])
    ensures CoveredOrVerbatim(History(a), Progress(b), p.views)
    ensures b.summary == Persisted(a.summary, History(a)[Progress(a)..Progress(b)], limit)
  {
    hide Filter, Prepares, Mapped, CoveredOrVerbatim, Persisted;
    var n := |a.messages|;
    var question := b.messages[n];
    assert b.messages == a.messages + [question];
    forall i | 0 <= i < n ensures a.messages[i].id != question.id {
      assert b.messages[i] == a.messages[i];
    }
    EligibleIsEarlierHistory(a.messages, question);
    FilterAppend(AnyMessage, a.messages, [question]);
    HistoryIds(a.messages);
    var eligible := Filter(Eligible(question.id), b.messages);
    assert eligible == History(a);
    var budget: nat, cpt: real :| cpt >= 1.0 && Prepares(p, eligible, a.watermark, budget, cpt);
    TurnMoves(History(a), Filter(AnyMessage, [question]), a.watermark, p, budget, cpt);
    var from, to := Progress(a), Progress(b);
    MiddleSlice(History(a), from, to);
  }

  lemma MiddleSlice<T>(s: seq<T>, from: nat, to: nat)
    requires from <= to <= |s|
    ensures s[from..][..to - from] == s[from..to]
  {
  }

  /** Every message is covered or verbatim, and not both. */
  ghost predicate CoveredOrVerbatim(earlier: seq<Message>, progress: nat, views: seq<View>) {
    forall i | 0 <= i < |earlier| :: (i < progress) != (exists v :: v in views && v.id == earlier[i].id)
  }

  lemma TurnMoves(earlier: seq<Message>, rest: seq<Message>, watermark: Option<string>, p: Prepared, budget: nat,
                  cpt: real)
    requires FreshIds(earlier) && cpt >= 1.0 && Prepares(p, earlier, watermark, budget, cpt)
    requires watermark.Some? ==> IndexOf(earlier, watermark.value) < |earlier|
    ensures var k := Covered(earlier, watermark) + p.compacted;
            && k <= |earlier| && Covered(earlier + rest, p.watermark) == k
            && Covered(earlier + rest, watermark) == Covered(earlier, watermark)
            && (p.watermark.Some? ==> IndexOf(earlier + rest, p.watermark.value) < |earlier + rest|)
            && p.views == Mapped(ViewOf, earlier[k..]) && CoveredOrVerbatim(earlier, k, p.views)
  {
    hide Mapped, CoveredOrVerbatim, IndexOf, ContextTokens, FreshIds, Covered;
    var done := Covered(earlier, watermark);
    var k := done + p.compacted;
    CoveredLater(earlier, rest, watermark);
    assert earlier[done..][p.compacted..] == earlier[k..];
    VerbatimExactly(earlier, k);
    if p.compacted > 0 {
      assert earlier[done..][p.compacted - 1] == earlier[k - 1];
      CoveredUpTo(earlier, rest, k);
    }
  }

  /** More messages after it do not change what a watermark covers. */
  lemma CoveredLater(earlier: seq<Message>, rest: seq<Message>, watermark: Option<string>)
    requires watermark.Some? ==> IndexOf(earlier, watermark.value) < |earlier|
    ensures Covered(earlier + rest, watermark) == Covered(earlier, watermark)
    ensures watermark.Some? ==> IndexOf(earlier + rest, watermark.value) < |earlier + rest|
  {
    hide IndexOf;
    if watermark.Some? {
      IndexInFront(earlier, rest, watermark.value);
    }
  }

  lemma CoveredUpTo(earlier: seq<Message>, rest: seq<Message>, k: nat)
    requires FreshIds(earlier) && 0 < k <= |earlier|
    ensures Covered(earlier + rest, Some(earlier[k - 1].id)) == k
    ensures IndexOf(earlier + rest, earlier[k - 1].id) < |earlier + rest|
  {
    hide IndexOf;
    IndexExact(earlier, k - 1);
    IndexInFront(earlier, rest, earlier[k - 1].id);
  }

  lemma VerbatimExactly(earlier: seq<Message>, k: nat)
    requires FreshIds(earlier) && k <= |earlier|
    ensures CoveredOrVerbatim(earlier, k, Mapped(ViewOf, earlier[k..]))
  {
    var views := Mapped(ViewOf, earlier[k..]);
    forall i | 0 <= i < |earlier|
      ensures (i < k) != (exists v :: v in views && v.id == earlier[i].id)
    {
      if i >= k {
        assert views[i - k] in views && views[i - k].id == earlier[i].id;
      } else {
        forall v | v in views ensures v.id != earlier[i].id {
          var j :| 0 <= j < |views| && views[j] == v;
          assert earlier[k + j].id != earlier[i].id;
        }
      }
    }
  }

  // ----- runs

  /** One step of a session: a message is posted, or a turn is taken. */
  datatype Move = Posting | Asking(limit: nat)

  ghost predicate Moved(a: Session, b: Session, m: Move) {
    match m
    case Posting => Posted(a, b)
    case Asking(limit) => exists p :: Turn(a, b, p, limit)
  }

  ghost predicate SessionRun(states: seq<Session>, moves: seq<Move>) {
    && |states| == |moves| + 1 && WellFormed(states[0])
    && forall i | 0 <= i < |moves| :: Moved(states[i], states[i + 1], moves[i])
  }

  lemma StepProgress(a: Session, b: Session, m: Move)
    requires WellFormed(a) && Moved(a, b, m)
    ensures WellFormed(b) && Progress(a) <= Progress(b) && History(a) <= History(b)
  {
    match m
    case Posting => PostKeepsProgress(a, b);
    case Asking(limit) =>
      var p :| Turn(a, b, p, limit);
      TurnPartitions(a, b, p, limit);
  }

  /** Over every run the history only grows and the watermark never moves backward in it. */
  lemma {:induction false} WatermarkNeverMovesBack(states: seq<Session>, moves: seq<Move>, i: nat, j: nat)
    requires SessionRun(states, moves) && i <= j < |states|
    ensures WellFormed(states[i]) && WellFormed(states[j])
    ensures Progress(states[i]) <= Progress(states[j]) && History(states[i]) <= History(states[j])
    decreases j
  {
    if j > 0 {
      hide WellFormed, Moved, Progress, History;
      WatermarkNeverMovesBack(states, moves, if i < j then i else j - 1, j - 1);
      assert Moved(states[j - 1], states[j - 1 + 1], moves[j - 1]);
      StepProgress(states[j - 1], states[j], moves[j - 1]);
    }
  }

  /** In every run, each turn's context holds exactly the earlier messages that are not covered, and what is covered
      stays covered: a message once summarised is never again placed verbatim. */
  lemma CoveredStaysCovered(states: seq<Session>, moves: seq<Move>, i: nat, j: nat, p: Prepared, limit: nat, k: nat)
    requires SessionRun(states, moves) && i <= j && j + 1 < |states| && Turn(states[j], states[j + 1], p, limit)
    requires k < Progress(states[i])
    ensures forall v | v in p.views :: v.id != History(states[i])[k].id
  {
    WatermarkNeverMovesBack(states, moves, i, j);
    TurnPartitions(states[j], states[j + 1], p, limit);
    assert History(states[j])[k] == History(states[i])[k];
  }

  // ----- the summary over a whole run

  /** The limit of the last turn; before any, no limit was stricter than the greatest there is. */
  function LastLimit(moves: seq<Move>): nat {
    if moves == [] then MAX_CONTEXT_CHARS
    else if moves[|moves| - 1].Asking? then moves[|moves| - 1].limit
    else LastLimit(moves[..|moves| - 1])
  }

  /** A run from the empty session in which the limit stays the same or gets stricter. */
  ghost predicate SteadyRun(states: seq<Session>, moves: seq<Move>) {
    && SessionRun(states, moves) && states[0] == Session([], "", None)
    && forall i | 0 <= i < |moves| && moves[i].Asking? :: moves[i].limit <= LastLimit(moves[..i])
  }

  function CoveredEntries(s: Session): seq<string> {
    Mapped(SummaryEntry, History(s)[..Progress(s)])
  }

  /** The stored summary is what bounding the entries of all covered messages at once leaves, up to the space a cut
      line may begin with: compacting turn by turn is compacting once. */
  lemma {:induction false} SummaryOfAllCovered(states: seq<Session>, moves: seq<Move>)
    requires SteadyRun(states, moves)
    ensures var s, limit := states[|moves|], LastLimit(moves);
            && Strip(s.summary) == Strip(Fitting(CoveredEntries(s), limit))
            && Strip(s.summary) == Strip(Persisted("", History(s)[..Progress(s)], limit))
    decreases |moves|
  {
    hide Moved, WellFormed, Progress, History, Fitting, Strip, Persisted, CoveredEntries;
    var n := |moves| - 1;
    if moves == [] {
      EmptySession(MAX_CONTEXT_CHARS);
    } else {
      var a, b, m := states[n], states[n + 1], moves[n];
      ShorterRun(states, moves);
      SummaryOfAllCovered(states[..n + 1], moves[..n]);
      WatermarkNeverMovesBack(states, moves, n, n);
      assert Moved(a, b, m);
      SummaryStep(a, b, m, LastLimit(moves[..n]), LastLimit(moves));
    }
    CompactedOnce(states[|moves|], LastLimit(moves));
  }

  lemma ShorterRun(states: seq<Session>, moves: seq<Move>)
    requires SteadyRun(states, moves) && moves != []
    ensures SteadyRun(states[..|moves|], moves[..|moves| - 1])
  {
    hide Moved, WellFormed, LastLimit;
    var n := |moves| - 1;
    assert forall i | 0 <= i < n :: moves[..n][i] == moves[i] && moves[..n][..i] == moves[..i];
  }

  lemma EmptySession(limit: nat)
    ensures var s := Session([], "", None); Strip(s.summary) == Strip(Fitting(CoveredEntries(s), limit))
  {
    var s := Session([], "", None);
    assert History(s)[..Progress(s)] == [];
    assert CoveredEntries(s) == [];
  }

  lemma CompactedOnce(s: Session, limit: nat)
    ensures Strip(Persisted("", History(s)[..Progress(s)], limit)) == Strip(Fitting(CoveredEntries(s), limit))
  {
    hide Persisted, Fitting, Strip, Mapped, SummaryEntry;
    var covered := History(s)[..Progress(s)];
    HistoryVisible(s);
    FittingNothing(limit);
    assert [] + Mapped(SummaryEntry, covered) == Mapped(SummaryEntry, covered);
    PersistedIsRecentLines("", [], limit, covered, limit);
  }

  lemma FittingNothing(limit: nat)
    ensures Fitting([], limit) == ""
  {
  }

  lemma HistoryVisible(s: Session)
    ensures forall i | 0 <= i < |History(s)| :: Strip(History(s)[i].content) != ""
  {
    forall i | 0 <= i < |History(s)| ensures AnyMessage(History(s)[i]) {
      assert History(s)[i] in History(s);
    }
  }

  lemma PostKeepsEntries(a: Session, b: Session)
    requires WellFormed(a) && Posted(a, b)
    ensures CoveredEntries(b) == CoveredEntries(a) && b.summary == a.summary
  {
    hide Mapped, SummaryEntry;
    PostKeepsProgress(a, b);
    hide History, Progress, WellFormed;
    assert History(b)[..Progress(b)] == History(a)[..Progress(a)];
  }

  /** A turn extends the covered messages and the summary by the same ones. */
  lemma AskExtends(a: Session, b: Session, limit: nat) returns (added: seq<Message>)
    requires WellFormed(a) && Moved(a, b, Asking(limit))
    ensures b.summary == Persisted(a.summary, added, limit)
    ensures CoveredEntries(b) == CoveredEntries(a) + Mapped(SummaryEntry, added) && AllTidy(CoveredEntries(a))
    ensures forall i | 0 <= i < |added| :: Strip(added[i].content) != ""
  {
    hide Persisted, Mapped, SummaryEntry, Turn, WellFormed, Progress, History, Strip, Tidy;
    var p :| Turn(a, b, p, limit);
    TurnPartitions(a, b, p, limit);
    EntriesExtended(a, b);
    HistoryVisible(a);
    EntriesTidy(History(a)[..Progress(a)]);
    added := History(a)[Progress(a)..Progress(b)];
  }

  lemma SummaryStep(a: Session, b: Session, m: Move, before: nat, now: nat)
    requires WellFormed(a) && Moved(a, b, m) && Strip(a.summary) == Strip(Fitting(CoveredEntries(a), before))
    requires if m.Asking? then now == m.limit <= before else now == before
    ensures Strip(b.summary) == Strip(Fitting(CoveredEntries(b), now))
  {
    hide Fitting, Strip, Persisted, Mapped, SummaryEntry, CoveredEntries, WellFormed, Tidy;
    match m
    case Posting => PostKeepsEntries(a, b);
    case Asking(limit) =>
      var added := AskExtends(a, b, limit);
      PersistedIsRecentLines(a.summary, CoveredEntries(a), before, added, limit);
  }

  lemma EntriesExtended(a: Session, b: Session)
    requires History(a) <= History(b) && Progress(a) <= Progress(b) <= |History(a)|
    ensures CoveredEntries(b) == CoveredEntries(a) + Mapped(SummaryEntry, History(a)[Progress(a)..Progress(b)])
  {
    hide History, Progress, Mapped, SummaryEntry;
    var i, j := Progress(a), Progress(b);
    assert History(b)[..j] == History(a)[..i] + History(a)[i..j];
    MappedAppend(SummaryEntry, History(a)[..i], History(a)[i..j]);
  }

  // ----- the summary over a run with any limits

  /** The stored summary consists of the last entries of the covered messages, the first of them perhaps cut. */
  ghost predicate OfLastEntries(s: Session) {
    exists tail :: AllTidy(tail) && TailOf(tail, CoveredEntries(s)) && Strip(s.summary) == JoinLines(tail)
  }

  /** In every run from the empty session, whatever the limits of its turns, the stored summary consists of the last
      entries of the covered messages: it is the end of all of them, joined. */
  lemma {:induction false} SummaryIsRecent(states: seq<Session>, moves: seq<Move>)
    requires SessionRun(states, moves) && states[0] == Session([], "", None)
    ensures var s := states[|moves|];
            OfLastEntries(s) && IsEnd(Strip(s.summary), JoinLines(CoveredEntries(s)))
    decreases |moves|
  {
    hide Moved, WellFormed, OfLastEntries, Strip, JoinLines, CoveredEntries, IsEnd;
    var n := |moves| - 1;
    if moves == [] {
      NothingSummarised();
    } else {
      assert SessionRun(states[..n + 1], moves[..n]);
      SummaryIsRecent(states[..n + 1], moves[..n]);
      WatermarkNeverMovesBack(states, moves, n, n);
      assert Moved(states[n], states[n + 1], moves[n]);
      RecentStep(states[n], states[n + 1], moves[n]);
    }
    RecentIsEnd(states[|moves|]);
  }

  lemma NothingSummarised()
    ensures OfLastEntries(Session([], "", None))
  {
    var s := Session([], "", None);
    assert History(s)[..Progress(s)] == [] && CoveredEntries(s) == [];
    StripNothing();
    assert TailOf([], CoveredEntries(s)) && Strip(s.summary) == JoinLines([]);
  }

  lemma RecentIsEnd(s: Session)
    requires OfLastEntries(s)
    ensures IsEnd(Strip(s.summary), JoinLines(CoveredEntries(s)))
  {
    hide Strip, JoinLines, CoveredEntries, IsEnd, Tidy, TailOf;
    var tail :| AllTidy(tail) && TailOf(tail, CoveredEntries(s)) && Strip(s.summary) == JoinLines(tail);
    TailIsEnd(tail, CoveredEntries(s));
  }

  lemma RecentStep(a: Session, b: Session, m: Move)
    requires WellFormed(a) && Moved(a, b, m) && OfLastEntries(a)
    ensures OfLastEntries(b)
  {
    hide Strip, Persisted, Mapped, SummaryEntry, TailOf, JoinLines, Tidy, CoveredEntries, WellFormed;
    match m
    case Posting => PostKeepsEntries(a, b);
    case Asking(limit) =>
      var tail :| AllTidy(tail) && TailOf(tail, CoveredEntries(a)) && Strip(a.summary) == JoinLines(tail);
      var added := AskExtends(a, b, limit);
      var next := PersistedTail(a.summary, tail, CoveredEntries(a), added, limit);
  }

  // ----- a run in which nothing has to be cut

  /** At every turn what is covered fits the limit. */
  ghost predicate RoomyRun(states: seq<Session>, moves: seq<Move>) {
    && SessionRun(states, moves) && states[0] == Session([], "", None)
    && forall i | 0 <= i < |moves| && moves[i].Asking? ::
         |JoinLines(CoveredEntries(states[i + 1]))| <= moves[i].limit
  }

  /** While the covered text fits the limit, the stored summary tells every covered message: who spoke and all words,
      in order. */
  lemma {:induction false} SummaryTellsAll(states: seq<Session>, moves: seq<Move>)
    requires RoomyRun(states, moves)
    ensures var s := states[|moves|];
            Strip(s.summary) == JoinLines(CoveredEntries(s)) && Words(s.summary) == Told(History(s)[..Progress(s)])
    decreases |moves|
  {
    hide Moved, WellFormed, Strip, JoinLines, CoveredEntries, History, Progress, Words, Told;
    var n := |moves| - 1;
    if moves == [] {
      NothingCovered();
    } else {
      var a, b, m := states[n], states[n + 1], moves[n];
      RoomyBefore(states, moves);
      SummaryTellsAll(states[..n + 1], moves[..n]);
      WatermarkNeverMovesBack(states, moves, n, n);
      assert Moved(a, b, m);
      RoomyStep(a, b, m);
    }
    SummaryTells(states[|moves|]);
  }

  lemma RoomyBefore(states: seq<Session>, moves: seq<Move>)
    requires RoomyRun(states, moves) && moves != []
    ensures RoomyRun(states[..|moves|], moves[..|moves| - 1])
  {
    hide Moved, WellFormed, CoveredEntries, JoinLines;
    var n := |moves| - 1;
    assert forall i | 0 <= i < n :: moves[..n][i] == moves[i] && states[..n + 1][i] == states[i];
    assert states[..n + 1][n] == states[n];
  }

  lemma NothingCovered()
    ensures var s := Session([], "", None); Strip(s.summary) == JoinLines(CoveredEntries(s))
  {
    var s := Session([], "", None);
    assert History(s)[..Progress(s)] == [] && CoveredEntries(s) == [];
    StripNothing();
  }

  lemma SummaryTells(s: Session)
    requires Strip(s.summary) == JoinLines(CoveredEntries(s))
    ensures Words(s.summary) == Told(History(s)[..Progress(s)])
  {
    hide Words, Strip, JoinLines, History, Progress, Told, SummaryEntry;
    WordsStrip(s.summary);
    EntriesTell(History(s)[..Progress(s)]);
  }

  lemma RoomyStep(a: Session, b: Session, m: Move)
    requires WellFormed(a) && Moved(a, b, m) && Strip(a.summary) == JoinLines(CoveredEntries(a))
    requires m.Asking? ==> |JoinLines(CoveredEntries(b))| <= m.limit
    ensures Strip(b.summary) == JoinLines(CoveredEntries(b))
  {
    hide Strip, JoinLines, Persisted, Mapped, SummaryEntry, CoveredEntries, WellFormed, Tidy, Fitting, AllTidy;
    match m
    case Posting => PostKeepsEntries(a, b);
    case Asking(limit) =>
      var added := AskExtends(a, b, limit);
      var lines, more := CoveredEntries(a), Mapped(SummaryEntry, added);
      JoinedLength(lines, more);
      FittingAll(lines, limit);
      FittingAll(lines + more, limit);
      StripJoined(lines);
      EntriesTidy(added);
      AllTidyTogether(lines, more);
      StripJoined(lines + more);
      PersistedIsRecentLines(a.summary, lines, limit, added, limit);
  }

  lemma AllTidyTogether(a: seq<string>, b: seq<string>)
    requires AllTidy(a) && AllTidy(b)
    ensures AllTidy(a + b)
  {
  }

  /** While the covered text fits, a context tells the whole earlier conversation: the summary the messages up to the
      watermark, word by word, and after it one view for each later message. */
  lemma ContextTellsAll(states: seq<Session>, moves: seq<Move>, p: Prepared)
    requires RoomyRun(states, moves) && moves != [] && moves[|moves| - 1].Asking?
    requires Turn(states[|moves| - 1], states[|moves|], p, moves[|moves| - 1].limit)
    ensures var earlier, k := History(states[|moves| - 1]), Progress(states[|moves|]);
            && k <= |earlier| && |p.views| == |earlier| - k && Words(p.persisted) == Told(earlier[..k])
            && forall i | k <= i < |earlier| :: ViewTells(p.views[i - k], earlier[i])
  {
    hide Moved, WellFormed, Progress, History, Words, Told, JoinLines, CoveredEntries, ViewTells, ViewOf, Turn, Mapped;
    hide CoveredOrVerbatim, Persisted, Strip;
    var n := |moves| - 1;
    var a, b := states[n], states[n + 1];
    var earlier, k := History(a), Progress(b);
    WatermarkNeverMovesBack(states, moves, n, n);
    TurnPartitions(a, b, p, moves[n].limit);
    SummaryTellsAll(states, moves);
    TurnStores(a, b, p, moves[n].limit);
    assert History(b)[..k] == earlier[..k];
    ViewsAreTold(earlier, k, p.views);
  }

  lemma TurnStores(a: Session, b: Session, p: Prepared, limit: nat)
    requires Turn(a, b, p, limit)
    ensures b.summary == p.persisted && b.watermark == p.watermark
  {
  }

  lemma ViewsAreTold(earlier: seq<Message>, k: nat, views: seq<View>)
    requires k <= |earlier| && views == Mapped(ViewOf, earlier[k..])
    ensures |views| == |earlier| - k && forall i | k <= i < |earlier| :: ViewTells(views[i - k], earlier[i])
  {
    hide ViewTells, ViewOf;
    forall i | k <= i < |earlier| ensures ViewTells(views[i - k], earlier[i]) {
      ViewIsTold(earlier[i]);
      assert earlier[k..][i - k] == earlier[i];
    }
  }

  /** The history is all of the conversation: what users and assistants said, except blank messages. */
  lemma HistoryIsAll(s: Session, m: Message)
    ensures m in History(s)
            <==> m in s.messages && (m.role == "user" || m.role == "assistant")
                 && exists c :: c in m.content && !IsSpace(c)
  {
    StripBlank(m.content);
    hide Strip;
  }

  // ----- the session as the service updates it

  class ChatSession {
    var messages: seq<Message>
    var summary: string
    var watermark: Option<string>

    ghost function State(): Session
      reads this
    {
      Session(messages, summary, watermark)
    }

    constructor ()
      ensures State() == Session([], "", None) && WellFormed(State()) && Progress(State()) == 0
    {
      messages, summary, watermark := [], "", None;
    }

    /** A message is stored after all others. */
    method Post(m: Message)
      requires FreshIds(messages + [m])
      modifies this
      ensures Posted(old(State()), State()) && messages == old(messages) + [m]
    {
      messages := messages + [m];
    }

    /** `ask_in_chat_session`: stores the question, prepares the context, persists summary and watermark. */
    method Ask(question: Message, sanitize: string -> string, structured: Option<seq<Source>>, c: Settings)
      returns (p: Prepared)
      requires FreshIds(messages + [question])
      modifies this
      ensures messages == old(messages) + [question]
      ensures Turn(old(State()), State(), p, LimitBeside(|CriticalOf(sanitize, structured, c)|, c))
      ensures var critical := CriticalOf(sanitize, structured, c);
              var rest := Unsummarised(messages, question.id, old(watermark));
              var h := HistoryBeside(|critical|, rest, old(summary), old(watermark), c);
              && p == (if structured.None? then h else Conversation(critical, h, c))
              && (ContextTokens(p, Cpt(c)) > Budget(c) <==> FillsBudget(critical, h, c))
    {
      hide Prepares, Filter, Budget, Cpt, FreshIds, HistoryBeside, FillsBudget, ContextTokens, CriticalOf, LimitBeside;
      Post(question);
      p := PrepareConversation(sanitize, messages, question.id, summary, watermark, c, structured);
      HistoryPersists(|CriticalOf(sanitize, structured, c)|, Unsummarised(messages, question.id, watermark), summary,
                      watermark, c);
      summary, watermark := p.persisted, p.watermark;
      assert Prepares(p, Filter(Eligible(question.id), messages), old(watermark), Budget(c), Cpt(c));
    }
  }

  lemma HistoryPersists(critical: nat, rest: seq<Message>, existing: string, watermark: Option<string>, c: Settings)
    ensures PersistsOf(HistoryBeside(critical, rest, existing, watermark, c), existing, rest, LimitBeside(critical, c))
  {
    hide Persisted, Mapped, Tokens, Budget, Cpt, SummaryLimit, Stop;
  }
}
