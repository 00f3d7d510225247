/** Compaction of the conversation history under a token budget
    (app/mneme/domains/chat/context.py, `_prepare_history_context`). */
module HistoryContext {
  import opened Wrappers
  import opened Sorting
  import opened Text
  import opened ContextGovernance
  import opened BoundedSummary

  /** A chat message; the payload counts and sizes stand for its tool calls and sources. */
  datatype Message = Message(id: string, role: string, content: string,
                             toolCalls: nat, toolChars: nat, sources: nat, sourceChars: nat)

  /** A message as placed verbatim in the context. */
  datatype View = View(id: string, role: string, content: string)

  datatype Prepared = Prepared(summary: string, views: seq<View>, persisted: string, watermark: Option<string>,
                               compacted: nat, turnLimited: bool, pressured: bool, afterTokens: nat)

  const MAX_MESSAGE_CHARS := 20000

  // ----- what a message becomes

  function Decimal(n: nat): (r: string) {
    if n < 10 then [['0', '1', '2', '3', '4', '5', '6', '7', '8', '9'][n]]
    else Decimal(n / 10) + Decimal(n % 10)
  }

  /** The role, and how many tool calls and sources the message carries. */
  function Label(m: Message): string {
    var role := if m.role == "user" then "User" else "Assistant";
    if m.toolCalls > 0 && m.sources > 0 then
      role + " " + ("[tools=" + Decimal(m.toolCalls) + ",") + " " + ("sources=" + Decimal(m.sources) + "]:")
    else if m.toolCalls > 0 then role + " " + ("[tools=" + Decimal(m.toolCalls) + "]:")
    else if m.sources > 0 then role + " " + ("[sources=" + Decimal(m.sources) + "]:")
    else role + ":"
  }

  function SummaryEntry(m: Message): string {
    Label(m) + " " + OneSpaced(m.content)
  }

  function ViewOf(m: Message): View {
    View(m.id, m.role, Take(Strip(m.content), MAX_MESSAGE_CHARS))
  }

  function MinInt(x: int, y: int): int {
    if x <= y then x else y
  }

  function PayloadChars(m: Message, soft: int): nat {
    (if m.toolCalls > 0 then MinInt(m.toolChars, Monus(soft, 0)) else 0)
    + (if m.sources > 0 then MinInt(m.sourceChars, Monus(soft, 0)) else 0)
  }

  /** Estimated tokens of messages with their payloads. */
  function PayloadTokens(ms: seq<Message>, cpt: real, soft: int): nat
    requires cpt >= 1.0
  {
    if ms == [] then 0
    else Tokens(|ms[0].content| + PayloadChars(ms[0], soft), cpt) + PayloadTokens(ms[1..], cpt, soft)
  }

  /** Estimated tokens of the bare contents. */
  function ContentTokens(ms: seq<Message>, cpt: real): nat
    requires cpt >= 1.0
  {
    if ms == [] then 0 else Tokens(|ms[0].content|, cpt) + ContentTokens(ms[1..], cpt)
  }

  function ViewTokens(vs: seq<View>, cpt: real): nat
    requires cpt >= 1.0
  {
    if vs == [] then 0 else Tokens(|vs[0].content|, cpt) + ViewTokens(vs[1..], cpt)
  }

  // ----- limits

  /** The last `min(max_messages, 24)` messages may stay verbatim; everything before is compacted for the turn limit. */
  function TurnCut(n: nat, maxMessages: int): (r: nat)
    ensures r <= n && n - r <= 24 && (maxMessages >= 0 ==> n - r <= maxMessages) && (maxMessages <= 0 ==> r == n)
  {
    var recent := MinInt(Monus(maxMessages, 0), 24);
    if recent >= n then 0 else n - recent
  }

  function SummaryLimit(summaryMaxChars: int, budget: nat, cpt: real): (r: nat)
    requires cpt >= 1.0
    ensures r <= MAX_CONTEXT_CHARS && (summaryMaxChars >= 0 ==> r <= summaryMaxChars)
  {
    MinInt(Monus(MinInt(summaryMaxChars, MAX_CONTEXT_CHARS), 0), Monus((budget as real * cpt / 3.0).Floor, 0))
  }

  /** The summary persisted when `compacted` is summarised on top of the old summary. */
  function Persisted(previous: string, compacted: seq<Message>, limit: nat): string {
    Summary(Summary(previous, [], limit), Mapped(SummaryEntry, compacted), limit)
  }

  function FirstPassCost(previous: string, recent: seq<Message>, limit: nat, cpt: real, soft: int): nat
    requires cpt >= 1.0
  {
    Tokens(|Summary(previous, [], limit)|, cpt) + PayloadTokens(recent, cpt, soft)
  }

  function SecondPassCost(previous: string, compacted: seq<Message>, recent: seq<Message>, limit: nat, cpt: real): nat
    requires cpt >= 1.0
  {
    Tokens(|Persisted(previous, compacted, limit)|, cpt) + ContentTokens(recent, cpt)
  }

  // ----- where the two loops stop

  /** The first number from `from` on that fits, or `n` if there is none below. */
  function FirstFit(fits: nat -> bool, from: nat, n: nat): (r: nat)
    requires from <= n
    ensures from <= r <= n
    ensures forall j | from <= j < r :: !fits(j)
    ensures r < n ==> fits(r)
    decreases n - from
  {
    if from < n && !fits(from) then FirstFit(fits, from + 1, n) else from
  }

  function FirstFits(previous: string, ms: seq<Message>, limit: nat, budget: nat, cpt: real, soft: int): nat -> bool
    requires cpt >= 1.0
  {
    (j: nat) => j >= |ms| || FirstPassCost(previous, ms[j..], limit, cpt, soft) <= budget
  }

  function SecondFits(previous: string, ms: seq<Message>, limit: nat, budget: nat, cpt: real): nat -> bool
    requires cpt >= 1.0
  {
    (j: nat) => j >= |ms| || SecondPassCost(previous, ms[..j], ms[j..], limit, cpt) <= budget
  }

  /** The first split from `from` on at which the first loop's estimate fits. */
  function FirstStop(previous: string, ms: seq<Message>, from: nat, limit: nat, budget: nat, cpt: real,
                     soft: int): (r: nat)
    requires cpt >= 1.0 && from <= |ms|
    ensures from <= r <= |ms|
  {
    FirstFit(FirstFits(previous, ms, limit, budget, cpt, soft), from, |ms|)
  }

  /** The first split from `from` on at which the second loop's estimate fits. It may fit at one split and not at a
      later one, because the summary grows; the loop stops at the first. */
  function SecondStop(previous: string, ms: seq<Message>, from: nat, limit: nat, budget: nat, cpt: real): (r: nat)
    requires cpt >= 1.0 && from <= |ms|
    ensures from <= r <= |ms|
  {
    FirstFit(SecondFits(previous, ms, limit, budget, cpt), from, |ms|)
  }

  /** How many of the unsummarised messages a call compacts. */
  function Stop(previous: string, ms: seq<Message>, maxMessages: int, limit: nat, budget: nat, cpt: real,
                soft: int): (r: nat)
    requires cpt >= 1.0
    ensures TurnCut(|ms|, maxMessages) <= r <= |ms|
  {
    SecondStop(previous, ms, FirstStop(previous, ms, TurnCut(|ms|, maxMessages), limit, budget, cpt, soft), limit,
               budget, cpt)
  }

  /** The value returned once the loops have settled what is compacted and what stays. */
  function Result(persisted: string, compacted: seq<Message>, recent: seq<Message>, cut: nat, watermark: Option<string>,
                  cpt: real)
    : Prepared
    requires cpt >= 1.0
  {
    var mark := if compacted != [] then Some(compacted[|compacted| - 1].id) else watermark;
    Prepared(persisted, Mapped(ViewOf, recent), persisted, mark, |compacted|,
             cut > 0, |compacted| > cut, Tokens(|persisted|, cpt) + ContentTokens(recent, cpt))
  }

  /** The prepared history as a function of the inputs. */
  function HistoryOf(ms: seq<Message>, previous: string, watermark: Option<string>, maxMessages: int,
                     summaryMaxChars: int, budget: nat, cpt: real, soft: int): Prepared
    requires cpt >= 1.0
  {
    var limit := SummaryLimit(summaryMaxChars, budget, cpt);
    var k := Stop(previous, ms, maxMessages, limit, budget, cpt, soft);
    Result(Persisted(previous, ms[..k], limit), ms[..k], ms[k..], TurnCut(|ms|, maxMessages), watermark, cpt)
  }

  /** The first loop went from `cut` to the first fitting split `start`, the second one from there to `k`. */
  ghost predicate Stops(ms: seq<Message>, previous: string, cut: nat, start: nat, k: nat, limit: nat, budget: nat,
                        cpt: real, soft: int)
    requires cpt >= 1.0
  {
    && cut <= start <= k <= |ms|
    && (forall j | cut <= j < start :: FirstPassCost(previous, ms[j..], limit, cpt, soft) > budget)
    && (start < |ms| ==> FirstPassCost(previous, ms[start..], limit, cpt, soft) <= budget)
    && (forall j | start <= j < k :: SecondPassCost(previous, ms[..j], ms[j..], limit, cpt) > budget)
    && (k < |ms| ==> SecondPassCost(previous, ms[..k], ms[k..], limit, cpt) <= budget)
  }

  /** What one call promises about the unsummarised messages `ms`. */
  ghost predicate Compacts(p: Prepared, ms: seq<Message>, previous: string, watermark: Option<string>,
                           maxMessages: int, limit: nat, budget: nat, cpt: real, soft: int)
    requires cpt >= 1.0
  {
    && p.compacted <= |ms|
    // what is not compacted is verbatim, in order
    && p.views == Mapped(ViewOf, ms[p.compacted..])
    && p.persisted == p.summary == Persisted(previous, ms[..p.compacted], limit)
    && p.watermark == (if p.compacted > 0 then Some(ms[p.compacted - 1].id) else watermark)
    // within the budget
    && p.afterTokens == Tokens(|p.summary|, cpt) + ContentTokens(ms[p.compacted..], cpt) <= budget
    // each loop stops at the first split that fits
    && TurnCut(|ms|, maxMessages) <= p.compacted
    && (exists start: nat ::
          Stops(ms, previous, TurnCut(|ms|, maxMessages), start, p.compacted, limit, budget, cpt, soft))
    && (p.turnLimited <==> TurnCut(|ms|, maxMessages) > 0)
    && (p.pressured <==> p.compacted > TurnCut(|ms|, maxMessages))
  }

  lemma SummaryFits(chars: nat, budget: nat, cpt: real, summaryMaxChars: int)
    requires cpt >= 1.0 && chars <= SummaryLimit(summaryMaxChars, budget, cpt)
    ensures Tokens(chars, cpt) <= budget
  {
    var third := budget as real * cpt / 3.0;
    assert budget as real * cpt >= 0.0;
    assert chars as real <= third <= budget as real * cpt;
    TokensFit(chars, cpt, budget);
  }

  lemma MoveOne(ms: seq<Message>, k: nat)
    requires k < |ms|
    ensures ms[..k] + [ms[k..][0]] == ms[..k + 1] && ms[k..][1..] == ms[k + 1..]
  {
  }

  /** The first loop: messages with their payloads must fit beside the bounded old summary. */
  method FirstPass(ms: seq<Message>, cut: nat, ghost previous: string, bounded: string, limit: nat, budget: nat,
                   cpt: real, soft: int)
    returns (compacted: seq<Message>, recent: seq<Message>)
    requires cpt >= 1.0 && cut <= |ms| && bounded == Summary(previous, [], limit)
    ensures var k := FirstStop(previous, ms, cut, limit, budget, cpt, soft); compacted == ms[..k] && recent == ms[k..]
  {
    hide Summary, PayloadTokens;
    compacted, recent := ms[..cut], ms[cut..];
    while recent != [] && Tokens(|bounded|, cpt) + PayloadTokens(recent, cpt, soft) > budget
      invariant |compacted| <= |ms| && compacted == ms[..|compacted|] && recent == ms[|compacted|..]
      invariant FirstStop(previous, ms, |compacted|, limit, budget, cpt, soft)
                == FirstStop(previous, ms, cut, limit, budget, cpt, soft)
      decreases |recent|
    {
      MoveOne(ms, |compacted|);
      compacted, recent := compacted + [recent[0]], recent[1..];
    }
  }

  /** The second loop: the contents must fit beside the summary of everything compacted so far. */
  method SecondPass(ms: seq<Message>, start: seq<Message>, rest: seq<Message>, ghost previous: string, bounded: string,
                    limit: nat, budget: nat, cpt: real)
    returns (compacted: seq<Message>, recent: seq<Message>, persisted: string)
    requires cpt >= 1.0 && |start| <= |ms| && start == ms[..|start|] && rest == ms[|start|..]
    requires bounded == Summary(previous, [], limit)
    ensures var k := SecondStop(previous, ms, |start|, limit, budget, cpt);
            compacted == ms[..k] && recent == ms[k..] && persisted == Persisted(previous, ms[..k], limit)
  {
    hide Summary, Mapped, Tokens, ContentTokens, SummaryEntry;
    compacted, recent := start, rest;
    persisted := BoundSummary(bounded, Mapped(SummaryEntry, compacted), limit);
    while recent != [] && Tokens(|persisted|, cpt) + ContentTokens(recent, cpt) > budget
      invariant |compacted| <= |ms| && compacted == ms[..|compacted|] && recent == ms[|compacted|..]
      invariant persisted == Persisted(previous, ms[..|compacted|], limit)
      invariant SecondStop(previous, ms, |compacted|, limit, budget, cpt)
                == SecondStop(previous, ms, |start|, limit, budget, cpt)
      decreases |recent|
    {
      MoveOne(ms, |compacted|);
      compacted, recent := compacted + [recent[0]], recent[1..];
      persisted := BoundSummary(bounded, Mapped(SummaryEntry, compacted), limit);
    }
  }

  /** `_prepare_history_context`: two loops that move the oldest verbatim message into the summary. */
  method PrepareHistory(ms: seq<Message>, previous: string, watermark: Option<string>, maxMessages: int,
                        summaryMaxChars: int, budget: nat, cpt: real, soft: int)
    returns (p: Prepared)
    requires cpt >= 1.0
    ensures p == HistoryOf(ms, previous, watermark, maxMessages, summaryMaxChars, budget, cpt, soft)
    ensures Compacts(p, ms, previous, watermark, maxMessages, SummaryLimit(summaryMaxChars, budget, cpt), budget, cpt,
                     soft)
  {
    hide Summary, Mapped, Tokens, ContentTokens, PayloadTokens, SummaryLimit, TurnCut, Compacts, Result, Persisted;
    hide FirstStop, SecondStop;
    var cut := TurnCut(|ms|, maxMessages);
    var limit := SummaryLimit(summaryMaxChars, budget, cpt);
    var bounded := BoundSummary(previous, [], limit);
    var start, rest := FirstPass(ms, cut, previous, bounded, limit, budget, cpt, soft);
    var compacted, recent, persisted := SecondPass(ms, start, rest, previous, bounded, limit, budget, cpt);
    p := Result(persisted, compacted, recent, cut, watermark, cpt);
    HistoryCompacts(p, ms, previous, watermark, maxMessages, summaryMaxChars, limit, budget, cpt, soft);
  }

  /** The prepared history keeps the promise. */
  lemma HistoryCompacts(p: Prepared, ms: seq<Message>, previous: string, watermark: Option<string>, maxMessages: int,
                        summaryMaxChars: int, limit: nat, budget: nat, cpt: real, soft: int)
    requires cpt >= 1.0 && limit == SummaryLimit(summaryMaxChars, budget, cpt)
    requires p == HistoryOf(ms, previous, watermark, maxMessages, summaryMaxChars, budget, cpt, soft)
    ensures Compacts(p, ms, previous, watermark, maxMessages, limit, budget, cpt, soft)
  {
    hide Summary, Mapped, Tokens, TurnCut, Persisted, FirstPassCost, ContentTokens, FirstStop, SecondStop, SummaryLimit;
    hide Stops;
    var cut := TurnCut(|ms|, maxMessages);
    var start := FirstStop(previous, ms, cut, limit, budget, cpt, soft);
    var k := SecondStop(previous, ms, start, limit, budget, cpt);
    PersistedFits(previous, ms[..k], summaryMaxChars, budget, cpt);
    StopsThere(previous, ms, cut, limit, budget, cpt, soft);
    StopFits(previous, ms, cut, start, k, limit, budget, cpt, soft);
    hide SecondPassCost;
    NoContent(cpt);
    assert k > 0 ==> ms[..k][k - 1] == ms[k - 1];
    assert k == |ms| ==> ms[k..] == [];
  }

  lemma StopFits(previous: string, ms: seq<Message>, cut: nat, start: nat, k: nat, limit: nat, budget: nat, cpt: real,
                 soft: int)
    requires cpt >= 1.0 && Stops(ms, previous, cut, start, k, limit, budget, cpt, soft)
    ensures k < |ms| ==> Tokens(|Persisted(previous, ms[..k], limit)|, cpt) + ContentTokens(ms[k..], cpt) <= budget
  {
    hide Persisted, Tokens, ContentTokens, FirstPassCost;
  }

  lemma StopsThere(previous: string, ms: seq<Message>, cut: nat, limit: nat, budget: nat, cpt: real, soft: int)
    requires cpt >= 1.0 && cut <= |ms|
    ensures var start := FirstStop(previous, ms, cut, limit, budget, cpt, soft);
            var k := SecondStop(previous, ms, start, limit, budget, cpt);
            Stops(ms, previous, cut, start, k, limit, budget, cpt, soft)
  {
    hide FirstPassCost, SecondPassCost;
    var first, second := FirstFits(previous, ms, limit, budget, cpt, soft),
        SecondFits(previous, ms, limit, budget, cpt);
    var start := FirstStop(previous, ms, cut, limit, budget, cpt, soft);
    var k := SecondStop(previous, ms, start, limit, budget, cpt);
    forall j | cut <= j < start ensures FirstPassCost(previous, ms[j..], limit, cpt, soft) > budget {
      assert !first(j);
    }
    forall j | start <= j < k ensures SecondPassCost(previous, ms[..j], ms[j..], limit, cpt) > budget {
      assert !second(j);
    }
    assert start < |ms| ==> first(start);
    assert k < |ms| ==> second(k);
  }

  lemma PersistedFits(previous: string, compacted: seq<Message>, summaryMaxChars: int, budget: nat, cpt: real)
    requires cpt >= 1.0
    ensures Tokens(|Persisted(previous, compacted, SummaryLimit(summaryMaxChars, budget, cpt))|, cpt) <= budget
  {
    hide Tokens, SummaryLimit;
    SummaryFits(|Persisted(previous, compacted, SummaryLimit(summaryMaxChars, budget, cpt))|, budget, cpt,
                summaryMaxChars);
  }

  /** The promise leaves no choice: it fixes the whole result. */
  lemma CompactsUnique(p: Prepared, ms: seq<Message>, previous: string, watermark: Option<string>, maxMessages: int,
                       summaryMaxChars: int, limit: nat, budget: nat, cpt: real, soft: int)
    requires cpt >= 1.0 && limit == SummaryLimit(summaryMaxChars, budget, cpt)
    requires Compacts(p, ms, previous, watermark, maxMessages, limit, budget, cpt, soft)
    ensures p == HistoryOf(ms, previous, watermark, maxMessages, summaryMaxChars, budget, cpt, soft)
  {
    hide Summary, Mapped, Tokens, TurnCut, Persisted, FirstPassCost, SecondPassCost, ContentTokens, SummaryLimit;
    hide Stops, FirstStop, SecondStop;
    var cut := TurnCut(|ms|, maxMessages);
    var start: nat :| Stops(ms, previous, cut, start, p.compacted, limit, budget, cpt, soft);
    StopUnique(previous, ms, cut, start, p.compacted, limit, budget, cpt, soft);
    assert p.compacted > 0 ==> ms[..p.compacted][p.compacted - 1] == ms[p.compacted - 1];
  }

  lemma StopUnique(previous: string, ms: seq<Message>, cut: nat, start: nat, k: nat, limit: nat, budget: nat,
                   cpt: real, soft: int)
    requires cpt >= 1.0 && Stops(ms, previous, cut, start, k, limit, budget, cpt, soft)
    ensures start == FirstStop(previous, ms, cut, limit, budget, cpt, soft)
    ensures k == SecondStop(previous, ms, start, limit, budget, cpt)
  {
    StopsThere(previous, ms, cut, limit, budget, cpt, soft);
    hide FirstStop, SecondStop, FirstPassCost, SecondPassCost;
    var i := FirstStop(previous, ms, cut, limit, budget, cpt, soft);
    assert start == i;
    var j := SecondStop(previous, ms, start, limit, budget, cpt);
    assert k == j;
  }

  lemma NoContent(cpt: real)
    requires cpt >= 1.0
    ensures ContentTokens([], cpt) == 0
  {
  }

  /** Trimming a message for the context never makes it dearer. */
  lemma {:induction false} ViewsCostNoMore(ms: seq<Message>, cpt: real)
    requires cpt >= 1.0
    ensures ViewTokens(Mapped(ViewOf, ms), cpt) <= ContentTokens(ms, cpt)
  {
    if ms != [] {
      ViewsCostNoMore(ms[1..], cpt);
      assert Mapped(ViewOf, ms)[1..] == Mapped(ViewOf, ms[1..]);
      TokensMonotone(|ViewOf(ms[0]).content|, |ms[0].content|, cpt);
    }
  }

  /** The part of the promise that a caller who joins more text needs. */
  lemma CompactsFits(p: Prepared, ms: seq<Message>, previous: string, watermark: Option<string>,
                     maxMessages: int, limit: nat, budget: nat, cpt: real, soft: int)
    requires cpt >= 1.0 && Compacts(p, ms, previous, watermark, maxMessages, limit, budget, cpt, soft)
    ensures Fits(p, ms, watermark, limit, budget, cpt)
  {
    hide Tokens, Stops, Mapped, ContentTokens, ViewTokens, Persisted, TurnCut;
    ViewsCostNoMore(ms[p.compacted..], cpt);
    PersistedLength(previous, ms[..p.compacted], limit);
  }

  lemma PersistedLength(previous: string, compacted: seq<Message>, limit: nat)
    ensures |Persisted(previous, compacted, limit)| <= limit
  {
  }

  ghost predicate Fits(p: Prepared, ms: seq<Message>, watermark: Option<string>, limit: nat, budget: nat, cpt: real)
    requires cpt >= 1.0
  {
    && p.compacted <= |ms| && p.views == Mapped(ViewOf, ms[p.compacted..]) && |p.views| <= 24
    && p.watermark == (if p.compacted > 0 then Some(ms[p.compacted - 1].id) else watermark)
    && p.persisted == p.summary && |p.summary| <= limit
    && Tokens(|p.summary|, cpt) + ViewTokens(p.views, cpt) <= budget
  }

  lemma TokensMonotone(a: nat, b: nat, cpt: real)
    requires cpt >= 1.0 && a <= b
    ensures Tokens(a, cpt) <= Tokens(b, cpt)
  {
    TokensFit(b, cpt, Tokens(b, cpt));
    TokensFit(a, cpt, Tokens(b, cpt));
  }

  // ----- the entries are tidy lines, so bounding the old summary first is harmless

  lemma {:induction false} DecimalPlain(n: nat)
    ensures Decimal(n) != "" && forall i | 0 <= i < |Decimal(n)| :: !IsSpace(Decimal(n)[i])
  {
    if n >= 10 {
      DecimalPlain(n / 10);
      DecimalPlain(n % 10);
    }
  }

  lemma TidyAppend(a: string, b: string)
    requires Tidy(a) && Tidy(b)
    ensures Tidy(a + " " + b)
  {
    var r := a + " " + b;
    forall i | 0 <= i < |r| ensures r[i] == if i < |a| then a[i] else if i == |a| then ' ' else b[i - |a| - 1] {
    }
    assert r[0] == a[0] && r[|r| - 1] == b[|b| - 1];
  }

  lemma NumberTidy(before: string, n: nat, after: string)
    requires before != "" && after != ""
    requires forall i | 0 <= i < |before| :: !IsSpace(before[i])
    requires forall i | 0 <= i < |after| :: !IsSpace(after[i])
    ensures Tidy(before + Decimal(n) + after)
  {
    DecimalPlain(n);
    var r := before + Decimal(n) + after;
    forall i | 0 <= i < |r| ensures !IsSpace(r[i]) {
    }
  }

  lemma RoleTidy()
    ensures Tidy("User") && Tidy("Assistant") && Tidy("User:") && Tidy("Assistant:")
  {
    UserTidy();
    AssistantTidy();
    hide Tidy;
  }

  lemma UserTidy()
    ensures Tidy("User") && Tidy("User:")
  {
  }

  lemma AssistantTidy()
    ensures Tidy("Assistant") && Tidy("Assistant:")
  {
  }

  lemma LabelTidy(m: Message)
    ensures Tidy(Label(m))
  {
    hide Tidy, Decimal;
    RoleTidy();
    var role := if m.role == "user" then "User" else "Assistant";
    if m.toolCalls > 0 && m.sources > 0 {
      NumberTidy("[tools=", m.toolCalls, ",");
      NumberTidy("sources=", m.sources, "]:");
      TidyAppend(role, "[tools=" + Decimal(m.toolCalls) + ",");
      TidyAppend(role + " " + ("[tools=" + Decimal(m.toolCalls) + ","), "sources=" + Decimal(m.sources) + "]:");
    } else if m.toolCalls > 0 {
      NumberTidy("[tools=", m.toolCalls, "]:");
      TidyAppend(role, "[tools=" + Decimal(m.toolCalls) + "]:");
    } else if m.sources > 0 {
      NumberTidy("[sources=", m.sources, "]:");
      TidyAppend(role, "[sources=" + Decimal(m.sources) + "]:");
    } else {
      assert "User" + ":" == "User:" && "Assistant" + ":" == "Assistant:";
    }
  }

  /** The summary entry of an eligible message is one tidy line. */
  lemma EntryTidy(m: Message)
    requires Strip(m.content) != ""
    ensures Tidy(SummaryEntry(m))
  {
    StripBlank(m.content);
    OneSpacedIsSingle(m.content);
    LabelTidy(m);
    TidyAppend(Label(m), OneSpaced(m.content));
  }

  // ----- the limits and the estimates

  /** Of `n` messages, `k` stay verbatim within the turn limit exactly if there are so many and neither the setting nor
      24 is exceeded. */
  lemma TurnCutMeans(n: nat, maxMessages: int, k: nat)
    ensures k <= n - TurnCut(n, maxMessages) <==> k <= n && k <= 24 && (k == 0 || k <= maxMessages)
  {
  }

  /** A summary may have `n` characters exactly if that is within the setting, within 20,000, and within a third of what
      the token budget stands for. */
  lemma SummaryLimitMeans(summaryMaxChars: int, budget: nat, cpt: real, n: nat)
    requires cpt >= 1.0
    ensures n <= SummaryLimit(summaryMaxChars, budget, cpt)
            <==> n == 0 || (n <= summaryMaxChars && n <= 20000 && 3.0 * n as real <= budget as real * cpt)
  {
    assert budget as real * cpt >= 0.0;
  }

  /** Estimates of messages and views add up. */
  lemma {:induction false} EstimatesAddUp(a: seq<Message>, b: seq<Message>, cpt: real, soft: int)
    requires cpt >= 1.0
    ensures PayloadTokens(a + b, cpt, soft) == PayloadTokens(a, cpt, soft) + PayloadTokens(b, cpt, soft)
    ensures ContentTokens(a + b, cpt) == ContentTokens(a, cpt) + ContentTokens(b, cpt)
    decreases |a|
  {
    if a == [] {
      assert a + b == b;
    } else {
      hide Tokens, PayloadChars;
      assert (a + b)[1..] == a[1..] + b;
      EstimatesAddUp(a[1..], b, cpt, soft);
    }
  }

  lemma {:induction false} ViewEstimatesAddUp(a: seq<View>, b: seq<View>, cpt: real)
    requires cpt >= 1.0
    ensures ViewTokens(a + b, cpt) == ViewTokens(a, cpt) + ViewTokens(b, cpt)
    decreases |a|
  {
    if a == [] {
      assert a + b == b;
    } else {
      hide Tokens;
      assert (a + b)[1..] == a[1..] + b;
      ViewEstimatesAddUp(a[1..], b, cpt);
    }
  }

  /** One message fits `n` tokens in the first loop exactly if its content and, of its tool calls and of its sources,
      as much as counts of each, fit what the tokens stand for; in the second loop only the content counts. */
  lemma EstimateMeans(m: Message, cpt: real, soft: nat, tools: nat, sources: nat, n: nat)
    requires cpt >= 1.0
    requires if m.toolCalls == 0 then tools == 0 else tools <= m.toolChars && tools <= soft
                                                       && (tools == m.toolChars || tools == soft)
    requires if m.sources == 0 then sources == 0 else sources <= m.sourceChars && sources <= soft
                                                       && (sources == m.sourceChars || sources == soft)
    ensures PayloadTokens([m], cpt, soft) <= n <==> (|m.content| + tools + sources) as real <= n as real * cpt
    ensures ContentTokens([m], cpt) <= n <==> |m.content| as real <= n as real * cpt
  {
    assert [m][1..] == [];
    TokensFit(|m.content| + tools + sources, cpt, n);
    TokensFit(|m.content|, cpt, n);
    hide Tokens;
    assert PayloadChars(m, soft) == tools + sources;
    NoEstimates(cpt, soft);
  }

  lemma NoEstimates(cpt: real, soft: int)
    requires cpt >= 1.0
    ensures PayloadTokens([], cpt, soft) == 0 == ContentTokens([], cpt)
  {
  }

  // ----- what an entry and a view say

  /** The number that decimal digits stand for. */
  function NumberOf(digits: string): nat
    requires forall i | 0 <= i < |digits| :: '0' <= digits[i] <= '9'
  {
    if digits == "" then 0
    else 10 * NumberOf(digits[..|digits| - 1]) + (digits[|digits| - 1] as int - '0' as int)
  }

  /** `str(n)`: digits that stand for `n`, without a leading zero. */
  lemma {:induction false} DecimalReads(n: nat)
    ensures Decimal(n) != "" && (forall i | 0 <= i < |Decimal(n)| :: '0' <= Decimal(n)[i] <= '9')
    ensures NumberOf(Decimal(n)) == n
    ensures n > 0 ==> Decimal(n)[0] != '0'
  {
    if n >= 10 {
      DecimalReads(n / 10);
      DecimalReads(n % 10);
      var a, b := Decimal(n / 10), Decimal(n % 10);
      OneDigit(n % 10);
      assert (a + b)[..|a|] == a && (a + b)[|a|] == b[0];
    } else {
      OneDigit(n);
    }
  }

  lemma OneDigit(n: nat)
    requires n < 10
    ensures |Decimal(n)| == 1 && '0' <= Decimal(n)[0] <= '9' && Decimal(n)[0] as int == '0' as int + n
    ensures Decimal(n) == [Decimal(n)[0]] && NumberOf(Decimal(n)) == n
  {
    assert Decimal(n)[..0] == "";
  }

  /** The words that head an entry: who spoke, and how many tool calls and sources the message has, if any. */
  ghost function Heading(m: Message): seq<string> {
    var role := if m.role == "user" then "User" else "Assistant";
    var tools, sources := "tools=" + Decimal(m.toolCalls), "sources=" + Decimal(m.sources);
    if m.toolCalls == 0 && m.sources == 0 then [role + ":"]
    else if m.sources == 0 then [role, "[" + tools + "]:"]
    else if m.toolCalls == 0 then [role, "[" + sources + "]:"]
    else [role, "[" + tools + ",", sources + "]:"]
  }

  predicate NoSpace(s: string) {
    s != "" && forall c | c in s :: !IsSpace(c)
  }

  lemma NumberWord(before: string, n: nat, after: string)
    requires NoSpace(before) && NoSpace(after)
    ensures NoSpace(before + Decimal(n) + after) && Words(before + Decimal(n) + after) == [before + Decimal(n) + after]
  {
    DecimalPlain(n);
    var w := before + Decimal(n) + after;
    forall c | c in w ensures !IsSpace(c) {
      assert c in before || c in Decimal(n) || c in after;
    }
    OneWord(w);
  }

  lemma TwoWords(a: string, b: string)
    ensures Words(a + " " + b) == Words(a) + Words(b)
  {
    WordsApart(a, ' ', b);
    assert a + [' '] + b == a + " " + b;
  }

  lemma RoleWords()
    ensures Words("User") == ["User"] && Words("Assistant") == ["Assistant"]
    ensures Words("User:") == ["User:"] && Words("Assistant:") == ["Assistant:"]
  {
    hide Words;
    OneWord("User");
    OneWord("User:");
    OneWord("Assistant");
    OneWord("Assistant:");
  }

  lemma LabelWords(m: Message)
    ensures Words(Label(m)) == Heading(m)
  {
    hide Words, Decimal;
    var role := if m.role == "user" then "User" else "Assistant";
    RoleWords();
    if m.toolCalls > 0 && m.sources > 0 {
      NumberWord("[tools=", m.toolCalls, ",");
      NumberWord("sources=", m.sources, "]:");
      var tools, sources := "[tools=" + Decimal(m.toolCalls) + ",", "sources=" + Decimal(m.sources) + "]:";
      TwoWords(role, tools);
      TwoWords(role + " " + tools, sources);
      assert "[" + ("tools=" + Decimal(m.toolCalls)) + "," == tools;
      assert ("sources=" + Decimal(m.sources)) + "]:" == sources;
    } else if m.toolCalls > 0 {
      NumberWord("[tools=", m.toolCalls, "]:");
      TwoWords(role, "[tools=" + Decimal(m.toolCalls) + "]:");
      assert "[" + ("tools=" + Decimal(m.toolCalls)) + "]:" == "[tools=" + Decimal(m.toolCalls) + "]:";
    } else if m.sources > 0 {
      NumberWord("[sources=", m.sources, "]:");
      TwoWords(role, "[sources=" + Decimal(m.sources) + "]:");
      assert "[" + ("sources=" + Decimal(m.sources)) + "]:" == "[sources=" + Decimal(m.sources) + "]:";
    } else {
      assert "User" + ":" == "User:" && "Assistant" + ":" == "Assistant:";
    }
  }

  /** An entry is its heading followed by the words of the message, all of them and in order. */
  lemma EntrySays(m: Message)
    ensures Words(SummaryEntry(m)) == Heading(m) + Words(m.content)
  {
    hide Words, Label, OneSpaced, Heading;
    TwoWords(Label(m), OneSpaced(m.content));
    LabelWords(m);
    OneSpacedKeepsWords(m.content);
  }

  /** What messages say, one after the other. */
  ghost function Told(ms: seq<Message>): seq<string> {
    if ms == [] then [] else Heading(ms[0]) + Words(ms[0].content) + Told(ms[1..])
  }

  /** The joined entries hold what the messages say. */
  lemma {:induction false} EntriesTell(ms: seq<Message>)
    ensures Words(JoinLines(Mapped(SummaryEntry, ms))) == Told(ms)
  {
    hide SummaryEntry, Words, Heading;
    if ms == [] {
      NoWords("");
    } else {
      var lines := Mapped(SummaryEntry, ms);
      EntrySays(ms[0]);
      assert lines[1..] == Mapped(SummaryEntry, ms[1..]);
      EntriesTell(ms[1..]);
      if |ms| > 1 {
        WordsApart(lines[0], '\n', JoinLines(lines[1..]));
        assert lines[0] + "\n" + JoinLines(lines[1..]) == lines[0] + ['\n'] + JoinLines(lines[1..]);
      } else {
        assert Told(ms[1..]) == [];
      }
    }
  }

  /** The message as it stands in the context: the first 20,000 characters of its stripped text. */
  predicate ViewTells(v: View, m: Message) {
    && v.id == m.id && v.role == m.role && v.content <= Strip(m.content)
    && |v.content| == (if |Strip(m.content)| <= 20000 then |Strip(m.content)| else 20000)
    && (|Strip(m.content)| <= 20000 ==> Words(v.content) == Words(m.content))
  }

  lemma ViewIsTold(m: Message)
    ensures ViewTells(ViewOf(m), m)
  {
    WordsStrip(m.content);
    hide Words, Strip;
  }

  /** If the old summary is what bounding `lines` to no less than the limit leaves, up to the space a cut line may
      begin with, the persisted summary is what bounding them together with all compacted messages leaves. */
  lemma PersistedIsRecentLines(previous: string, lines: seq<string>, before: nat, compacted: seq<Message>, limit: nat)
    requires AllTidy(lines) && limit <= before && Strip(previous) == Strip(Fitting(lines, before))
    requires forall i | 0 <= i < |compacted| :: Strip(compacted[i].content) != ""
    ensures var all := lines + Mapped(SummaryEntry, compacted);
            && Strip(Persisted(previous, compacted, limit)) == Strip(Fitting(all, limit))
            && (compacted != [] && limit > 0 ==> Persisted(previous, compacted, limit) == Fitting(all, limit))
  {
    hide Summary, Fitting, Strip, Tidy, SummaryEntry, IsSpace;
    var entries := Mapped(SummaryEntry, compacted);
    EntriesTidy(compacted);
    BoundedAgain(previous, lines, before, limit);
    var bounded := Summary(previous, [], limit);
    if compacted == [] {
      assert lines + entries == lines && entries == [];
      BoundedAgain(bounded, lines, limit, limit);
    } else if limit > 0 {
      BoundedExtended(bounded, lines, entries, limit);
    } else {
      NothingFits(bounded, entries, lines + entries);
    }
  }

  lemma EntriesTidy(ms: seq<Message>)
    requires forall i | 0 <= i < |ms| :: Strip(ms[i].content) != ""
    ensures AllTidy(Mapped(SummaryEntry, ms))
  {
    hide Tidy, Strip, SummaryEntry;
    forall i | 0 <= i < |ms| ensures Tidy(Mapped(SummaryEntry, ms)[i]) {
      EntryTidy(ms[i]);
    }
  }

  /** Whatever the limits were: a summary of the last lines, persisted again, is of the last lines of all. */
  lemma PersistedTail(previous: string, tail: seq<string>, lines: seq<string>, compacted: seq<Message>, limit: nat)
    returns (next: seq<string>)
    requires AllTidy(tail) && TailOf(tail, lines) && Strip(previous) == JoinLines(tail)
    requires forall i | 0 <= i < |compacted| :: Strip(compacted[i].content) != ""
    ensures AllTidy(next) && TailOf(next, lines + Mapped(SummaryEntry, compacted))
    ensures Strip(Persisted(previous, compacted, limit)) == JoinLines(next)
  {
    hide Summary, Strip, Tidy, SummaryEntry, IsSpace, JoinLines, TailOf, Mapped;
    EntriesTidy(compacted);
    var bounded := BoundedTail(previous, tail, lines, [], limit);
    assert lines + [] == lines;
    next := BoundedTail(Summary(previous, [], limit), bounded, lines, Mapped(SummaryEntry, compacted), limit);
  }

  lemma NothingFits(existing: string, entries: seq<string>, lines: seq<string>)
    ensures Summary(existing, entries, 0) == "" == Fitting(lines, 0)
  {
  }
}
