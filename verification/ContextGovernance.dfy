/** Priority assembly of critical context (app/mneme/memoria/context_governance.py).
    `sanitize` stands for `sanitize_context_text`; every result holds for any such function. */
module ContextGovernance {
  import opened Sorting
  import opened Text

  datatype SourceType =
    | SystemPolicy | UserDirective | Approval | ToolFailure | Citation
    | HistorySummary | HistoryMessage | InferredMemory

  datatype Source = Source(id: string, kind: SourceType, content: string)

  datatype Outcome = Preserved | Truncated | Dropped

  datatype Reason = Empty | Exhausted | Bounded | ByPolicy

  datatype Decision = Decision(id: string, kind: SourceType, outcome: Outcome, inputChars: nat, outputChars: nat,
                               reason: Reason)

  /** The state of the assembly loop. */
  datatype Assembly = Assembly(lines: seq<string>, decisions: seq<Decision>, remaining: nat)

  const MAX_CONTEXT_CHARS := 20000

  function Priority(t: SourceType): nat {
    match t
    case SystemPolicy => 0
    case UserDirective => 1
    case Approval => 2
    case Citation => 3
    case ToolFailure => 4
    case InferredMemory => 5
    case HistoryMessage => 6
    case HistorySummary => 7
  }

  function CharLimit(t: SourceType): nat {
    match t
    case SystemPolicy => 2000
    case UserDirective => 2000
    case Approval => 800
    case Citation => 256
    case ToolFailure => 512
    case InferredMemory => 1000
    case HistoryMessage => 2000
    case HistorySummary => 4000
  }

  function TypeName(t: SourceType): string {
    match t
    case SystemPolicy => "system_policy"
    case UserDirective => "user_directive"
    case Approval => "approval"
    case Citation => "citation"
    case ToolFailure => "tool_failure"
    case InferredMemory => "inferred_memory"
    case HistoryMessage => "history_message"
    case HistorySummary => "history_summary"
  }

  predicate MoreUrgent(x: Source, y: Source) {
    Priority(x.kind) < Priority(y.kind)
  }

  /** Sources by (priority, position): the sort is stable, so positions break ties. */
  function Ordering(sources: seq<Source>): seq<Source> {
    Sort(sources, MoreUrgent)
  }

  // ----- token estimates

  function Clamp(cpt: real): (r: real)
    ensures 1.0 <= r <= 8.0
  {
    if cpt < 1.0 then 1.0 else if cpt > 8.0 then 8.0 else cpt
  }

  function Ceil(x: real): int {
    -((-x).Floor)
  }

  /** Estimated tokens of a text of `chars` characters. */
  function Tokens(chars: nat, cpt: real): (r: nat)
    requires cpt >= 1.0
    ensures chars > 0 ==> r >= 1
  {
    if chars == 0 then 0
    else
      assert chars as real / cpt > 0.0;
      Ceil(chars as real / cpt)
  }

  lemma TokensFit(chars: nat, cpt: real, budget: nat)
    requires cpt >= 1.0
    ensures Tokens(chars, cpt) <= budget <==> chars as real <= budget as real * cpt
  {
    var q := chars as real / cpt;
    assert q * cpt == chars as real;
    if q <= budget as real {
      assert q * cpt <= budget as real * cpt;
    } else {
      assert q * cpt > budget as real * cpt;
    }
  }

  function CharBudget(budget: nat, cpt: real): (r: nat)
    requires cpt >= 1.0
    ensures r <= MAX_CONTEXT_CHARS
  {
    var chars := (budget as real * cpt).Floor;
    if chars < MAX_CONTEXT_CHARS then (if chars < 0 then 0 else chars) else MAX_CONTEXT_CHARS
  }

  // ----- one step of the loop

  function Prefix(s: Source): string {
    "[" + TypeName(s.kind) + ":" + s.id + "] "
  }

  function Monus(x: int, y: int): nat {
    if x >= y then x - y else 0
  }

  function Take(s: string, n: nat): (r: string)
    ensures |r| <= n && |r| <= |s| && r <= s
  {
    if n >= |s| then s else s[..n]
  }

  function BoundedContent(sanitize: string -> string, s: Source): string {
    Take(sanitize(s.content), Monus(CharLimit(s.kind), |Prefix(s)|))
  }

  /** The line a source contributes when nothing else limits it; "" when no content is left. */
  function Candidate(sanitize: string -> string, s: Source): string {
    if BoundedContent(sanitize, s) == "" then "" else Prefix(s) + BoundedContent(sanitize, s)
  }

  function Separator(a: Assembly): nat {
    if a.lines == [] then 0 else 1
  }

  /** What is emitted for `s`: as much of the candidate as fits, unless that is no more than its prefix. */
  function Output(sanitize: string -> string, a: Assembly, s: Source): string {
    var out := Take(Candidate(sanitize, s), Monus(a.remaining, Separator(a)));
    if |out| <= |Prefix(s)| then "" else out
  }

  function Decide(sanitize: string -> string, s: Source, out: string): Decision {
    var clean := sanitize(s.content);
    if out == "" then Decision(s.id, s.kind, Dropped, |s.content|, 0, if clean == "" then Empty else Exhausted)
    else if |out| < |Candidate(sanitize, s)| || |BoundedContent(sanitize, s)| < |clean| then
      Decision(s.id, s.kind, Truncated, |s.content|, |out|, Bounded)
    else Decision(s.id, s.kind, Preserved, |s.content|, |out|, ByPolicy)
  }

  function Step(sanitize: string -> string, a: Assembly, s: Source): Assembly {
    var out := Output(sanitize, a, s);
    Assembly(if out == "" then a.lines else a.lines + [out],
             a.decisions + [Decide(sanitize, s, out)],
             if out == "" then a.remaining else a.remaining - |out| - Separator(a))
  }

  /** All sources of an ordered list, from state `a`. */
  function Run(sanitize: string -> string, a: Assembly, ordered: seq<Source>): Assembly
    decreases |ordered|
  {
    if ordered == [] then a else Run(sanitize, Step(sanitize, a, ordered[0]), ordered[1..])
  }

  function Start(chars: nat): Assembly {
    Assembly([], [], chars)
  }

  lemma {:induction false} RunAppend(sanitize: string -> string, a: Assembly, xs: seq<Source>, ys: seq<Source>)
    ensures Run(sanitize, a, xs + ys) == Run(sanitize, Run(sanitize, a, xs), ys)
    decreases |xs|
  {
    if xs == [] {
      assert xs + ys == ys;
    } else {
      assert (xs + ys)[1..] == xs[1..] + ys;
      RunAppend(sanitize, Step(sanitize, a, xs[0]), xs[1..], ys);
    }
  }

  /** The treatment of one source: what is emitted for it, and the decision recorded. */
  method Consider(sanitize: string -> string, source: Source, ghost before: Assembly, first: bool, remaining: nat)
    returns (output: string, decision: Decision)
    requires first == (before.lines == []) && remaining == before.remaining
    ensures output == Output(sanitize, before, source) && decision == Decide(sanitize, source, output)
  {
    var clean := sanitize(source.content);
    var prefix := Prefix(source);
    var bounded := Take(clean, Monus(CharLimit(source.kind), |prefix|));
    var candidate := if bounded == "" then "" else prefix + bounded;
    var available := Monus(remaining, if first then 0 else 1);
    output := Take(candidate, available);
    var outcome, reason;
    if output == "" || |output| <= |prefix| {
      outcome, output, reason := Dropped, "", if clean == "" then Empty else Exhausted;
    } else if |output| < |candidate| || |bounded| < |clean| {
      outcome, reason := Truncated, Bounded;
    } else {
      outcome, reason := Preserved, ByPolicy;
    }
    decision := Decision(source.id, source.kind, outcome, |source.content|, |output|, reason);
  }

  lemma StepUnfolds(sanitize: string -> string, a: Assembly, s: Source)
    ensures var out := Output(sanitize, a, s);
            && Step(sanitize, a, s)
               == Assembly(if out == "" then a.lines else a.lines + [out], a.decisions + [Decide(sanitize, s, out)],
                           if out == "" then a.remaining else a.remaining - |out| - Separator(a))
            && (out == "" || |out| + Separator(a) <= a.remaining)
  {
    hide Decide, Candidate;
  }

  lemma AssemblyTells(sanitize: string -> string, sources: seq<Source>, chars: nat)
    ensures var a := Run(sanitize, Start(chars), Ordering(sources));
            && |JoinLines(a.lines)| <= chars && DecidesOn(a.decisions, 0, Ordering(sources))
            && forall i, j | 0 <= i < j < |a.decisions| :: NotAfter(a.decisions[i].kind, a.decisions[j].kind)
  {
    hide NotAfter, Run, JoinLines;
    RunAccounts(sanitize, Start(chars), Ordering(sources));
    OrderedByType(sources);
    NothingJoined();
    var d, ordered := Run(sanitize, Start(chars), Ordering(sources)).decisions, Ordering(sources);
    hide Ordering;
    forall i | 0 <= i < |d| ensures d[i].kind == ordered[i].kind {
      assert ordered[i] == ordered[i] && d[0 + i].kind == ordered[i].kind;
    }
  }

  lemma NothingJoined()
    ensures JoinLines([]) == ""
  {
  }

  /** `assemble_critical_context`: the loop, its text and its decisions. */
  method AssembleCriticalContext(sanitize: string -> string, sources: seq<Source>, tokenBudget: int,
                                 charsPerToken: real)
    returns (text: string, decisions: seq<Decision>)
    ensures var a := Run(sanitize, Start(CharBudget(Monus(tokenBudget, 0), Clamp(charsPerToken))), Ordering(sources));
            text == JoinLines(a.lines) && decisions == a.decisions
    ensures DecidesOn(decisions, 0, Ordering(sources)) && |text| <= 20000
    ensures forall i, j | 0 <= i < j < |decisions| :: NotAfter(decisions[i].kind, decisions[j].kind)
  {
    hide NotAfter, DecidesOn, Step, Output, Decide, Ordering, JoinLines, CharBudget;
    var ordered := Ordering(sources);
    var remaining := CharBudget(Monus(tokenBudget, 0), Clamp(charsPerToken));
    ghost var start := Start(remaining);
    var lines: seq<string> := [];
    decisions := [];
    for i := 0 to |ordered|
      invariant remaining >= 0 && Assembly(lines, decisions, remaining) == Run(sanitize, start, ordered[..i])
    {
      var source := ordered[i];
      TakeOneMore(ordered, i);
      RunAppend(sanitize, start, ordered[..i], [source]);
      ghost var before := Assembly(lines, decisions, remaining);
      var output, decision := Consider(sanitize, source, before, lines == [], remaining);
      if output != "" {
        remaining := remaining - |output| - if lines == [] then 0 else 1;
        lines := lines + [output];
      }
      decisions := decisions + [decision];
      StepUnfolds(sanitize, before, source);
      assert Assembly(lines, decisions, remaining) == Step(sanitize, before, source);
    }
    assert ordered[..|ordered|] == ordered;
    AssemblyTells(sanitize, sources, start.remaining);
    text := JoinLines(lines);
  }

  // ----- properties

  lemma {:induction false} JoinSnoc(lines: seq<string>, l: string)
    ensures JoinLines(lines + [l]) == if lines == [] then l else JoinLines(lines) + "\n" + l
  {
    if lines == [] {
      assert lines + [l] == [l];
    } else {
      JoinAppend(lines, [l]);
    }
  }

  /** Each step spends exactly the characters it adds, its line and the separator before it. */
  lemma StepAccounts(sanitize: string -> string, a: Assembly, s: Source)
    ensures var b := Step(sanitize, a, s);
            && |JoinLines(b.lines)| + b.remaining == |JoinLines(a.lines)| + a.remaining
            && a.lines <= b.lines && a.decisions <= b.decisions
            && (a.lines != [] ==> b.lines != [])
  {
    var out := Output(sanitize, a, s);
    JoinSnoc(a.lines, out);
  }

  /** The decisions from position `from` on are about `ordered`, one each and in order. */
  ghost predicate DecidesOn(decisions: seq<Decision>, from: nat, ordered: seq<Source>) {
    && |decisions| == from + |ordered|
    && forall i | 0 <= i < |ordered| :: && decisions[from + i].id == ordered[i].id
                                        && decisions[from + i].kind == ordered[i].kind
                                        && decisions[from + i].inputChars == |ordered[i].content|
  }

  lemma StepDecides(sanitize: string -> string, a: Assembly, s: Source)
    ensures DecidesOn(Step(sanitize, a, s).decisions, |a.decisions|, [s])
  {
  }

  lemma DecidesOnNext(first: seq<Decision>, all: seq<Decision>, from: nat, ordered: seq<Source>)
    requires ordered != [] && first <= all && DecidesOn(first, from, [ordered[0]])
             && DecidesOn(all, from + 1, ordered[1..])
    ensures DecidesOn(all, from, ordered)
  {
    assert [ordered[0]][0] == ordered[0] && all[from + 0] == first[from + 0];
    forall i | 0 <= i < |ordered|
      ensures all[from + i].id == ordered[i].id && all[from + i].kind == ordered[i].kind
              && all[from + i].inputChars == |ordered[i].content|
    {
      if i > 0 {
        assert ordered[1..][i - 1] == ordered[i] && all[from + 1 + (i - 1)] == all[from + i];
      }
    }
  }

  /** Characters spent plus characters left is the initial budget; every source gets one decision, in order. */
  lemma {:induction false} RunAccounts(sanitize: string -> string, a: Assembly, ordered: seq<Source>)
    ensures var b := Run(sanitize, a, ordered);
            && |JoinLines(b.lines)| + b.remaining == |JoinLines(a.lines)| + a.remaining
            && a.lines <= b.lines && a.decisions <= b.decisions
            && DecidesOn(b.decisions, |a.decisions|, ordered)
    decreases |ordered|
  {
    if ordered != [] {
      hide DecidesOn, JoinLines, Step;
      var next := Step(sanitize, a, ordered[0]);
      StepAccounts(sanitize, a, ordered[0]);
      StepDecides(sanitize, a, ordered[0]);
      RunAccounts(sanitize, next, ordered[1..]);
      assert |next.decisions| == |a.decisions| + 1 by {
        StepAddsOne(sanitize, a, ordered[0]);
      }
      DecidesOnNext(next.decisions, Run(sanitize, a, ordered).decisions, |a.decisions|, ordered);
    }
  }

  lemma StepAddsOne(sanitize: string -> string, a: Assembly, s: Source)
    ensures |Step(sanitize, a, s).decisions| == |a.decisions| + 1
  {
  }

  /** The assembled text fits the character budget, so its estimate fits the token budget. */
  lemma CriticalWithinBudget(sanitize: string -> string, ordered: seq<Source>, budget: nat, cpt: real)
    requires cpt >= 1.0
    ensures var text := JoinLines(Run(sanitize, Start(CharBudget(budget, cpt)), ordered).lines);
            |text| <= MAX_CONTEXT_CHARS && Tokens(|text|, cpt) <= budget
  {
    RunAccounts(sanitize, Start(CharBudget(budget, cpt)), ordered);
    var text := JoinLines(Run(sanitize, Start(CharBudget(budget, cpt)), ordered).lines);
    assert |text| <= CharBudget(budget, cpt);
    assert budget as real * cpt >= 0.0;
    assert CharBudget(budget, cpt) as real <= budget as real * cpt;
    TokensFit(|text|, cpt, budget);
  }

  /** Adding one source anywhere leaves every source ordered before it with the same decision and the same line. */
  lemma LaterSourceIsInvisible(sanitize: string -> string, front: seq<Source>, extra: Source, back: seq<Source>,
                               chars: nat)
    returns (n: nat)
    ensures n <= |front| + |back|
    ensures Ordering(front + [extra] + back) == With(Ordering(front + back), n, extra)
    ensures forall i | 0 <= i < n :: Priority(Ordering(front + back)[i].kind) <= Priority(extra.kind)
    ensures forall i | n <= i < |front| + |back| :: Priority(extra.kind) <= Priority(Ordering(front + back)[i].kind)
    ensures var was := Run(sanitize, Start(chars), Ordering(front + back));
            var now := Run(sanitize, Start(chars), Ordering(front + [extra] + back));
            var kept := Run(sanitize, Start(chars), Ordering(front + back)[..n]);
            && n <= |was.decisions| && n <= |now.decisions| && now.decisions[..n] == was.decisions[..n]
            && kept.lines <= was.lines && kept.lines <= now.lines
  {
    n := SortOneMore(front, extra, back, MoreUrgent);
    InsertedRun(sanitize, Ordering(front + back), n, extra, Start(chars));
  }

  lemma InsertedRun(sanitize: string -> string, ordered: seq<Source>, n: nat, extra: Source, a: Assembly)
    requires n <= |ordered| && a.decisions == []
    ensures var was := Run(sanitize, a, ordered);
            var now := Run(sanitize, a, With(ordered, n, extra));
            var kept := Run(sanitize, a, ordered[..n]);
            && n <= |was.decisions| && n <= |now.decisions| && now.decisions[..n] == was.decisions[..n]
            && kept.lines <= was.lines && kept.lines <= now.lines
  {
    hide Run, JoinLines, With;
    var front, back := ordered[..n], ordered[n..];
    var kept := Run(sanitize, a, front);
    assert ordered == front + back;
    WithSlices(ordered, n, extra);
    RunAppend(sanitize, a, front, back);
    RunAppend(sanitize, a, front, [extra] + back);
    RunAccounts(sanitize, a, front);
    RunAccounts(sanitize, kept, back);
    RunAccounts(sanitize, kept, [extra] + back);
  }

  /** Once a kept source is cut by the global budget, every later source is dropped and the text stays as it is. */
  lemma {:induction false} NothingAfterCut(sanitize: string -> string, a: Assembly, s: Source, later: seq<Source>)
    requires Output(sanitize, a, s) != "" && |Output(sanitize, a, s)| < |Candidate(sanitize, s)|
    ensures var b := Step(sanitize, a, s);
            var c := Run(sanitize, b, later);
            && b.remaining == 0 && c.lines == b.lines && AllDropped(c.decisions, |b.decisions|)
  {
    ExhaustedDropsAll(sanitize, Step(sanitize, a, s), later);
  }

  /** All decisions from position `from` on drop their source. */
  ghost predicate AllDropped(decisions: seq<Decision>, from: nat) {
    forall i | from <= i < |decisions| :: decisions[i].outcome == Dropped && decisions[i].outputChars == 0
  }

  lemma {:induction false} ExhaustedDropsAll(sanitize: string -> string, b: Assembly, later: seq<Source>)
    requires b.remaining == 0
    ensures var c := Run(sanitize, b, later);
            && c.lines == b.lines && b.decisions <= c.decisions && AllDropped(c.decisions, |b.decisions|)
    decreases |later|
  {
    if later != [] {
      hide Step;
      ExhaustedDrops(sanitize, b, later[0]);
      ExhaustedDropsAll(sanitize, Step(sanitize, b, later[0]), later[1..]);
    }
  }

  lemma ExhaustedDrops(sanitize: string -> string, b: Assembly, s: Source)
    requires b.remaining == 0
    ensures var d := Step(sanitize, b, s);
            && d.remaining == 0 && d.lines == b.lines && |d.decisions| == |b.decisions| + 1
            && b.decisions <= d.decisions
            && d.decisions[|b.decisions|].outcome == Dropped && d.decisions[|b.decisions|].outputChars == 0
  {
  }

  lemma TakeBeyond(p: string, x: string, n: nat)
    requires |p| < n
    ensures Take(p + x, n) == p + Take(x, n - |p|)
  {
  }

  /** What is emitted is the prefix and some sanitised content. */
  lemma OutputSplits(sanitize: string -> string, a: Assembly, s: Source) returns (x: string)
    requires Output(sanitize, a, s) != ""
    ensures Output(sanitize, a, s) == Prefix(s) + x && x != ""
            && x <= BoundedContent(sanitize, s) <= sanitize(s.content)
    ensures Candidate(sanitize, s) == Prefix(s) + BoundedContent(sanitize, s)
  {
    hide Prefix, BoundedContent, Take;
    var n := Monus(a.remaining, Separator(a));
    var p, b := Prefix(s), BoundedContent(sanitize, s);
    BoundedIsPrefix(sanitize, s);
    assert Output(sanitize, a, s) == Take(Candidate(sanitize, s), n);
    TakeBeyond(p, b, n);
    x := Take(b, n - |p|);
  }

  lemma BoundedIsPrefix(sanitize: string -> string, s: Source)
    ensures BoundedContent(sanitize, s) <= sanitize(s.content)
  {
    hide Prefix, CharLimit;
  }

  lemma BehindPrefix(p: string, x: string, y: string)
    requires x <= y && x != ""
    ensures p < p + x <= p + y && (p + x == p + y <==> x == y) && (p + x < p + y <==> |x| < |y|) && (p + x)[|p|..] == x
  {
    assert (p + x)[|p|..] == x && (p + y)[|p|..] == y;
    assert y == x + y[|x|..];
    assert p + y == (p + x) + y[|x|..];
  }

  /** The decision tells what became of a source: dropped means no line; preserved means the whole sanitised content
      is there; truncated means a proper beginning of it is. The recorded size is that of the line. */
  lemma DecisionTellsOutcome(sanitize: string -> string, a: Assembly, s: Source)
    ensures var out := Output(sanitize, a, s);
            var d := Decide(sanitize, s, out);
            && d.outputChars == |out|
            && (d.outcome == Dropped <==> out == "")
            && (d.outcome == Preserved <==> out == Prefix(s) + sanitize(s.content) && sanitize(s.content) != "")
            && (d.outcome == Truncated <==> Prefix(s) < out < Prefix(s) + sanitize(s.content))
            && (d.reason == Empty <==> sanitize(s.content) == "")
            && (d.reason == Exhausted <==> d.outcome == Dropped && sanitize(s.content) != "")
            && (d.reason == Bounded <==> d.outcome == Truncated) && (d.reason == ByPolicy <==> d.outcome == Preserved)
  {
    hide Output, Prefix, BoundedContent, Candidate;
    var out, p, clean := Output(sanitize, a, s), Prefix(s), sanitize(s.content);
    if out != "" {
      var x := OutputSplits(sanitize, a, s);
      BehindPrefix(p, x, clean);
    } else {
      PrefixInhabited(s);
    }
  }

  lemma PrefixInhabited(s: Source)
    ensures Prefix(s) != ""
  {
  }

  /** A kept line carries its prefix and some content and respects the limit of its type. */
  lemma KeptLineShape(sanitize: string -> string, a: Assembly, s: Source)
    ensures var out := Output(sanitize, a, s);
            out != "" ==> Prefix(s) < out && |out| <= CharLimit(s.kind) && out[|Prefix(s)|..] <= sanitize(s.content)
  {
    hide Output, Prefix, Candidate, CharLimit;
    if Output(sanitize, a, s) != "" {
      var x := OutputSplits(sanitize, a, s);
      BehindPrefix(Prefix(s), x, BoundedContent(sanitize, s));
    }
  }

  // ----- which source comes first, and how much of it is kept

  /** The types of sources, the most important first. */
  const KINDS: seq<SourceType> := [SystemPolicy, UserDirective, Approval, Citation, ToolFailure, InferredMemory,
                                   HistoryMessage, HistorySummary]

  /** Type `x` is `y` or more important. */
  predicate NotAfter(x: SourceType, y: SourceType) {
    exists i, j :: 0 <= i <= j < |KINDS| && KINDS[i] == x && KINDS[j] == y
  }

  function OfKind(k: SourceType): Source -> bool {
    (s: Source) => s.kind == k
  }

  lemma PriorityIsPlace(x: SourceType, y: SourceType)
    ensures KINDS[Priority(x)] == x
    ensures NotAfter(x, y) <==> Priority(x) <= Priority(y)
  {
    assert KINDS[Priority(x)] == x && KINDS[Priority(y)] == y;
    forall i | 0 <= i < |KINDS| ensures Priority(KINDS[i]) == i {
    }
  }

  lemma UrgencyOrder()
    ensures WeakOrder(MoreUrgent)
  {
  }

  /** Sources are ordered by type, and those of one type stay in the order in which they were given. */
  lemma OrderedByType(sources: seq<Source>)
    ensures multiset(Ordering(sources)) == multiset(sources)
    ensures forall i, j | 0 <= i < j < |Ordering(sources)| ::
              NotAfter(Ordering(sources)[i].kind, Ordering(sources)[j].kind)
    ensures forall k :: Filter(OfKind(k), Ordering(sources)) == Filter(OfKind(k), sources)
  {
    hide NotAfter, Filter, Priority;
    UrgencyOrder();
    SortOrders(sources, MoreUrgent);
    var ordered := Ordering(sources);
    forall i, j | 0 <= i < j < |ordered| ensures NotAfter(ordered[i].kind, ordered[j].kind) {
      PriorityIsPlace(ordered[i].kind, ordered[j].kind);
    }
    forall k ensures Filter(OfKind(k), ordered) == Filter(OfKind(k), sources) {
      SameKindStays(sources, k);
    }
  }

  lemma SameKindStays(sources: seq<Source>, k: SourceType)
    ensures Filter(OfKind(k), Ordering(sources)) == Filter(OfKind(k), sources)
  {
    UrgencyOrder();
    SortFilter(OfKind(k), sources, MoreUrgent);
    var same := Filter(OfKind(k), sources);
    assert forall s | s in same :: s.kind == k;
    EquallyUrgent(same);
  }

  lemma {:induction false} EquallyUrgent(sources: seq<Source>)
    requires forall x, y | x in sources && y in sources :: x.kind == y.kind
    ensures Sort(sources, MoreUrgent) == sources
  {
    if sources != [] {
      EquallyUrgent(sources[1..]);
      assert sources == [sources[0]] + sources[1..];
      assert forall x | x in sources[1..] :: x in sources;
      assert sources[0] in sources;
      InsertInFront(sources[0], sources[1..], MoreUrgent);
    }
  }

  function Least(x: nat, y: nat): nat {
    if x <= y then x else y
  }

  /** A source keeps as much of its line as its type allows and the budget has room for; it is dropped exactly if that
      would be none of its content. */
  lemma LineIsLongest(sanitize: string -> string, a: Assembly, s: Source)
    ensures var out, whole := Output(sanitize, a, s), Prefix(s) + sanitize(s.content);
            var room := Least(CharLimit(s.kind), Monus(a.remaining, if a.lines == [] then 0 else 1));
            && (out == "" <==> sanitize(s.content) == "" || room <= |Prefix(s)|)
            && (out != "" ==> out <= whole && |out| == Least(room, |whole|))
  {
    hide Prefix, CharLimit;
    var p, clean, limit := Prefix(s), sanitize(s.content), CharLimit(s.kind);
    var bounded := BoundedContent(sanitize, s);
    PrefixInhabited(s);
    var n := Monus(a.remaining, Separator(a));
    if bounded == "" {
      assert Candidate(sanitize, s) == "";
      assert clean == "" || limit <= |p|;
    } else {
      assert |bounded| == Least(limit - |p|, |clean|);
      PartOfWhole(p, bounded, clean, n);
    }
  }

  lemma PartOfWhole(p: string, x: string, y: string, n: nat)
    requires x <= y
    ensures Take(p + x, n) <= p + y && |Take(p + x, n)| == Least(n, |p| + |x|)
  {
    assert p + y == (p + x) + y[|x|..];
  }

  /** A source that is longer than any limit, first in an ample budget, fills the limit of its type, behind a prefix
      that names its type and its identifier. */
  lemma LongSourceFillsLimit(sanitize: string -> string, a: Assembly, s: Source)
    requires a.lines == [] && a.remaining >= 4000 && |s.id| < 200 && |sanitize(s.content)| >= 4000
    ensures var out := Output(sanitize, a, s);
            match s.kind
            case SystemPolicy => |out| == 2000 && "[" + "system_policy" + ":" + s.id + "] " < out
            case UserDirective => |out| == 2000 && "[" + "user_directive" + ":" + s.id + "] " < out
            case Approval => |out| == 800 && "[" + "approval" + ":" + s.id + "] " < out
            case ToolFailure => |out| == 512 && "[" + "tool_failure" + ":" + s.id + "] " < out
            case Citation => |out| == 256 && "[" + "citation" + ":" + s.id + "] " < out
            case HistorySummary => |out| == 4000 && "[" + "history_summary" + ":" + s.id + "] " < out
            case HistoryMessage => |out| == 2000 && "[" + "history_message" + ":" + s.id + "] " < out
            case InferredMemory => |out| == 1000 && "[" + "inferred_memory" + ":" + s.id + "] " < out
  {
    hide Output;
    ShortPrefix(s);
    LineIsLongest(sanitize, a, s);
    KeptLineShape(sanitize, a, s);
    assert |Output(sanitize, a, s)| == CharLimit(s.kind) && Prefix(s) < Output(sanitize, a, s);
  }

  lemma ShortPrefix(s: Source)
    requires |s.id| < 200
    ensures |Prefix(s)| < 256 <= CharLimit(s.kind) <= 4000
  {
    assert |TypeName(s.kind)| <= 15;
  }

  // ----- the budgets

  function Distance(x: real, y: real): real {
    if x <= y then y - x else x - y
  }

  /** The characters per token that count are the nearest to the configured ones between 1 and 8. */
  lemma ClampIsNearest(cpt: real, x: real)
    requires 1.0 <= x <= 8.0
    ensures Distance(Clamp(cpt), cpt) <= Distance(x, cpt)
  {
  }

  /** So many characters are within the character budget exactly if they are within 20,000 and within what the tokens
      stand for. */
  lemma CharBudgetMeans(budget: nat, cpt: real, n: nat)
    requires cpt >= 1.0
    ensures n <= CharBudget(budget, cpt) <==> n <= 20000 && n as real <= budget as real * cpt
  {
    assert budget as real * cpt >= 0.0;
  }
}
