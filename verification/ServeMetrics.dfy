/** Transcript metrics and their anomaly classification (wevibe_bench/serve_client.py). */
module ServeMetrics {
  import opened Folds
  import opened Text
  import opened Wrappers

  const MAX_ERROR_TEXTS := 8
  const MAX_ERROR_TEXT_CHARS := 240
  const GUARD_SIGNATURES := ["relay_loop_detected", "generation loop detected"]
  const FINALIZE_SIGNATURE := "did not finalize"

  // ----- messages, with absent keys already at their defaults -----

  datatype Role = Assistant | User | OtherRole
  datatype Tokens = Tokens(input: int, output: int, reasoning: int)

  datatype Part =
    | Text(text: string)
    | Tool
    | StepFinish(reason: Option<string>)
    | ErrorPart(message: string, text: string)
    | OtherPart

  /** info.error: the message under data, else the one beside it. */
  datatype InfoError = InfoError(dataMessage: string, message: string)

  datatype Message =
    | NotADict
    | Message(role: Role, error: Option<InfoError>, tokens: Tokens, cost: real, parts: seq<Part>)

  // ----- text -----

  function LowerChar(c: char): char { if 'A' <= c <= 'Z' then c - 'A' + 'a' else c }
  function Lower(s: string): string { seq(|s|, i requires 0 <= i < |s| => LowerChar(s[i])) }

  predicate Contains(s: string, t: string) { exists i :: 0 <= i <= |s| && t <= s[i..] }

  function Or(a: string, b: string): string { if a != "" then a else b }
  function Take<T>(s: seq<T>, n: nat): seq<T> { if |s| <= n then s else s[..n] }

  predicate HasGuard(text: string) { exists g <- GUARD_SIGNATURES :: Contains(Lower(text), g) }
  predicate HasFinalize(text: string) { Contains(Lower(text), FINALIZE_SIGNATURE) }

  /** What is captured of one raw text: nothing when blank, else its first characters. */
  function Captured(raw: string): seq<string> {
    var text := Strip(raw);
    if text == "" then [] else [Take(text, MAX_ERROR_TEXT_CHARS)]
  }

  // ----- per message -----

  function ClassifyStepFinish(reason: Option<string>): string {
    if reason == Some("stop") then "stop"
    else if reason == Some("length") then "length"
    else if reason == Some("unknown") || reason == Some("stream-incomplete") then reason.value
    else "unknown"
  }

  predicate TruncatedReason(reason: string) { reason in {"unknown", "stream-incomplete", "length"} }

  predicate IsAssistant(m: Message) { m.Message? && m.role == Assistant }

  predicate HasContent(p: Part) { p.Tool? || (p.Text? && Strip(p.text) != "") }

  predicate RealTurn(m: Message)
    requires m.Message?
  {
    m.tokens.output > 0 || m.tokens.reasoning > 0 || exists p <- m.parts :: HasContent(p)
  }

  predicate Failed(m: Message) { IsAssistant(m) && m.error.Some? }

  function FailureText(m: Message): string
    requires Failed(m)
  {
    Or(m.error.value.dataMessage, m.error.value.message)
  }

  function One(b: bool): int { if b then 1 else 0 }
  function AssistantOf(m: Message): int { One(IsAssistant(m)) }
  function UserOf(m: Message): int { One(m.Message? && m.role == User) }
  function TurnOf(m: Message): int { One(IsAssistant(m) && RealTurn(m)) }
  function FailureOf(m: Message): int { One(Failed(m)) }
  function GuardOf(m: Message): int { One(Failed(m) && RealTurn(m) && HasGuard(FailureText(m))) }
  function FinalizeOf(m: Message): int {
    One(Failed(m) && RealTurn(m) && !HasGuard(FailureText(m)) && HasFinalize(FailureText(m)))
  }
  function InputOf(m: Message): int { if IsAssistant(m) then m.tokens.input else 0 }
  function OutputOf(m: Message): int { if IsAssistant(m) then m.tokens.output else 0 }
  function ReasoningOf(m: Message): int { if IsAssistant(m) then m.tokens.reasoning else 0 }
  function CostOf(m: Message): real { if IsAssistant(m) then m.cost else 0.0 }

  function PartFinish(p: Part): seq<string> { if p.StepFinish? then [ClassifyStepFinish(p.reason)] else [] }
  function PartTruncation(p: Part): int { One(p.StepFinish? && TruncatedReason(ClassifyStepFinish(p.reason))) }
  function PartError(p: Part): int { One(p.ErrorPart?) }
  function PartText(p: Part): seq<string> { if p.ErrorPart? then Captured(Or(p.message, p.text)) else [] }

  function PartsOf(m: Message): seq<Part> { if m.Message? then m.parts else [] }
  function FinishesOf(m: Message): seq<string> { FlatMap(PartsOf(m), PartFinish) }
  function TruncationsOf(m: Message): int { SumBy(PartsOf(m), PartTruncation) }
  function ErrorsOf(m: Message): int { SumBy(PartsOf(m), PartError) }
  function FailureTexts(m: Message): seq<string> { if Failed(m) then Captured(FailureText(m)) else [] }
  function TextsOf(m: Message): seq<string> { FailureTexts(m) + FlatMap(PartsOf(m), PartText) }

  // ----- metrics -----

  datatype Metrics = Metrics(
    turns: int, inputTokens: int, outputTokens: int, reasoningTokens: int, costUsd: real,
    truncations: int, lastFinish: Option<string>, errorParts: int, infoErrors: int,
    guardAbortedTurns: int, finalizeTimeouts: int, errorTexts: seq<string>,
    assistantMessages: int, userMessages: int)

  function Last(s: seq<string>): Option<string> { if |s| == 0 then None else Some(s[|s| - 1]) }

  /** The captured texts of a transcript: the first eight. */
  function ErrorTexts(ms: seq<Message>): seq<string> { Take(FlatMap(ms, TextsOf), MAX_ERROR_TEXTS) }

  /** Each field on its own, over the whole transcript. */
  function MetricsOf(ms: seq<Message>): Metrics {
    Metrics(
      SumBy(ms, TurnOf), MaxBy(ms, InputOf), SumBy(ms, OutputOf), SumBy(ms, ReasoningOf), CostBy(ms, CostOf),
      SumBy(ms, TruncationsOf), Last(FlatMap(ms, FinishesOf)), SumBy(ms, ErrorsOf), SumBy(ms, FailureOf),
      SumBy(ms, GuardOf), SumBy(ms, FinalizeOf), ErrorTexts(ms),
      SumBy(ms, AssistantOf), SumBy(ms, UserOf))
  }

  /** Metrics of two consecutive transcripts from the metrics of each. */
  function Combine(a: Metrics, b: Metrics): Metrics {
    Metrics(
      a.turns + b.turns, Max(a.inputTokens, b.inputTokens), a.outputTokens + b.outputTokens,
      a.reasoningTokens + b.reasoningTokens, a.costUsd + b.costUsd,
      a.truncations + b.truncations, if b.lastFinish.Some? then b.lastFinish else a.lastFinish,
      a.errorParts + b.errorParts, a.infoErrors + b.infoErrors,
      a.guardAbortedTurns + b.guardAbortedTurns, a.finalizeTimeouts + b.finalizeTimeouts,
      Take(a.errorTexts + b.errorTexts, MAX_ERROR_TEXTS),
      a.assistantMessages + b.assistantMessages, a.userMessages + b.userMessages)
  }

  lemma TakeAppend<T>(a: seq<T>, b: seq<T>, n: nat)
    ensures Take(Take(a, n) + Take(b, n), n) == Take(a + b, n) == Take(Take(a, n) + b, n)
  {
  }

  lemma CountsAppend(a: seq<Message>, b: seq<Message>)
    ensures SumBy(a + b, TurnOf) == SumBy(a, TurnOf) + SumBy(b, TurnOf)
    ensures SumBy(a + b, TruncationsOf) == SumBy(a, TruncationsOf) + SumBy(b, TruncationsOf)
    ensures SumBy(a + b, ErrorsOf) == SumBy(a, ErrorsOf) + SumBy(b, ErrorsOf)
    ensures SumBy(a + b, FailureOf) == SumBy(a, FailureOf) + SumBy(b, FailureOf)
    ensures SumBy(a + b, GuardOf) == SumBy(a, GuardOf) + SumBy(b, GuardOf)
    ensures SumBy(a + b, FinalizeOf) == SumBy(a, FinalizeOf) + SumBy(b, FinalizeOf)
    ensures SumBy(a + b, AssistantOf) == SumBy(a, AssistantOf) + SumBy(b, AssistantOf)
    ensures SumBy(a + b, UserOf) == SumBy(a, UserOf) + SumBy(b, UserOf)
  {
    SumByAppend(a, b, TurnOf);
    SumByAppend(a, b, TruncationsOf);
    SumByAppend(a, b, ErrorsOf);
    SumByAppend(a, b, FailureOf);
    SumByAppend(a, b, GuardOf);
    SumByAppend(a, b, FinalizeOf);
    SumByAppend(a, b, AssistantOf);
    SumByAppend(a, b, UserOf);
  }

  lemma UsageAppend(a: seq<Message>, b: seq<Message>)
    ensures MaxBy(a + b, InputOf) == Max(MaxBy(a, InputOf), MaxBy(b, InputOf))
    ensures SumBy(a + b, OutputOf) == SumBy(a, OutputOf) + SumBy(b, OutputOf)
    ensures SumBy(a + b, ReasoningOf) == SumBy(a, ReasoningOf) + SumBy(b, ReasoningOf)
    ensures CostBy(a + b, CostOf) == CostBy(a, CostOf) + CostBy(b, CostOf)
  {
    MaxByAppend(a, b, InputOf);
    SumByAppend(a, b, OutputOf);
    SumByAppend(a, b, ReasoningOf);
    CostByAppend(a, b, CostOf);
  }

  lemma TextsAppend(a: seq<Message>, b: seq<Message>)
    ensures Last(FlatMap(a + b, FinishesOf))
         == if Last(FlatMap(b, FinishesOf)).Some? then Last(FlatMap(b, FinishesOf)) else Last(FlatMap(a, FinishesOf))
    ensures ErrorTexts(a + b) == Take(ErrorTexts(a) + ErrorTexts(b), MAX_ERROR_TEXTS)
  {
    FlatMapAppend(a, b, FinishesOf);
    FlatMapAppend(a, b, TextsOf);
    TakeAppend(FlatMap(a, TextsOf), FlatMap(b, TextsOf), MAX_ERROR_TEXTS);
  }

  /** Metrics are a homomorphism from concatenation to Combine. */
  lemma Homomorphism(a: seq<Message>, b: seq<Message>)
    ensures MetricsOf(a + b) == Combine(MetricsOf(a), MetricsOf(b))
  {
    CountsAppend(a, b);
    UsageAppend(a, b);
    TextsAppend(a, b);
  }

  /** Killed real turns are real turns, and real turns are assistant messages. */
  lemma TurnBounds(ms: seq<Message>)
    ensures
      var m := MetricsOf(ms);
      && 0 <= m.guardAbortedTurns && 0 <= m.finalizeTimeouts
      && m.guardAbortedTurns + m.finalizeTimeouts <= m.turns <= m.assistantMessages
      && m.guardAbortedTurns + m.finalizeTimeouts <= m.infoErrors <= m.assistantMessages
      && m.assistantMessages + m.userMessages <= |ms|
  {
    KilledAreTurns(ms);
    RolesFit(ms);
  }

  lemma {:induction false} KilledAreTurns(ms: seq<Message>)
    ensures 0 <= SumBy(ms, GuardOf) && 0 <= SumBy(ms, FinalizeOf)
    ensures SumBy(ms, GuardOf) + SumBy(ms, FinalizeOf) <= SumBy(ms, TurnOf)
    ensures SumBy(ms, GuardOf) + SumBy(ms, FinalizeOf) <= SumBy(ms, FailureOf)
  {
    if |ms| > 0 {
      KilledAreTurns(ms[..|ms| - 1]);
    }
  }

  lemma {:induction false} RolesFit(ms: seq<Message>)
    ensures SumBy(ms, TurnOf) <= SumBy(ms, AssistantOf) && SumBy(ms, FailureOf) <= SumBy(ms, AssistantOf)
    ensures SumBy(ms, AssistantOf) + SumBy(ms, UserOf) <= |ms|
  {
    if |ms| > 0 {
      RolesFit(ms[..|ms| - 1]);
    }
  }

  // ----- one message: with the homomorphism this fixes every transcript -----

  /** The positions of the parts that hold. */
  function PartsWhere(parts: seq<Part>, f: Part -> bool): set<int> {
    set i | 0 <= i < |parts| && f(parts[i])
  }

  lemma {:induction false} SumIsNumber(parts: seq<Part>, count: Part -> int, f: Part -> bool)
    requires forall p :: count(p) == if f(p) then 1 else 0
    ensures SumBy(parts, count) == |PartsWhere(parts, f)|
  {
    if |parts| == 0 {
      assert PartsWhere(parts, f) == {};
    } else {
      var n := |parts| - 1;
      SumIsNumber(parts[..n], count, f);
      assert PartsWhere(parts, f) == PartsWhere(parts[..n], f) + if f(parts[n]) then {n} else {};
    }
  }

  lemma Alone(m: Message)
    ensures [m][..0] == [] && MaxBy([m], InputOf) == Max(0, InputOf(m)) && CostBy([m], CostOf) == CostOf(m)
    ensures SumBy([m], TurnOf) == TurnOf(m) && SumBy([m], OutputOf) == OutputOf(m) && SumBy([m], ReasoningOf) == ReasoningOf(m)
    ensures SumBy([m], TruncationsOf) == TruncationsOf(m) && SumBy([m], ErrorsOf) == ErrorsOf(m) && SumBy([m], FailureOf) == FailureOf(m)
    ensures SumBy([m], GuardOf) == GuardOf(m) && SumBy([m], FinalizeOf) == FinalizeOf(m)
    ensures SumBy([m], AssistantOf) == AssistantOf(m) && SumBy([m], UserOf) == UserOf(m)
    ensures FlatMap([m], FinishesOf) == FinishesOf(m) && FlatMap([m], TextsOf) == TextsOf(m)
  {
    assert [m][..0] == [];
  }

  /** What a message of a role adds: an assistant message its own usage, one turn if it generated anything, and
      one failure if it carries an error, which in a real turn is a guard abort or else a finalize timeout when
      its text says so; a user message one user message; neither anything else. */
  lemma OneMessage(role: Role, error: Option<InfoError>, tokens: Tokens, cost: real, parts: seq<Part>)
    ensures
      var r := MetricsOf([Message(role, error, tokens, cost, parts)]);
      var generated := tokens.output > 0 || tokens.reasoning > 0 || exists p <- parts :: p.Tool? || (p.Text? && Strip(p.text) != "");
      && r.assistantMessages == (if role == Assistant then 1 else 0) && r.userMessages == (if role == User then 1 else 0)
      && r.turns == (if role == Assistant && generated then 1 else 0)
      && r.infoErrors == (if role == Assistant && error.Some? then 1 else 0)
      && (role == Assistant ==>
            r.inputTokens == (if tokens.input > 0 then tokens.input else 0)
            && r.outputTokens == tokens.output && r.reasoningTokens == tokens.reasoning && r.costUsd == cost)
      && (role == Assistant && error.Some? && generated ==>
            var text := if error.value.dataMessage != "" then error.value.dataMessage else error.value.message;
            && r.guardAbortedTurns == (if HasGuard(text) then 1 else 0)
            && r.finalizeTimeouts == (if !HasGuard(text) && HasFinalize(text) then 1 else 0))
  {
    Alone(Message(role, error, tokens, cost, parts));
  }

  const Finished := (p: Part) => p.StepFinish? && p.reason != Some("stop")
  const Erred := (p: Part) => p.ErrorPart?

  /** What the parts of a message add, whatever its role: a truncation for each step finished in any way but
      stop, and an error for each error part. */
  lemma PartsCounted(role: Role, error: Option<InfoError>, tokens: Tokens, cost: real, parts: seq<Part>)
    ensures
      var r := MetricsOf([Message(role, error, tokens, cost, parts)]);
      && r.truncations == |set i | 0 <= i < |parts| && parts[i].StepFinish? && parts[i].reason != Some("stop")|
      && r.errorParts == |set i | 0 <= i < |parts| && parts[i].ErrorPart?|
  {
    Alone(Message(role, error, tokens, cost, parts));
    SumIsNumber(parts, PartTruncation, Finished);
    SumIsNumber(parts, PartError, Erred);
    assert PartsWhere(parts, Finished) == set i | 0 <= i < |parts| && parts[i].StepFinish? && parts[i].reason != Some("stop");
    assert PartsWhere(parts, Erred) == set i | 0 <= i < |parts| && parts[i].ErrorPart?;
  }

  /** The last finish is the last step's reason, unknown when it is not one of the four known ones. */
  lemma {:induction false} LastFinishIs(parts: seq<Part>)
    ensures
      match Last(FlatMap(parts, PartFinish))
      case None => forall p <- parts :: !p.StepFinish?
      case Some(finish) =>
        exists i :: 0 <= i < |parts| && parts[i].StepFinish? && (forall j :: i < j < |parts| ==> !parts[j].StepFinish?)
                    && finish == if parts[i].reason in {Some("stop"), Some("length"), Some("stream-incomplete")}
                                 then parts[i].reason.value else "unknown"
  {
    if |parts| > 0 {
      var n := |parts| - 1;
      if parts[n].StepFinish? {
        assert Last(FlatMap(parts, PartFinish)) == Some(ClassifyStepFinish(parts[n].reason));
      } else {
        assert FlatMap(parts, PartFinish) == FlatMap(parts[..n], PartFinish);
        LastFinishIs(parts[..n]);
        LastOrEarlier(parts);
        assert forall i :: 0 <= i < n ==> parts[..n][i] == parts[i];
      }
    }
  }

  /** The texts of a message: its error's first, then those of its error parts in order; blank ones are left
      out, and of the others the first 240 characters are kept. */
  lemma TextsAre(error: InfoError, tokens: Tokens, cost: real, part: Part)
    ensures
      var raw := if error.dataMessage != "" then error.dataMessage else error.message;
      var own := if part.ErrorPart? then (if part.message != "" then part.message else part.text) else "";
      TextsOf(Message(Assistant, Some(error), tokens, cost, [part])) == FirstOf(raw) + FirstOf(own)
  {
    assert [part][..0] == [];
    assert FlatMap([part], PartText) == PartText(part);
    assert FirstOf("") == [];
  }

  /** Nothing of a blank text, else its first 240 characters without the spaces around it. */
  function FirstOf(raw: string): (r: seq<string>)
    ensures Strip(raw) == "" ==> r == []
    ensures Strip(raw) != "" ==> |r| == 1 && r[0] <= Strip(raw) && |r[0]| == if |Strip(raw)| < 240 then |Strip(raw)| else 240
  {
    Captured(raw)
  }

  /** The guard signatures, in any case, anywhere in the text; and the finalize-timeout one. */
  lemma SignaturesAre(text: string)
    ensures HasGuard(text) <==> Contains(Lower(text), "relay_loop_detected") || Contains(Lower(text), "generation loop detected")
    ensures HasFinalize(text) <==> Contains(Lower(text), "did not finalize")
    ensures |Lower(text)| == |text| && forall i :: 0 <= i < |text| ==>
      Lower(text)[i] == if 'A' <= text[i] <= 'Z' then (text[i] as int + 32) as char else text[i]
  {
    assert GUARD_SIGNATURES[0] in GUARD_SIGNATURES && GUARD_SIGNATURES[1] in GUARD_SIGNATURES;
  }

  lemma ContainsAround(before: string, t: string, after: string)
    ensures Contains(before + t + after, t)
  {
    assert (before + t + after)[|before|..] == t + after;
  }

  // ----- the loops -----

  method ScanParts(parts: seq<Part>, captured: seq<string>)
    returns (finishes: seq<string>, truncations: int, errors: int, texts: seq<string>)
    requires |captured| <= MAX_ERROR_TEXTS
    ensures finishes == FlatMap(parts, PartFinish)
    ensures truncations == SumBy(parts, PartTruncation) && errors == SumBy(parts, PartError)
    ensures texts == Take(captured + FlatMap(parts, PartText), MAX_ERROR_TEXTS)
  {
    finishes, truncations, errors, texts := [], 0, 0, captured;
    for i := 0 to |parts|
      invariant finishes == FlatMap(parts[..i], PartFinish)
      invariant truncations == SumBy(parts[..i], PartTruncation) && errors == SumBy(parts[..i], PartError)
      invariant texts == Take(captured + FlatMap(parts[..i], PartText), MAX_ERROR_TEXTS)
    {
      ghost var before := captured + FlatMap(parts[..i], PartText);
      var part := parts[i];
      assert parts[..i + 1][..i] == parts[..i] && parts[..i + 1][i] == part;
      assert captured + FlatMap(parts[..i + 1], PartText) == before + PartText(part);
      TakeAppend(before, PartText(part), MAX_ERROR_TEXTS);
      match part
      case StepFinish(r) =>
        var reason := ClassifyStepFinish(r);
        finishes := finishes + [reason];
        if TruncatedReason(reason) {
          truncations := truncations + 1;
        }
      case ErrorPart(message, text) =>
        errors := errors + 1;
        texts := CaptureErrorText(texts, Or(message, text));
      case _ =>
    }
    assert parts[..|parts|] == parts;
  }

  method CaptureErrorText(texts: seq<string>, raw: string) returns (r: seq<string>)
    requires |texts| <= MAX_ERROR_TEXTS
    ensures r == Take(texts + Captured(raw), MAX_ERROR_TEXTS)
  {
    var text := Strip(raw);
    if text == "" || |texts| >= MAX_ERROR_TEXTS {
      assert texts == Take(texts + Captured(raw), MAX_ERROR_TEXTS);
      return texts;
    }
    r := texts + [Take(text, MAX_ERROR_TEXT_CHARS)];
  }

  function AssistantList(m: Message): seq<Message> { if IsAssistant(m) then [m] else [] }

  /** The messages the first loop keeps. */
  function Assistants(ms: seq<Message>): seq<Message> { FlatMap(ms, AssistantList) }

  lemma {:induction false} AssistantsOnly(ms: seq<Message>)
    ensures forall m <- Assistants(ms) :: IsAssistant(m)
    ensures |Assistants(ms)| == SumBy(ms, AssistantOf)
  {
    if |ms| > 0 {
      AssistantsOnly(ms[..|ms| - 1]);
    }
  }

  /** A count that is zero off assistant messages may be taken over the kept messages. */
  lemma {:induction false} SumOverKept(ms: seq<Message>, f: Message -> int)
    requires forall m :: !IsAssistant(m) ==> f(m) == 0
    ensures SumBy(Assistants(ms), f) == SumBy(ms, f) && MaxBy(Assistants(ms), f) == MaxBy(ms, f)
  {
    if |ms| > 0 {
      var front, m := ms[..|ms| - 1], ms[|ms| - 1];
      SumOverKept(front, f);
      SumByAppend(Assistants(front), AssistantList(m), f);
      MaxByAppend(Assistants(front), AssistantList(m), f);
      SingleSum(AssistantList(m), f);
    }
  }

  lemma SingleSum(s: seq<Message>, f: Message -> int)
    requires |s| <= 1
    ensures SumBy(s, f) == if |s| == 0 then 0 else f(s[0])
    ensures MaxBy(s, f) == if |s| == 0 then 0 else Max(0, f(s[0]))
  {
    if |s| == 1 {
      assert |s[..0]| == 0;
    }
  }

  lemma {:induction false} CostOverKept(ms: seq<Message>)
    ensures CostBy(Assistants(ms), CostOf) == CostBy(ms, CostOf)
  {
    if |ms| > 0 {
      CostOverKept(ms[..|ms| - 1]);
      CostByAppend(Assistants(ms[..|ms| - 1]), AssistantList(ms[|ms| - 1]), CostOf);
    }
  }

  /** The loop's counters after a prefix of the transcript. */
  datatype Tally = Tally(
    assistants: seq<Message>, users: int, finishes: seq<string>, truncations: int, errorParts: int,
    infoErrors: int, guarded: int, timedOut: int, texts: seq<string>)

  /** What one message adds. */
  function TallyMore(t: Tally, m: Message): Tally {
    Tally(
      t.assistants + AssistantList(m), t.users + UserOf(m), t.finishes + FinishesOf(m), t.truncations + TruncationsOf(m),
      t.errorParts + ErrorsOf(m), t.infoErrors + FailureOf(m), t.guarded + GuardOf(m), t.timedOut + FinalizeOf(m),
      Take(t.texts + TextsOf(m), MAX_ERROR_TEXTS))
  }

  const NOTHING_SEEN := Tally([], 0, [], 0, 0, 0, 0, 0, [])

  function TallyOf(ms: seq<Message>): (t: Tally)
    ensures |t.texts| <= MAX_ERROR_TEXTS
  {
    if |ms| == 0 then NOTHING_SEEN else TallyMore(TallyOf(ms[..|ms| - 1]), ms[|ms| - 1])
  }

  /** Each counter is its own sum over the prefix. */
  lemma {:induction false} TallyFields(ms: seq<Message>)
    ensures TallyOf(ms) == Tally(
      Assistants(ms), SumBy(ms, UserOf), FlatMap(ms, FinishesOf), SumBy(ms, TruncationsOf), SumBy(ms, ErrorsOf),
      SumBy(ms, FailureOf), SumBy(ms, GuardOf), SumBy(ms, FinalizeOf), ErrorTexts(ms))
  {
    if |ms| > 0 {
      var front, m := ms[..|ms| - 1], ms[|ms| - 1];
      TallyFields(front);
      TakeAppend(FlatMap(front, TextsOf), TextsOf(m), MAX_ERROR_TEXTS);
    }
  }

  /** What the message itself adds, before its parts. */
  function RoleMore(t: Tally, m: Message): Tally {
    t.(assistants := t.assistants + AssistantList(m), users := t.users + UserOf(m), infoErrors := t.infoErrors + FailureOf(m),
       guarded := t.guarded + GuardOf(m), timedOut := t.timedOut + FinalizeOf(m),
       texts := Take(t.texts + FailureTexts(m), MAX_ERROR_TEXTS))
  }

  lemma TakeSplit<T>(s: seq<T>, a: seq<T>, b: seq<T>, n: nat)
    ensures Take(Take(s + a, n) + b, n) == Take(s + (a + b), n)
  {
    assert s + (a + b) == s + a + b;
    TakeAppend(s + a, b, n);
  }

  lemma NothingMore(t: Tally, m: Message)
    requires m.NotADict? && |t.texts| <= MAX_ERROR_TEXTS
    ensures TallyMore(t, m) == t
  {
    assert TextsOf(m) == [] && FinishesOf(m) == [] && AssistantList(m) == [];
    assert t.texts + [] == t.texts && t.finishes + [] == t.finishes && t.assistants + [] == t.assistants;
  }

  /** One pass of the outer loop. */
  method ScanMessage(t: Tally, m: Message) returns (r: Tally)
    requires |t.texts| <= MAX_ERROR_TEXTS
    ensures r == TallyMore(t, m)
  {
    if m.NotADict? {
      NothingMore(t, m);
      return t;
    }
    r := ScanRole(t, m);
    var finishes, truncations, errors, texts := ScanParts(m.parts, r.texts);
    TakeSplit(t.texts, FailureTexts(m), FlatMap(m.parts, PartText), MAX_ERROR_TEXTS);
    r := Tally(r.assistants, r.users, r.finishes + finishes, r.truncations + truncations, r.errorParts + errors,
               r.infoErrors, r.guarded, r.timedOut, texts);
  }

  /** The role and, for an assistant message, its error. */
  method ScanRole(t: Tally, m: Message) returns (r: Tally)
    requires m.Message? && |t.texts| <= MAX_ERROR_TEXTS
    ensures r == RoleMore(t, m)
  {
    assert t.texts + [] == t.texts && t.assistants + [] == t.assistants;
    r := t;
    if m.role == Assistant {
      r := r.(assistants := r.assistants + [m]);
      if m.error.Some? {
        r := ScanError(r, m);
      }
    } else if m.role == User {
      r := r.(users := r.users + 1);
    }
  }

  method ScanError(t: Tally, m: Message) returns (r: Tally)
    requires Failed(m) && |t.texts| <= MAX_ERROR_TEXTS
    ensures r == t.(infoErrors := t.infoErrors + 1, guarded := t.guarded + GuardOf(m), timedOut := t.timedOut + FinalizeOf(m),
                    texts := Take(t.texts + FailureTexts(m), MAX_ERROR_TEXTS))
  {
    var text := Or(m.error.value.dataMessage, m.error.value.message);
    var texts := CaptureErrorText(t.texts, text);
    r := t.(infoErrors := t.infoErrors + 1, texts := texts);
    if RealTurn(m) {
      if HasGuard(text) {
        r := r.(guarded := r.guarded + 1);
      } else if HasFinalize(text) {
        r := r.(timedOut := r.timedOut + 1);
      }
    }
  }

  /** The second loop, over the kept messages. */
  method SumUsage(assistants: seq<Message>) returns (input: int, output: int, reasoning: int, cost: real, turns: int)
    requires forall m <- assistants :: IsAssistant(m)
    ensures input == MaxBy(assistants, InputOf) && output == SumBy(assistants, OutputOf)
    ensures reasoning == SumBy(assistants, ReasoningOf) && cost == CostBy(assistants, CostOf)
    ensures turns == SumBy(assistants, TurnOf)
  {
    input, output, reasoning, cost, turns := 0, 0, 0, 0.0, 0;
    for i := 0 to |assistants|
      invariant input == MaxBy(assistants[..i], InputOf) && output == SumBy(assistants[..i], OutputOf)
      invariant reasoning == SumBy(assistants[..i], ReasoningOf) && cost == CostBy(assistants[..i], CostOf)
      invariant turns == SumBy(assistants[..i], TurnOf)
    {
      var m := assistants[i];
      assert assistants[..i + 1][..i] == assistants[..i] && IsAssistant(m);
      input := Max(input, m.tokens.input);
      output := output + m.tokens.output;
      reasoning := reasoning + m.tokens.reasoning;
      cost := cost + m.cost;
      turns := turns + if RealTurn(m) then 1 else 0;
    }
    assert assistants[..|assistants|] == assistants;
  }

  /** The sums over the kept messages are those over the transcript. */
  lemma KeptUsage(ms: seq<Message>)
    ensures MaxBy(Assistants(ms), InputOf) == MaxBy(ms, InputOf)
    ensures SumBy(Assistants(ms), OutputOf) == SumBy(ms, OutputOf)
    ensures SumBy(Assistants(ms), ReasoningOf) == SumBy(ms, ReasoningOf)
    ensures SumBy(Assistants(ms), TurnOf) == SumBy(ms, TurnOf)
    ensures CostBy(Assistants(ms), CostOf) == CostBy(ms, CostOf)
  {
    SumOverKept(ms, InputOf);
    SumOverKept(ms, OutputOf);
    SumOverKept(ms, ReasoningOf);
    SumOverKept(ms, TurnOf);
    CostOverKept(ms);
  }

  /** The first loop, over all messages. */
  method ScanMessages(messages: seq<Message>) returns (t: Tally)
    ensures t == TallyOf(messages)
  {
    t := NOTHING_SEEN;
    for i := 0 to |messages|
      invariant t == TallyOf(messages[..i])
    {
      t := ScanMessage(t, messages[i]);
      assert messages[..i + 1][..i] == messages[..i];
    }
    assert messages[..|messages|] == messages;
  }

  method ExtractTranscriptMetrics(messages: seq<Message>) returns (r: Metrics)
    ensures r == MetricsOf(messages)
  {
    var t := ScanMessages(messages);
    TallyFields(messages);
    AssistantsOnly(messages);
    KeptUsage(messages);
    var input, output, reasoning, cost, turns := SumUsage(t.assistants);
    r := Metrics(turns, input, output, reasoning, cost, t.truncations, Last(t.finishes), t.errorParts, t.infoErrors,
                 t.guarded, t.timedOut, t.texts, |t.assistants|, t.users);
  }

  // ----- classification -----

  datatype Verdict = Clean | Anomaly(terminal: string, reason: string)

  const GUARD_ABORT := Anomaly("guard_abort", "loop_guard")
  const FINALIZE_TIMEOUT := Anomaly("transport_error", "stream_finalize_timeout")
  const TRUNCATED := Anomaly("truncated", "stream-incomplete")
  const ERROR_EVENT := Anomaly("transport_error", "error_event")

  /** The verdict of the first text with a signature. */
  function FirstSignature(texts: seq<string>): Verdict {
    if |texts| == 0 then Clean
    else if HasGuard(texts[0]) then GUARD_ABORT
    else if HasFinalize(texts[0]) then FINALIZE_TIMEOUT
    else FirstSignature(texts[1..])
  }

  function Classify(m: Metrics): Verdict {
    var signature := FirstSignature(m.errorTexts);
    if signature != Clean then signature
    else if m.truncations > 0 then TRUNCATED
    else if m.errorParts > 0 || m.infoErrors > 0 then ERROR_EVENT
    else Clean
  }

  lemma {:induction false} PartTextsCounted(parts: seq<Part>)
    ensures |FlatMap(parts, PartText)| <= SumBy(parts, PartError) && 0 <= SumBy(parts, PartTruncation)
  {
    if |parts| > 0 {
      PartTextsCounted(parts[..|parts| - 1]);
    }
  }

  /** Every captured text was counted as an error. */
  lemma {:induction false} TextsCounted(ms: seq<Message>)
    ensures |FlatMap(ms, TextsOf)| <= SumBy(ms, FailureOf) + SumBy(ms, ErrorsOf)
    ensures 0 <= SumBy(ms, FailureOf) && 0 <= SumBy(ms, ErrorsOf) && 0 <= SumBy(ms, TruncationsOf)
  {
    if |ms| > 0 {
      TextsCounted(ms[..|ms| - 1]);
      PartTextsCounted(PartsOf(ms[|ms| - 1]));
    }
  }

  /** A transcript is anomalous exactly when one of its three counts is positive. */
  lemma AnomalousWhenCounted(ms: seq<Message>)
    ensures
      var m := MetricsOf(ms);
      Classify(m) != Clean <==> m.truncations > 0 || m.errorParts > 0 || m.infoErrors > 0
  {
    TextsCounted(ms);
  }

  /** A concatenation is anomalous exactly when one of its parts is. */
  lemma AnomalyOfConcatenation(a: seq<Message>, b: seq<Message>)
    ensures Classify(MetricsOf(a + b)) != Clean
       <==> Classify(MetricsOf(a)) != Clean || Classify(MetricsOf(b)) != Clean
  {
    CountsAppend(a, b);
    TextsCounted(a);
    TextsCounted(b);
    AnomalousWhenCounted(a);
    AnomalousWhenCounted(b);
    AnomalousWhenCounted(a + b);
  }

  lemma {:induction false} FirstSignatureAppend(a: seq<string>, b: seq<string>)
    ensures FirstSignature(a + b) == if FirstSignature(a) != Clean then FirstSignature(a) else FirstSignature(b)
  {
    if |a| == 0 {
      assert a + b == b;
    } else {
      assert (a + b)[1..] == a[1..] + b;
      FirstSignatureAppend(a[1..], b);
    }
  }

  /** An earlier signature keeps its verdict whatever follows it; a guard kill that comes after
      eight captured texts without one is never classified as a guard abort. */
  lemma EarlierSignatureStays(a: seq<Message>, b: seq<Message>)
    ensures FirstSignature(ErrorTexts(a)) != Clean ==> Classify(MetricsOf(a + b)) == Classify(MetricsOf(a))
    ensures |ErrorTexts(a)| == MAX_ERROR_TEXTS && FirstSignature(ErrorTexts(a)) == Clean ==>
      Classify(MetricsOf(a + b)) !in {GUARD_ABORT, FINALIZE_TIMEOUT}
  {
    TextsGoOn(a, b);
    FirstSignatureAppend(ErrorTexts(a), Take(ErrorTexts(b), MAX_ERROR_TEXTS - |ErrorTexts(a)|));
    SomeSignature(ErrorTexts(a));
  }

  lemma TextsGoOn(a: seq<Message>, b: seq<Message>)
    ensures ErrorTexts(a + b) == ErrorTexts(a) + Take(ErrorTexts(b), MAX_ERROR_TEXTS - |ErrorTexts(a)|)
  {
    TextsAppend(a, b);
    TakeRest(ErrorTexts(a), ErrorTexts(b), MAX_ERROR_TEXTS);
  }

  lemma TakeRest<T>(a: seq<T>, b: seq<T>, n: nat)
    requires |a| <= n
    ensures Take(a + b, n) == a + Take(b, n - |a|)
  {
  }

  /** Text i carries the guard signature and no earlier text the finalize signature. */
  predicate GuardAt(texts: seq<string>, i: nat)
    requires i < |texts|
  {
    HasGuard(texts[i]) && forall j :: 0 <= j < i ==> !HasFinalize(texts[j])
  }

  lemma GuardAtShift(texts: seq<string>, i: nat)
    requires 0 < i < |texts| && !HasFinalize(texts[0])
    ensures GuardAt(texts, i) <==> GuardAt(texts[1..], i - 1)
  {
    assert forall j :: 0 <= j < |texts| - 1 ==> texts[1..][j] == texts[j + 1];
    assert forall j :: 0 < j < i ==> texts[j] == texts[1..][j - 1];
  }

  /** The guard verdict needs a guard text with no finalize-timeout text before it. */
  lemma {:induction false} GuardVerdict(texts: seq<string>)
    ensures FirstSignature(texts) == GUARD_ABORT <==> exists i :: 0 <= i < |texts| && GuardAt(texts, i)
  {
    if |texts| == 0 {
    } else if HasGuard(texts[0]) {
      assert GuardAt(texts, 0);
    } else if !HasFinalize(texts[0]) {
      GuardVerdict(texts[1..]);
      if i :| 0 <= i < |texts[1..]| && GuardAt(texts[1..], i) {
        GuardAtShift(texts, i + 1);
      }
      if i :| 0 <= i < |texts| && GuardAt(texts, i) {
        GuardAtShift(texts, i);
      }
    }
  }

  /** The verdict: a guard abort when some captured text has the guard signature and none before it the
      finalize one; else a finalize timeout when some has that signature; else a truncation if there was one;
      else an error event if there was any error. */
  lemma VerdictIs(ms: seq<Message>)
    ensures
      var m := MetricsOf(ms);
      var texts := ErrorTexts(ms);
      Classify(m) ==
        if exists i :: 0 <= i < |texts| && HasGuard(texts[i]) && forall j :: 0 <= j < i ==> !HasFinalize(texts[j])
        then Anomaly("guard_abort", "loop_guard")
        else if exists i :: 0 <= i < |texts| && HasFinalize(texts[i]) then Anomaly("transport_error", "stream_finalize_timeout")
        else if m.truncations > 0 then Anomaly("truncated", "stream-incomplete")
        else if m.errorParts > 0 || m.infoErrors > 0 then Anomaly("transport_error", "error_event")
        else Clean
  {
    var texts := ErrorTexts(ms);
    GuardVerdict(texts);
    SomeSignature(texts);
    if i :| 0 <= i < |texts| && GuardAt(texts, i) {
      assert HasGuard(texts[i]) && forall j :: 0 <= j < i ==> !HasFinalize(texts[j]);
    }
    if i :| 0 <= i < |texts| && HasGuard(texts[i]) && forall j :: 0 <= j < i ==> !HasFinalize(texts[j]) {
      assert GuardAt(texts, i);
    }
  }

  lemma {:induction false} SomeSignature(texts: seq<string>)
    ensures FirstSignature(texts) in {Clean, GUARD_ABORT, FINALIZE_TIMEOUT}
    ensures FirstSignature(texts) == Clean <==> forall i :: 0 <= i < |texts| ==> !HasGuard(texts[i]) && !HasFinalize(texts[i])
  {
    if |texts| > 0 && !HasGuard(texts[0]) && !HasFinalize(texts[0]) {
      SomeSignature(texts[1..]);
      assert forall i :: 0 < i < |texts| ==> texts[i] == texts[1..][i - 1];
    }
  }

  /** A transcript is classified as a guard abort exactly when one of its captured texts carries the guard
      signature and no earlier captured text the finalize signature, whatever else it counts. */
  lemma GuardAbortMeans(ms: seq<Message>)
    ensures Classify(MetricsOf(ms)) == GUARD_ABORT <==> exists i :: 0 <= i < |ErrorTexts(ms)| && GuardAt(ErrorTexts(ms), i)
  {
    GuardVerdict(ErrorTexts(ms));
  }

  /** So the loop guard is not always checked first: an earlier finalize-timeout text wins. */
  lemma FinalizeTextWins()
    ensures FirstSignature(["did not finalize", "relay_loop_detected"]) == FINALIZE_TIMEOUT
    ensures HasGuard("relay_loop_detected")
  {
    var late, guard := "did not finalize", "relay_loop_detected";
    assert Lower(late) == late && Lower(guard) == guard;
    assert late[0..] == late && guard[0..] == guard;
    assert Contains(Lower(late), FINALIZE_SIGNATURE);
    assert GUARD_SIGNATURES[0] == guard && GUARD_SIGNATURES[0] in GUARD_SIGNATURES;
    assert Contains(Lower(guard), guard);
  }
}
