/**
 * Inference under a cancel flag and a deadline: the stop control
 * (core-runtime/src/engine/request_control.rs), the engine's controlled run
 * (core-runtime/src/engine/inference.rs) and the handler around it
 * (core-runtime/src/ipc/handler_inference.rs).
 *
 * Each test of the control reads the shared flag and the clock; what the tests of one run read is a
 * sequence of looks. The backend is any function of the answers its own tests got.
 */
module ControlledInference {
  import opened Wrappers

  // ---------------------------------------------------------------- the control

  datatype Look = Look(flag: bool, now: nat)

  datatype StopControl = StopControl(hasFlag: bool, deadline: Option<nat>, timeoutMs: nat)

  datatype InferenceError =
    | ModelNotLoaded(id: string)
    | InvalidParams(message: string)
    | ExecutionFailed(message: string)
    | ContextExceeded(max: nat, got: nat)
    | MemoryExceeded(used: nat, limit: nat)
    | Cancelled
    | DeadlineExceeded(timeoutMs: nat)

  predicate IsCancelled(c: StopControl, l: Look) { c.hasFlag && l.flag }

  predicate IsExpired(c: StopControl, l: Look) { c.deadline.Some? && l.now >= c.deadline.value }

  predicate ShouldStop(c: StopControl, l: Look) { IsCancelled(c, l) || IsExpired(c, l) }

  function StopError(c: StopControl, l: Look): Option<InferenceError>
  {
    if IsCancelled(c, l) then Some(Cancelled)
    else if IsExpired(c, l) then Some(DeadlineExceeded(c.timeoutMs))
    else None
  }

  /** Nobody clears the flag, and the clock does not run backwards. */
  predicate Monotone(looks: seq<Look>)
  {
    forall i, j | 0 <= i < j < |looks| :: (looks[i].flag ==> looks[j].flag) && looks[i].now <= looks[j].now
  }

  // ---------------------------------------------------------------- the engine

  datatype FinishReason = Stop | MaxTokens | FinishTimeout | ContentFiltered | FinishCancelled

  datatype Output = Generation(text: string, tokens: nat, finish: FinishReason) | OtherOutput

  datatype InferenceResult = InferenceResult(output: string, tokens: nat)

  /** A loaded model: its memory, and what it returns given the answers of its tests. */
  datatype Model = Model(memory: nat, infer: seq<bool> -> Result<Output, string>)

  datatype Request = Request(
    modelId: string, promptBytes: nat, paramsError: Option<string>, timeoutMs: Option<nat>, budget: Option<nat>)

  const BYTES_PER_TOKEN: nat := 4

  const DEFAULT_TIMEOUT_MS: nat := 30_000

  function TimeoutOf(r: Request): nat { if r.timeoutMs.Some? then r.timeoutMs.value else DEFAULT_TIMEOUT_MS }

  /** The answers the backend's own tests get: all looks but the first and the last. */
  function Answers(c: StopControl, looks: seq<Look>): seq<bool>
    requires |looks| >= 2
  {
    seq(|looks| - 2, i requires 0 <= i < |looks| - 2 => ShouldStop(c, looks[i + 1]))
  }

  function FromOutput(r: Request, o: Result<Output, string>): Result<InferenceResult, InferenceError>
  {
    match o
    case Err(m) => Err(ExecutionFailed(m))
    case Ok(OtherOutput) => Err(ExecutionFailed("Model returned non-generation output"))
    case Ok(Generation(text, tokens, finish)) =>
      if finish == FinishCancelled then Err(Cancelled)
      else if finish == FinishTimeout then Err(DeadlineExceeded(TimeoutOf(r)))
      else Ok(InferenceResult(text, tokens))
  }

  function InferControlled(m: Model, r: Request, c: StopControl, looks: seq<Look>): Result<InferenceResult, InferenceError>
    requires |looks| >= 2
  {
    if r.budget.Some? && m.memory > r.budget.value then Err(MemoryExceeded(m.memory, r.budget.value))
    else
      var output := m.infer(Answers(c, looks));
      match StopError(c, looks[|looks| - 1])
      case Some(stopped) => Err(stopped)
      case None => FromOutput(r, output)
  }

  function RunControlled(models: map<string, Model>, maxContext: nat, r: Request, c: StopControl, looks: seq<Look>)
    : Result<InferenceResult, InferenceError>
    requires |looks| >= 2
  {
    if r.paramsError.Some? then Err(InvalidParams(r.paramsError.value))
    else if StopError(c, looks[0]).Some? then Err(StopError(c, looks[0]).value)
    else if r.modelId !in models then Err(ModelNotLoaded(r.modelId))
    else if r.promptBytes / BYTES_PER_TOKEN > maxContext then
      Err(ContextExceeded(maxContext, r.promptBytes / BYTES_PER_TOKEN))
    else InferControlled(models[r.modelId], r, c, looks)
  }

  /** The run gets as far as asking the backend. */
  predicate Reaches(models: map<string, Model>, maxContext: nat, r: Request)
  {
    && r.paramsError.None? && r.modelId in models && r.promptBytes / 4 <= maxContext
    && (r.budget.Some? ==> models[r.modelId].memory <= r.budget.value)
  }

  predicate IsStop(c: StopControl, e: InferenceError) { e == Cancelled || e == DeadlineExceeded(c.timeoutMs) }

  /** Once a look shows a stop, every later one does; a cancellation stays a cancellation. */
  lemma StopLasts(c: StopControl, looks: seq<Look>, i: nat, j: nat)
    requires Monotone(looks) && i <= j < |looks| && ShouldStop(c, looks[i])
    ensures StopError(c, looks[j]).Some? && IsStop(c, StopError(c, looks[j]).value)
    ensures IsCancelled(c, looks[i]) ==> StopError(c, looks[j]) == Some(Cancelled)
  {
    assert i < j ==> (looks[i].flag ==> looks[j].flag) && looks[i].now <= looks[j].now;
  }

  /**
   * A stop visible at any checkpoint of the run decides it: cancelled or past the deadline, whatever
   * the backend returned, and cancelled if it was a cancellation.
   */
  lemma StopWins(models: map<string, Model>, maxContext: nat, r: Request, c: StopControl, looks: seq<Look>, k: nat)
    requires |looks| >= 2 && Monotone(looks) && r.paramsError.None? && (k == 0 || Reaches(models, maxContext, r))
    requires k < |looks| && ShouldStop(c, looks[k])
    ensures var result := RunControlled(models, maxContext, r, c, looks);
            && result.Err? && IsStop(c, result.error)
            && (IsCancelled(c, looks[k]) && (k == 0 || !ShouldStop(c, looks[0])) ==> result.error == Cancelled)
  {
    StopLasts(c, looks, k, |looks| - 1);
  }

  /**
   * A success means that nothing stopped at any point of the run and the backend finished in its own
   * time; and then it is the backend's output, complete.
   */
  lemma SuccessExactly(models: map<string, Model>, maxContext: nat, r: Request, c: StopControl, looks: seq<Look>, out: InferenceResult)
    requires |looks| >= 2 && Monotone(looks)
    ensures RunControlled(models, maxContext, r, c, looks) == Ok(out) <==>
            && Reaches(models, maxContext, r)
            && (forall k | 0 <= k < |looks| :: !ShouldStop(c, looks[k]))
            && var o := models[r.modelId].infer(seq(|looks| - 2, _ => false));
               o.Ok? && o.value.Generation? && o.value.finish !in {FinishCancelled, FinishTimeout}
               && out == InferenceResult(o.value.text, o.value.tokens)
  {
    if k: nat :| k < |looks| && ShouldStop(c, looks[k]) {
      StopLasts(c, looks, k, |looks| - 1);
    } else {
      assert Answers(c, looks) == seq(|looks| - 2, _ => false);
      assert !ShouldStop(c, looks[0]) && !ShouldStop(c, looks[|looks| - 1]);
    }
  }

  /** A look that shows the caller's cancellation, and one that shows only that the time is up. */
  predicate ShowsCancel(c: StopControl, l: Look) { c.hasFlag && l.flag }

  predicate ShowsTimeUp(c: StopControl, l: Look) { !(c.hasFlag && l.flag) && c.deadline.Some? && c.deadline.value <= l.now }

  /** The look that decides a run: the first if it shows a stop, the last if the backend was asked. */
  predicate Decides(models: map<string, Model>, maxContext: nat, r: Request, c: StopControl, looks: seq<Look>, k: nat)
  {
    && k < |looks| && r.paramsError.None?
    && (k == 0 || (k == |looks| - 1 && Reaches(models, maxContext, r) && !ShowsCancel(c, looks[0]) && !ShowsTimeUp(c, looks[0])))
  }

  /** The backend says itself how it finished, and no look showed a stop. */
  predicate BackendFinished(models: map<string, Model>, maxContext: nat, r: Request, c: StopControl, looks: seq<Look>, how: FinishReason)
    requires |looks| >= 2
  {
    && Reaches(models, maxContext, r)
    && (forall k | 0 <= k < |looks| :: !ShowsCancel(c, looks[k]) && !ShowsTimeUp(c, looks[k]))
    && var o := models[r.modelId].infer(seq(|looks| - 2, _ => false));
       o.Ok? && o.value.Generation? && o.value.finish == how
  }

  /**
   * Which of the two stops a run ends with. It is a cancellation exactly if the deciding look shows the
   * flag, or the backend finished as cancelled; it is the deadline exactly if the deciding look shows
   * the clock at or past it and no flag, or the backend finished as timed out.
   */
  lemma StopExact(models: map<string, Model>, maxContext: nat, r: Request, c: StopControl, looks: seq<Look>, ms: nat)
    requires |looks| >= 2 && Monotone(looks)
    ensures RunControlled(models, maxContext, r, c, looks) == Err(Cancelled) <==>
            || (exists k: nat :: Decides(models, maxContext, r, c, looks, k) && ShowsCancel(c, looks[k]))
            || BackendFinished(models, maxContext, r, c, looks, FinishCancelled)
    ensures RunControlled(models, maxContext, r, c, looks) == Err(DeadlineExceeded(ms)) <==>
            || (ms == c.timeoutMs && exists k: nat :: Decides(models, maxContext, r, c, looks, k) && ShowsTimeUp(c, looks[k]))
            || (ms == (if r.timeoutMs.Some? then r.timeoutMs.value else 30_000)
                && BackendFinished(models, maxContext, r, c, looks, FinishTimeout))
  {
    var last := |looks| - 1;
    assert Decides(models, maxContext, r, c, looks, 0) <==> r.paramsError.None?;
    assert Decides(models, maxContext, r, c, looks, last) <==>
      Reaches(models, maxContext, r) && !ShowsCancel(c, looks[0]) && !ShowsTimeUp(c, looks[0]);
    if k: nat :| k < |looks| && (ShowsCancel(c, looks[k]) || ShowsTimeUp(c, looks[k])) {
      StopLasts(c, looks, k, last);
      hide Monotone;
    } else {
      assert Answers(c, looks) == seq(|looks| - 2, _ => false);
      assert !ShowsCancel(c, looks[0]) && !ShowsTimeUp(c, looks[0]) && !ShowsCancel(c, looks[last]) && !ShowsTimeUp(c, looks[last]);
    }
  }

  /** A request is refused for its parameters, its model, its length or its memory in that order, a stop at entry before all but the first. */
  lemma RefusedExactly(models: map<string, Model>, maxContext: nat, r: Request, c: StopControl, looks: seq<Look>)
    requires |looks| >= 2
    ensures var e := RunControlled(models, maxContext, r, c, looks);
            var entered := r.paramsError.None? && !ShowsCancel(c, looks[0]) && !ShowsTimeUp(c, looks[0]);
            && (r.paramsError.Some? <==> e.Err? && e.error.InvalidParams?)
            && (r.paramsError.Some? ==> e == Err(InvalidParams(r.paramsError.value)))
            && (entered && r.modelId !in models <==> e.Err? && e.error.ModelNotLoaded?)
            && (entered && r.modelId !in models ==> e == Err(ModelNotLoaded(r.modelId)))
            && (entered && r.modelId in models && r.promptBytes / 4 > maxContext <==> e.Err? && e.error.ContextExceeded?)
            && (entered && r.modelId in models && r.promptBytes / 4 > maxContext ==> e == Err(ContextExceeded(maxContext, r.promptBytes / 4)))
            && (entered && r.modelId in models && r.promptBytes / 4 <= maxContext && r.budget.Some? && models[r.modelId].memory > r.budget.value
                <==> e.Err? && e.error.MemoryExceeded?)
            && (e.Err? && e.error.MemoryExceeded? ==> e == Err(MemoryExceeded(models[r.modelId].memory, r.budget.value)))
  {
  }

  /** A backend that fails in a run nothing stops is reported with its own message. */
  lemma BackendFails(models: map<string, Model>, maxContext: nat, r: Request, c: StopControl, looks: seq<Look>, m: string)
    requires |looks| >= 2 && Reaches(models, maxContext, r)
    requires forall k | 0 <= k < |looks| :: !ShowsCancel(c, looks[k]) && !ShowsTimeUp(c, looks[k])
    ensures models[r.modelId].infer(seq(|looks| - 2, _ => false)) == Err(m) ==>
              RunControlled(models, maxContext, r, c, looks) == Err(ExecutionFailed(m))
    ensures models[r.modelId].infer(seq(|looks| - 2, _ => false)) == Ok(OtherOutput) ==>
              RunControlled(models, maxContext, r, c, looks) == Err(ExecutionFailed("Model returned non-generation output"))
  {
    assert Answers(c, looks) == seq(|looks| - 2, _ => false);
    assert !ShowsCancel(c, looks[0]) && !ShowsTimeUp(c, looks[0]) && !ShowsCancel(c, looks[|looks| - 1]) && !ShowsTimeUp(c, looks[|looks| - 1]);
  }

  // ---------------------------------------------------------------- error codes

  datatype ErrorCode =
    | AdmissionRejected | CodeExecutionFailed | CodeModelNotLoaded | InputInvalid | ShuttingDown | CodeCancelled
    | CodeDeadlineExceeded

  function Decimal(n: nat): (s: string)
    ensures forall i | 0 <= i < |s| :: '0' <= s[i] <= '9'
  {
    if n < 10 then ['0' + n as char] else Decimal(n / 10) + ['0' + (n % 10) as char]
  }

  function CancelledText(): string { "Request cancelled" }

  function DeadlineText(): string { "Deadline exceeded" }

  function WithinText(): string { ": request did not complete within its " }

  function TimeoutText(): string { " ms timeout" }

  function MemoryPhrase(): string { "Memory limit exceeded" }

  function ModelPhrase(): string { "Model not loaded" }

  function ContextPhrase(): string { "Context length exceeded" }

  function ModelText(): string { "Model not loaded: " }

  function InvalidText(): string { "Invalid parameters: " }

  function FailedText(): string { "Inference failed: " }

  function MaxText(): string { "Context length exceeded: max " }

  function GotText(): string { ", got " }

  function UsedText(): string { "Memory limit exceeded: used " }

  function LimitText(): string { " bytes, limit " }

  function BytesText(): string { " bytes" }

  function Display(e: InferenceError): string
  {
    match e
    case ModelNotLoaded(id) => ModelText() + id
    case InvalidParams(m) => InvalidText() + m
    case ExecutionFailed(m) => FailedText() + m
    case ContextExceeded(max, got) => MaxText() + (Decimal(max) + (GotText() + Decimal(got)))
    case MemoryExceeded(used, limit) =>
      UsedText() + (Decimal(used) + (LimitText() + (Decimal(limit) + BytesText())))
    case Cancelled => CancelledText()
    case DeadlineExceeded(ms) => DeadlineText() + (WithinText() + Decimal(ms) + TimeoutText())
  }

  predicate At(s: string, part: string, i: nat) { i + |part| <= |s| && s[i..i + |part|] == part }

  predicate Contains(s: string, part: string) { exists i | 0 <= i <= |s| :: At(s, part, i) }

  /** The worker hands errors over as text; the handler reads the code back from it. */
  function Classify(m: string): ErrorCode
  {
    if Contains(m, CancelledText()) then CodeCancelled
    else if Contains(m, DeadlineText()) then CodeDeadlineExceeded
    else if Contains(m, MemoryPhrase()) || Contains(m, "queue full") || Contains(m, "Queue full") then AdmissionRejected
    else if Contains(m, ModelPhrase()) then CodeModelNotLoaded
    else if Contains(m, ContextPhrase()) || Contains(m, "Input validation failed") then InputInvalid
    else CodeExecutionFailed
  }

  lemma StartsWith(part: string, rest: string)
    ensures Contains(part + rest, part)
  {
    assert At(part + rest, part, 0);
  }

  lemma LacksFirst(s: string, part: string)
    requires part != "" && part[0] !in s
    ensures !Contains(s, part)
  {
    forall i | 0 <= i <= |s|
      ensures !At(s, part, i)
    {
      assert i + |part| <= |s| ==> s[i..i + |part|][0] == s[i];
    }
  }

  lemma NoCapitalR()
    ensures 'R' !in DeadlineText() && 'R' !in WithinText() && 'R' !in TimeoutText()
    ensures |CancelledText()| > 0 && CancelledText()[0] == 'R'
  {
  }

  /** The text of a stop is classified back as that stop. */
  lemma StopClassified(c: StopControl, e: InferenceError)
    requires IsStop(c, e)
    ensures Classify(Display(e)) == if e == Cancelled then CodeCancelled else CodeDeadlineExceeded
  {
    hide Contains, CancelledText, DeadlineText, WithinText, TimeoutText;
    if e == Cancelled {
      StartsWith(CancelledText(), "");
      assert CancelledText() + "" == CancelledText();
    } else {
      var rest := WithinText() + Decimal(e.timeoutMs) + TimeoutText();
      assert Display(e) == DeadlineText() + rest;
      StartsWith(DeadlineText(), rest);
      NoCapitalR();
      LacksFirst(Display(e), CancelledText());
    }
  }

  /** The part of an error's text that comes from outside: a model id, a backend's or a validator's message. */
  function Payload(e: InferenceError): string
  {
    match e
    case ModelNotLoaded(id) => id
    case InvalidParams(m) => m
    case ExecutionFailed(m) => m
    case _ => ""
  }

  lemma AtTail(prefix: string, s: string, part: string, i: nat)
    requires i >= |prefix|
    ensures At(prefix + s, part, i) <==> At(s, part, i - |prefix|)
  {
    if i + |part| <= |prefix + s| {
      assert (prefix + s)[i..i + |part|] == s[i - |prefix|..i - |prefix| + |part|];
    }
  }

  /** A phrase whose first letter is not in the prefix is in the text exactly when it is in the rest. */
  lemma ContainsInRest(prefix: string, s: string, part: string)
    requires part != "" && part[0] !in prefix
    ensures Contains(prefix + s, part) <==> Contains(s, part)
  {
    if Contains(prefix + s, part) {
      var i :| 0 <= i <= |prefix + s| && At(prefix + s, part, i);
      assert (prefix + s)[i..i + |part|][0] == (prefix + s)[i];
      assert i >= |prefix|;
      AtTail(prefix, s, part, i);
    }
    if Contains(s, part) {
      var i :| 0 <= i <= |s| && At(s, part, i);
      AtTail(prefix, s, part, i + |prefix|);
    }
  }

  /** Neither of the letters that the stop phrases begin with. */
  predicate NoStopLetter(s: string) { 'R' !in s && 'D' !in s }

  lemma NoStopLetterJoin(a: string, b: string)
    requires NoStopLetter(a) && NoStopLetter(b)
    ensures NoStopLetter(a + b)
  {
  }

  lemma DigitsNoLetter(n: nat)
    ensures NoStopLetter(Decimal(n))
  {
    hide Decimal;
  }

  lemma FailureTexts()
    ensures NoStopLetter(ModelText()) && NoStopLetter(FailedText())
  {
  }

  lemma InvalidTexts()
    ensures NoStopLetter(InvalidText())
  {
  }

  lemma ContextTexts()
    ensures NoStopLetter(MaxText()) && NoStopLetter(GotText())
  {
  }

  lemma MemoryTexts()
    ensures NoStopLetter(UsedText()) && NoStopLetter(LimitText()) && NoStopLetter(BytesText())
  {
  }

  lemma DeadlineLetter()
    ensures |DeadlineText()| > 0 && DeadlineText()[0] == 'D'
  {
  }

  lemma OtherLetters(e: InferenceError)
    requires e.ContextExceeded? || e.MemoryExceeded?
    ensures NoStopLetter(Display(e))
  {
    hide NoStopLetter, Decimal, MaxText, GotText, UsedText, LimitText, BytesText;
    if e.ContextExceeded? {
      ContextTexts();
      DigitsNoLetter(e.max);
      DigitsNoLetter(e.got);
      NoStopLetterJoin(GotText(), Decimal(e.got));
      NoStopLetterJoin(Decimal(e.max), GotText() + Decimal(e.got));
      NoStopLetterJoin(MaxText(), Decimal(e.max) + (GotText() + Decimal(e.got)));
    } else {
      MemoryTexts();
      DigitsNoLetter(e.used);
      DigitsNoLetter(e.limit);
      var tail := Decimal(e.limit) + BytesText();
      NoStopLetterJoin(Decimal(e.limit), BytesText());
      NoStopLetterJoin(LimitText(), tail);
      NoStopLetterJoin(Decimal(e.used), LimitText() + tail);
      NoStopLetterJoin(UsedText(), Decimal(e.used) + (LimitText() + tail));
    }
  }

  lemma EmptyHasNone(part: string)
    requires part != ""
    ensures !Contains("", part)
  {
  }

  /** Which phrases of a stop an error's text holds. */
  lemma StopPhrases(e: InferenceError)
    requires e != Cancelled && !e.DeadlineExceeded?
    ensures Contains(Display(e), CancelledText()) <==> Contains(Payload(e), CancelledText())
    ensures Contains(Display(e), DeadlineText()) <==> Contains(Payload(e), DeadlineText())
  {
    hide Contains, CancelledText, DeadlineText, WithinText, TimeoutText, ModelText, InvalidText, FailedText;
    NoCapitalR();
    DeadlineLetter();
    match e
    case ModelNotLoaded(id) =>
      FailureTexts();
      ContainsInRest(ModelText(), id, CancelledText());
      ContainsInRest(ModelText(), id, DeadlineText());
    case InvalidParams(m) =>
      InvalidTexts();
      ContainsInRest(InvalidText(), m, CancelledText());
      ContainsInRest(InvalidText(), m, DeadlineText());
    case ExecutionFailed(m) =>
      FailureTexts();
      ContainsInRest(FailedText(), m, CancelledText());
      ContainsInRest(FailedText(), m, DeadlineText());
    case _ =>
      hide Display;
      OtherLetters(e);
      LacksFirst(Display(e), CancelledText());
      LacksFirst(Display(e), DeadlineText());
      EmptyHasNone(CancelledText());
      EmptyHasNone(DeadlineText());
  }

  /**
   * What a stop code means: that stop, or an error that carries the stop's phrase in a text from
   * outside. For errors without such a text the code and the stop agree both ways.
   */
  lemma StopCodeMeans(e: InferenceError)
    ensures Classify(Display(e)) == CodeCancelled <==> e == Cancelled || Contains(Payload(e), CancelledText())
    ensures Classify(Display(e)) == CodeDeadlineExceeded <==>
              e.DeadlineExceeded? || (Contains(Payload(e), DeadlineText()) && !Contains(Payload(e), CancelledText()))
  {
    if e == Cancelled || e.DeadlineExceeded? {
      var c := StopControl(false, None, if e.DeadlineExceeded? then e.timeoutMs else 0);
      StopClassified(c, e);
      hide Contains, CancelledText, DeadlineText, Classify, Display;
      assert CancelledText() != "" by { NoCapitalR(); }
      assert DeadlineText() != "" by { DeadlineLetter(); }
      EmptyHasNone(CancelledText());
      EmptyHasNone(DeadlineText());
    } else {
      hide Contains, CancelledText, DeadlineText, Display;
      StopPhrases(e);
    }
  }

  // ---------------------------------------------------------------- the other codes

  lemma MemoryPrefix()
    ensures UsedText() == MemoryPhrase() + ": used "
  {
  }

  lemma ContextPrefix()
    ensures MaxText() == ContextPhrase() + ": max "
  {
  }

  lemma ModelPrefix()
    ensures ModelText() == ModelPhrase() + ": "
  {
  }

  /** A memory refusal is coded as an admission that was rejected. */
  lemma MemoryCode(used: nat, limit: nat)
    ensures Classify(Display(MemoryExceeded(used, limit))) == AdmissionRejected
  {
    hide Contains, CancelledText, DeadlineText, MemoryPhrase, ModelPhrase, ContextPhrase, UsedText, LimitText, BytesText;
    var e := MemoryExceeded(used, limit);
    StopCodeMeans(e);
    NoPhraseInNothing();
    MemoryPrefix();
    var rest := Decimal(used) + (LimitText() + (Decimal(limit) + BytesText()));
    assert Display(e) == MemoryPhrase() + (": used " + rest);
    StartsWith(MemoryPhrase(), ": used " + rest);
  }

  lemma NoPhraseInNothing()
    ensures !Contains("", CancelledText()) && !Contains("", DeadlineText())
  {
    hide Contains, CancelledText, DeadlineText;
    NoCapitalR();
    DeadlineLetter();
    EmptyHasNone(CancelledText());
    EmptyHasNone(DeadlineText());
  }

  /** None of the letters that the phrases of refusals begin with. */
  predicate NoRefusalLetter(s: string) { 'M' !in s && 'q' !in s && 'Q' !in s }

  lemma ContextLetters()
    ensures NoRefusalLetter(MaxText())
  {
  }

  lemma GotLetters()
    ensures NoRefusalLetter(GotText())
  {
  }

  lemma DigitsNoRefusal(n: nat)
    ensures NoRefusalLetter(Decimal(n))
  {
    hide Decimal;
  }

  lemma RefusalLetters()
    ensures |MemoryPhrase()| > 0 && MemoryPhrase()[0] == 'M' && |ModelPhrase()| > 0 && ModelPhrase()[0] == 'M'
  {
  }

  lemma NoRefusalJoin(a: string, b: string)
    requires NoRefusalLetter(a) && NoRefusalLetter(b)
    ensures NoRefusalLetter(a + b)
  {
  }

  lemma ContextText(max: nat, got: nat)
    ensures NoRefusalLetter(Display(ContextExceeded(max, got)))
    ensures Contains(Display(ContextExceeded(max, got)), ContextPhrase())
  {
    hide NoRefusalLetter, Contains, MaxText, GotText, ContextPhrase, Decimal;
    ContextLetters();
    GotLetters();
    DigitsNoRefusal(max);
    DigitsNoRefusal(got);
    NoRefusalJoin(GotText(), Decimal(got));
    NoRefusalJoin(Decimal(max), GotText() + Decimal(got));
    var rest := Decimal(max) + (GotText() + Decimal(got));
    NoRefusalJoin(MaxText(), rest);
    ContextPrefix();
    assert MaxText() + rest == ContextPhrase() + (": max " + rest);
    StartsWith(ContextPhrase(), ": max " + rest);
  }

  lemma LacksRefusals(s: string)
    requires NoRefusalLetter(s)
    ensures !Contains(s, MemoryPhrase()) && !Contains(s, ModelPhrase()) && !Contains(s, "queue full") && !Contains(s, "Queue full")
  {
    hide Contains, MemoryPhrase, ModelPhrase;
    RefusalLetters();
    LacksFirst(s, MemoryPhrase());
    LacksFirst(s, ModelPhrase());
    LacksFirst(s, "queue full");
    LacksFirst(s, "Queue full");
  }

  /** A prompt that is too long is coded as invalid input. */
  lemma ContextCode(max: nat, got: nat)
    ensures Classify(Display(ContextExceeded(max, got))) == InputInvalid
  {
    hide Contains, CancelledText, DeadlineText, MemoryPhrase, ModelPhrase, ContextPhrase, Display, NoRefusalLetter;
    var e := ContextExceeded(max, got);
    StopCodeMeans(e);
    NoPhraseInNothing();
    ContextText(max, got);
    LacksRefusals(Display(e));
  }

  lemma ModelLetters()
    ensures 'q' !in ModelText() && 'Q' !in ModelText()
  {
  }

  /** The prefix of that error begins like the memory phrase, and no further than its first letter. */
  lemma NoMemoryInModel(id: string)
    ensures Contains(ModelText() + id, MemoryPhrase()) <==> Contains(id, MemoryPhrase())
  {
    var rest := ModelText()[1..];
    assert ModelText() == ['M'] + rest && 'M' !in rest && rest[0] == 'o';
    assert MemoryPhrase()[0] == 'M' && MemoryPhrase()[1] == 'e';
    hide Contains, ModelText, MemoryPhrase;
    ContainsInRest(rest, id, MemoryPhrase());
    assert ModelText() + id == ['M'] + (rest + id);
    SecondLetter(rest + id, MemoryPhrase());
  }

  lemma SecondLetter(s: string, part: string)
    requires |part| >= 2 && s != "" && s[0] != part[1]
    ensures Contains(['M'] + s, part) <==> Contains(s, part)
  {
    if Contains(['M'] + s, part) {
      var i :| 0 <= i <= |['M'] + s| && At(['M'] + s, part, i);
      assert (['M'] + s)[i..i + |part|][1] == (['M'] + s)[i + 1];
      AtTail(['M'], s, part, i);
    }
    if Contains(s, part) {
      var i :| 0 <= i <= |s| && At(s, part, i);
      AtTail(['M'], s, part, i + 1);
    }
  }

  /** A missing model is coded as such, exactly if its id holds no phrase that is looked for earlier. */
  lemma ModelCode(id: string)
    ensures Classify(Display(ModelNotLoaded(id))) == CodeModelNotLoaded <==>
            && !Contains(id, "Request cancelled") && !Contains(id, "Deadline exceeded") && !Contains(id, "Memory limit exceeded")
            && !Contains(id, "queue full") && !Contains(id, "Queue full")
  {
    assert CancelledText() == "Request cancelled" && DeadlineText() == "Deadline exceeded" && MemoryPhrase() == "Memory limit exceeded";
    hide Contains, CancelledText, DeadlineText, MemoryPhrase, ModelPhrase, ContextPhrase, ModelText;
    var e := ModelNotLoaded(id);
    StopCodeMeans(e);
    NoMemoryInModel(id);
    ModelLetters();
    ContainsInRest(ModelText(), id, "queue full");
    ContainsInRest(ModelText(), id, "Queue full");
    ModelPrefix();
    assert Display(e) == ModelPhrase() + (": " + id);
    StartsWith(ModelPhrase(), ": " + id);
  }

  lemma FailedLetters()
    ensures NoRefusalLetter(FailedText())
  {
  }

  lemma FailedNoC()
    ensures 'C' !in FailedText()
    ensures |ContextPhrase()| > 0 && ContextPhrase()[0] == 'C'
  {
  }

  lemma FailedTail()
    ensures |FailedText()| == 18 && FailedText()[2] == 'f' && 'I' !in FailedText()[1..]
  {
    assert FailedText()[1..] == "nference failed: ";
  }

  lemma NotInput(m: string)
    requires 'I' !in m
    ensures !Contains(FailedText() + m, "Input validation failed")
  {
    hide FailedText;
    FailedTail();
    var s := FailedText() + m;
    assert s[2] == 'f';
    forall i | 0 <= i <= |s|
      ensures !At(s, "Input validation failed", i)
    {
      if i + 23 <= |s| {
        assert s[i..i + 23][0] == s[i] && s[i..i + 23][2] == s[i + 2];
        if i > 0 {
          assert s[i] == (FailedText()[1..] + m)[i - 1];
        }
      }
    }
  }

  /** A failure whose message holds no letter that begins a phrase is coded as a failed execution. */
  lemma FailureCode(m: string)
    requires NoStopLetter(m) && NoRefusalLetter(m) && 'C' !in m && 'I' !in m
    ensures Classify(Display(ExecutionFailed(m))) == CodeExecutionFailed
  {
    hide Contains, CancelledText, DeadlineText, MemoryPhrase, ModelPhrase, ContextPhrase, FailedText;
    var e := ExecutionFailed(m);
    StopCodeMeans(e);
    NoCapitalR();
    DeadlineLetter();
    LacksFirst(m, CancelledText());
    LacksFirst(m, DeadlineText());
    FailedLetters();
    FailedNoC();
    NoRefusalJoin(FailedText(), m);
    LacksRefusals(FailedText() + m);
    LacksFirst(FailedText() + m, ContextPhrase());
    NotInput(m);
  }

  /** A model of that name is reported as cancelled when it is not loaded. */
  lemma NameLooksCancelled()
    ensures Classify(Display(ModelNotLoaded(CancelledText()))) == CodeCancelled
  {
    hide Classify, Display;
    StartsWith(CancelledText(), "");
    assert CancelledText() + "" == CancelledText();
    StopCodeMeans(ModelNotLoaded(CancelledText()));
  }

  // ---------------------------------------------------------------- the handler

  datatype Response = Response(id: nat, output: string, tokens: nat, finished: bool, error: Option<ErrorCode>)

  function ErrorCoded(id: nat, code: ErrorCode): Response { Response(id, "", 0, true, Some(code)) }

  /** The cancel flag shared with the queued request. */
  class Flag {
    var isSet: bool

    constructor ()
      ensures !isSet
    {
      isSet := false;
    }
  }

  /** What the worker's channel gave: a result, an error text, or nothing because it was dropped. */
  datatype Outcome = Finished(result: InferenceResult) | WorkerError(message: string) | Dropped

  datatype QueueVerdict = Accepted | ContextTooLarge | OtherRefusal

  /** What is ready when the three arms are polled. */
  datatype Ready = Ready(outcome: Option<Outcome>, cancelled: bool, expired: bool)

  function WorkerResponse(id: nat, o: Outcome): Response
  {
    match o
    case Finished(result) => Response(id, result.output, result.tokens, true, None)
    case WorkerError(m) => ErrorCoded(id, Classify(m))
    case Dropped => ErrorCoded(id, CodeExecutionFailed)
  }

  function StoppedResponse(id: nat, e: InferenceError): Response
  {
    ErrorCoded(id, if e.DeadlineExceeded? then CodeDeadlineExceeded else CodeCancelled)
  }

  /**
   * One request from admission to response. The flag exists once the request is checked, and is set
   * on every way out from there; a result that is there wins over a stop, a cancel over the deadline.
   */
  method HandleInference(id: nat, accepting: bool, valid: bool, timeoutMs: nat, verdict: QueueVerdict, ready: Ready)
    returns (r: Response, flag: Flag?)
    requires ready.outcome.Some? || ready.cancelled || ready.expired
    ensures flag != null <==> accepting && valid
    ensures flag != null ==> fresh(flag) && flag.isSet
    ensures r.id == id
    ensures r.finished && (r.error.Some? ==> r.output == "" && r.tokens == 0)
    ensures accepting && valid && verdict == Accepted && ready.outcome == Some(Dropped) ==> r.error == Some(CodeExecutionFailed)
    ensures r.error == None ==>
              accepting && valid && verdict == Accepted && ready.outcome == Some(Finished(InferenceResult(r.output, r.tokens)))
    ensures accepting && valid && verdict == Accepted && ready.outcome.None? ==>
              r == ErrorCoded(id, if ready.cancelled then CodeCancelled else CodeDeadlineExceeded)
    ensures accepting && valid && verdict == Accepted && ready.outcome.Some? ==> r == WorkerResponse(id, ready.outcome.value)
    ensures !accepting ==> r == ErrorCoded(id, ShuttingDown)
    ensures accepting && (!valid || verdict == ContextTooLarge) ==> r == ErrorCoded(id, InputInvalid)
    ensures accepting && valid && verdict == OtherRefusal ==> r == ErrorCoded(id, AdmissionRejected)
  {
    if !accepting {
      return ErrorCoded(id, ShuttingDown), null;
    }
    if !valid {
      return ErrorCoded(id, InputInvalid), null;
    }
    var f := new Flag();
    match verdict {
      case ContextTooLarge => r := ErrorCoded(id, InputInvalid);
      case OtherRefusal => r := ErrorCoded(id, AdmissionRejected);
      case Accepted =>
        if ready.outcome.Some? {
          r := WorkerResponse(id, ready.outcome.value);
        } else if ready.cancelled {
          f.isSet := true;
          r := StoppedResponse(id, Cancelled);
        } else {
          f.isSet := true;
          r := StoppedResponse(id, DeadlineExceeded(timeoutMs));
        }
    }
    // Dropping the guard sets the flag on every path.
    f.isSet := true;
    flag := f;
  }

  /** The worker's answer to a controlled run: the result, or the error as text. */
  function OutcomeOf(result: Result<InferenceResult, InferenceError>): Outcome
  {
    match result
    case Ok(out) => Finished(out)
    case Err(e) => WorkerError(Display(e))
  }

  /**
   * From the run to the caller: a request admitted, run under control and answered by the handler.
   * If a stop is visible at any checkpoint of the run, the response is empty and coded as a stop,
   * whether the worker's answer or the handler's own stop arrives first; and the handler leaves the
   * flag it made set.
   */
  method AnswerRun(models: map<string, Model>, maxContext: nat, r: Request, c: StopControl, looks: seq<Look>, id: nat,
                   answered: bool, cancelled: bool, expired: bool)
    returns (response: Response, flag: Flag?)
    requires |looks| >= 2 && Monotone(looks) && (answered || cancelled || expired)
    ensures flag != null && fresh(flag) && flag.isSet
    ensures forall k | 0 <= k < |looks| && ShouldStop(c, looks[k]) && r.paramsError.None? && (k == 0 || Reaches(models, maxContext, r)) ::
              response in {ErrorCoded(id, CodeCancelled), ErrorCoded(id, CodeDeadlineExceeded)}
    ensures response.error.None? ==> forall k | 0 <= k < |looks| :: !ShouldStop(c, looks[k])
    ensures answered ==> forall k: nat | Decides(models, maxContext, r, c, looks, k) ::
              && (ShowsCancel(c, looks[k]) ==> response == ErrorCoded(id, CodeCancelled))
              && (ShowsTimeUp(c, looks[k]) ==> response == ErrorCoded(id, CodeDeadlineExceeded))
    ensures !answered ==> response == ErrorCoded(id, if cancelled then CodeCancelled else CodeDeadlineExceeded)
  {
    hide Display, Classify;
    var result := RunControlled(models, maxContext, r, c, looks);
    var outcome := if answered then Some(OutcomeOf(result)) else None;
    response, flag := HandleInference(id, true, true, TimeoutOf(r), Accepted, Ready(outcome, cancelled, expired));
    forall k | 0 <= k < |looks| && ShouldStop(c, looks[k]) && r.paramsError.None? && (k == 0 || Reaches(models, maxContext, r))
      ensures response in {ErrorCoded(id, CodeCancelled), ErrorCoded(id, CodeDeadlineExceeded)}
    {
      StopIsAnswered(models, maxContext, r, c, looks, k, id);
    }
    if result.Ok? {
      SuccessExactly(models, maxContext, r, c, looks, result.value);
    }
    forall k: nat | Decides(models, maxContext, r, c, looks, k)
      ensures ShowsCancel(c, looks[k]) ==> WorkerResponse(id, OutcomeOf(result)) == ErrorCoded(id, CodeCancelled)
      ensures ShowsTimeUp(c, looks[k]) ==> WorkerResponse(id, OutcomeOf(result)) == ErrorCoded(id, CodeDeadlineExceeded)
    {
      DecidedCode(models, maxContext, r, c, looks, k, id);
    }
  }

  lemma DecidedCode(models: map<string, Model>, maxContext: nat, r: Request, c: StopControl, looks: seq<Look>, k: nat, id: nat)
    requires |looks| >= 2 && Monotone(looks) && k < |looks| && Decides(models, maxContext, r, c, looks, k)
    ensures var response := WorkerResponse(id, OutcomeOf(RunControlled(models, maxContext, r, c, looks)));
            && (ShowsCancel(c, looks[k]) ==> response == ErrorCoded(id, CodeCancelled))
            && (ShowsTimeUp(c, looks[k]) ==> response == ErrorCoded(id, CodeDeadlineExceeded))
  {
    hide RunControlled, Display, Classify, Monotone, Decides, ShowsCancel, ShowsTimeUp, BackendFinished;
    StopExact(models, maxContext, r, c, looks, c.timeoutMs);
    if ShowsCancel(c, looks[k]) {
      StopClassified(c, Cancelled);
    }
    if ShowsTimeUp(c, looks[k]) {
      StopClassified(c, DeadlineExceeded(c.timeoutMs));
    }
  }

  /**
   * What the caller is told, exactly: an answer coded as a stop means that stop of the run, or an error
   * that carries the stop's phrase in a text from outside.
   */
  lemma CodeExact(models: map<string, Model>, maxContext: nat, r: Request, c: StopControl, looks: seq<Look>, id: nat)
    requires |looks| >= 2 && Monotone(looks)
    ensures var result := RunControlled(models, maxContext, r, c, looks);
            var code, from := WorkerResponse(id, OutcomeOf(result)).error, if result.Err? then Payload(result.error) else "";
            && (code == Some(CodeCancelled) <==>
                  || (exists k: nat :: Decides(models, maxContext, r, c, looks, k) && ShowsCancel(c, looks[k]))
                  || BackendFinished(models, maxContext, r, c, looks, FinishCancelled)
                  || Contains(from, CancelledText()))
            && (code == Some(CodeDeadlineExceeded) <==>
                  || (exists k: nat :: Decides(models, maxContext, r, c, looks, k) && ShowsTimeUp(c, looks[k]))
                  || BackendFinished(models, maxContext, r, c, looks, FinishTimeout)
                  || (Contains(from, DeadlineText()) && !Contains(from, CancelledText())))
  {
    hide RunControlled, Display, Classify, Monotone, Decides, ShowsCancel, ShowsTimeUp, BackendFinished, Contains, CancelledText, DeadlineText;
    var result := RunControlled(models, maxContext, r, c, looks);
    StopExact(models, maxContext, r, c, looks, c.timeoutMs);
    StopExact(models, maxContext, r, c, looks, if r.timeoutMs.Some? then r.timeoutMs.value else 30_000);
    if result.Err? {
      StopCodeMeans(result.error);
      if result.error.DeadlineExceeded? {
        StopExact(models, maxContext, r, c, looks, result.error.timeoutMs);
      }
    } else {
      NoCapitalR();
      DeadlineLetter();
      EmptyHasNone(CancelledText());
      EmptyHasNone(DeadlineText());
    }
  }

  /** A stopped run's error text, read back by the handler. */
  lemma StopIsAnswered(models: map<string, Model>, maxContext: nat, r: Request, c: StopControl, looks: seq<Look>, k: nat, id: nat)
    requires |looks| >= 2 && Monotone(looks) && r.paramsError.None? && (k == 0 || Reaches(models, maxContext, r))
    requires k < |looks| && ShouldStop(c, looks[k])
    ensures var result := RunControlled(models, maxContext, r, c, looks);
            result.Err? && WorkerResponse(id, OutcomeOf(result))
                           in {ErrorCoded(id, CodeCancelled), ErrorCoded(id, CodeDeadlineExceeded)}
  {
    hide RunControlled, Display, Classify;
    StopWins(models, maxContext, r, c, looks, k);
    StopClassified(c, RunControlled(models, maxContext, r, c, looks).error);
  }
}
