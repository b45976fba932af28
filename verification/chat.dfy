/**
  The two request handlers that change state: the upload handler (app.py lines
  65-89), which replaces the shared data frame and resets the session, and the
  chat handler (lines 91-158), which asks the translator for one line of code at
  most twice, evaluates it, formats the value and records the exchange.

  The translator (the hosted language model) and the evaluator (`eval` against the
  data frame) are given as functions, so every statement below holds for whatever
  they answer.
 */
module Chat {
  import opened Wrappers
  import opened Text
  import opened Extractor
  import opened Formatter
  import opened Upload

  /** Line 97: the number of translator calls a question may take. */
  const MaxRetries: nat := 2

  /** What `str(e)` says when line 126 calls `.group(0)` on a search that found nothing. */
  const NoneGroupError: string := "'NoneType' object has no attribute 'group'"

  /** Line 94. */
  const NoFrameError: string := "Upload file first."

  // ---------------------------------------------------------------- prompts

  /**
    What the chat handler sends the translator: on the first attempt the system prompt
    built from the schema text and the summary facts (lines 104-105), on the second the
    retry prompt built from the schema, the question, the failing code and its error
    (lines 107-114).
   */
  datatype Prompt =
    | SystemPrompt(schema: string, summary: seq<SummaryLine>, question: string)
    | RetryPrompt(schema: string, question: string, failingCode: string, error: string)

  /** Line 107: the preamble of the retry prompt. */
  function RetryPreamble(schema: string): string {
    "RETRY MODE: Your previous code failed. Fix it.\nSchema: " + schema
  }

  /** The twelve spaces of indentation inside the triple-quoted message of lines 108-114. */
  const Indent: string := "            "

  /** Three values written between four fixed pieces of text. */
  function Fill(a: string, x: string, b: string, y: string, c: string, z: string, d: string): string {
    a + x + b + y + c + z + d
  }

  /** Each value put into `Fill` appears in its result. */
  lemma FillCarries(a: string, x: string, b: string, y: string, c: string, z: string, d: string)
    ensures Contains(Fill(a, x, b, y, c, z, d), x)
    ensures Contains(Fill(a, x, b, y, c, z, d), y)
    ensures Contains(Fill(a, x, b, y, c, z, d), z)
  {
    var f := Fill(a, x, b, y, c, z, d);
    assert f == a + x + (b + y + c + z + d);
    ContainsInfix(a, x, b + y + c + z + d);
    assert f == (a + x + b) + y + (c + z + d);
    ContainsInfix(a + x + b, y, c + z + d);
    assert f == (a + x + b + y + c) + z + d;
    ContainsInfix(a + x + b + y + c, z, d);
  }

  /** Lines 108-114: the message of the retry prompt. */
  function RetryMessage(question: string, failingCode: string, error: string): string {
    Fill("\n" + Indent + "User Question: ", question,
         "\n" + Indent + "Failing Code: ", failingCode,
         "\n" + Indent + "Python Error: ", error,
         "\n" + Indent + "\n" + Indent + "Instruction: Correct the code. Provide ONLY the fixed 1-line Python code.\n" + Indent)
  }

  /** The retry preamble carries the whole schema text. */
  lemma RetryPreambleCarriesSchema(schema: string)
    ensures Contains(RetryPreamble(schema), schema)
  {
    assert RetryPreamble(schema) == "RETRY MODE: Your previous code failed. Fix it.\nSchema: " + schema + "";
    ContainsInfix("RETRY MODE: Your previous code failed. Fix it.\nSchema: ", schema, "");
  }

  /** The retry message carries the question, the failing code and its error text. */
  lemma RetryMessageCarries(question: string, failingCode: string, error: string)
    ensures Contains(RetryMessage(question, failingCode, error), question)
    ensures Contains(RetryMessage(question, failingCode, error), failingCode)
    ensures Contains(RetryMessage(question, failingCode, error), error)
  {
    FillCarries("\n" + Indent + "User Question: ", question,
                "\n" + Indent + "Failing Code: ", failingCode,
                "\n" + Indent + "Python Error: ", error,
                "\n" + Indent + "\n" + Indent + "Instruction: Correct the code. Provide ONLY the fixed 1-line Python code.\n" + Indent);
  }

  /**
    The message the translator receives with a prompt (lines 105 and 108-114): the bare
    question first, and the retry message after that. Its preamble is the system prompt's
    prose (not modelled) or `RetryPreamble(schema)`.
   */
  function MessageOf(p: Prompt): (m: string)
    ensures Contains(m, p.question)
    ensures p.SystemPrompt? ==> m == p.question
    ensures p.RetryPrompt? ==> Contains(m, p.failingCode) && Contains(m, p.error)
  {
    match p
    case SystemPrompt(_, _, question) =>
      assert StartsWith(question, question);
      question
    case RetryPrompt(_, question, code, error) =>
      RetryMessageCarries(question, code, error);
      RetryMessage(question, code, error)
  }

  // ---------------------------------------------------------------- one attempt

  /** What the translator does with a prompt: a reply text, or an exception with its text. */
  datatype Reply = Replied(text: string) | TranslatorError(message: string)

  /** What `eval` does with a line of code: a value, or an exception with its text. */
  datatype Evaluation = Evaluated(value: Value) | Raised(message: string)

  /**
    How one pass through the `try` block of lines 116-130 ends: the code evaluated to a
    value; the code (as far as it was cleaned and extracted) raised, or extraction
    found no match; or the translator itself raised, before any code was produced.
   */
  datatype Attempt =
    | Succeeded(code: string, value: Value)
    | Failed(code: string, error: string)
    | NoReply(error: string)

  /**
    Lines 116-128: ask the translator, clean and extract its reply, evaluate the code.
    When extraction finds nothing, the code kept is the cleaned reply, as the failed
    assignment on line 126 leaves it.
   */
  function Try(prompt: Prompt, translate: Prompt -> Reply, evaluate: string -> Evaluation): (r: Attempt)
    ensures r.NoReply? <==> translate(prompt).TranslatorError?
    ensures r.NoReply? ==> r.error == translate(prompt).message
    ensures !r.NoReply? ==> '`' !in r.code
    ensures r.Succeeded? ==> evaluate(r.code) == Evaluated(r.value)
    ensures r.Failed? ==> r.error == NoneGroupError || evaluate(r.code) == Raised(r.error)
    ensures r.Failed? && r.error != NoneGroupError ==> Extract(r.code) == Some(r.code)
    ensures translate(prompt).Replied? ==>
              var cleaned := Clean(translate(prompt).text);
              && (Extract(cleaned).None? ==> r == Failed(cleaned, NoneGroupError))
              && (Extract(cleaned).Some? ==> r.code == Extract(cleaned).value && (r.Succeeded? <==> evaluate(r.code).Evaluated?))
              && (Extract(cleaned).Some? && r.Failed? ==> evaluate(r.code) == Raised(r.error))
  {
    match translate(prompt)
    case TranslatorError(m) => NoReply(m)
    case Replied(text) =>
      var cleaned := Clean(text);
      match Extract(cleaned)
      case None => Failed(cleaned, NoneGroupError)
      case Some(code) =>
        ExtractedHasNoBacktick(text);
        ExtractIdempotent(cleaned);
        match evaluate(code)
        case Evaluated(v) => Succeeded(code, v)
        case Raised(m) => Failed(code, m)
  }

  // ---------------------------------------------------------------- the retry loop

  /**
    How the loop of lines 102-139 ends: a value was computed by the accepted code; both
    attempts failed and the last error is reported; or the first translator call raised,
    so `generated_code` was never bound and line 135 raises an `UnboundLocalError` that
    no handler catches.
   */
  datatype LoopOutcome = Accepted(code: string, value: Value) | Exhausted(error: string) | Escaped

  /**
    The loop as a specification: the first attempt with the system prompt and, when it
    failed, one retry whose prompt carries that attempt's code and error.
   */
  function Run(schema: string, summary: seq<SummaryLine>, question: string,
               translate: Prompt -> Reply, evaluate: string -> Evaluation): (r: LoopOutcome)
    ensures r.Accepted? ==> '`' !in r.code && evaluate(r.code) == Evaluated(r.value)
    ensures r.Escaped? <==> translate(SystemPrompt(schema, summary, question)).TranslatorError?
  {
    match Try(SystemPrompt(schema, summary, question), translate, evaluate)
    case Succeeded(c, v) => Accepted(c, v)
    case NoReply(_) => Escaped
    case Failed(c0, e0) =>
      match Try(RetryPrompt(schema, question, c0, e0), translate, evaluate)
      case Succeeded(c, v) => Accepted(c, v)
      case Failed(_, e1) => Exhausted(e1)
      case NoReply(e1) => Exhausted(e1)
  }

  /** The prompts the loop sends, in order. */
  function PromptsSent(schema: string, summary: seq<SummaryLine>, question: string,
                       translate: Prompt -> Reply, evaluate: string -> Evaluation): (r: seq<Prompt>)
    ensures 1 <= |r| <= MaxRetries
    ensures r[0] == SystemPrompt(schema, summary, question)
  {
    match Try(SystemPrompt(schema, summary, question), translate, evaluate)
    case Failed(c0, e0) => [SystemPrompt(schema, summary, question), RetryPrompt(schema, question, c0, e0)]
    case _ => [SystemPrompt(schema, summary, question)]
  }

  /**
    Lines 116-128 as they are written: `generated_code` is bound once the reply has been
    cleaned and rebound to the extracted expression; the first exception ends the block.
    `generated` is what `generated_code` was bound to in this pass, if anything.
   */
  method TryBlock(prompt: Prompt, translate: Prompt -> Reply, evaluate: string -> Evaluation)
    returns (generated: Option<string>, result: Attempt)
    ensures result == Try(prompt, translate, evaluate)
    ensures generated.Some? <==> translate(prompt).Replied?
    ensures generated.Some? && !result.NoReply? ==> generated.value == result.code
  {
    match translate(prompt) {
      case TranslatorError(m) =>
        return None, NoReply(m);
      case Replied(text) =>
        var code := Clean(text);
        generated := Some(code);
        match Extract(code) {
          case Some(expression) =>
            code := expression;
            generated := Some(code);
          case None =>
            return generated, Failed(code, NoneGroupError);
        }
        match evaluate(code) {
          case Evaluated(v) =>
            result := Succeeded(code, v);
          case Raised(m) =>
            result := Failed(code, m);
        }
    }
  }

  /**
    Lines 97-139 as they are written: the attempt counter, the error feedback and the
    last failing code carried from one pass to the next, `generated_code` unbound until
    a reply has been cleaned, and a return from inside the loop on the last failure.
   */
  method RetryLoop(schema: string, summary: seq<SummaryLine>, question: string,
                   translate: Prompt -> Reply, evaluate: string -> Evaluation)
    returns (outcome: LoopOutcome, sent: seq<Prompt>)
    ensures outcome == Run(schema, summary, question, translate, evaluate)
    ensures sent == PromptsSent(schema, summary, question, translate, evaluate)
  {
    ghost var first := Try(SystemPrompt(schema, summary, question), translate, evaluate);
    RunByAttempts(schema, summary, question, translate, evaluate);
    var attempt: nat := 0;
    var errorFeedback: Option<string> := None;
    var lastFailedCode: Option<string> := None;
    var generatedCode: Option<string> := None;
    sent := [];
    while attempt < MaxRetries
      invariant attempt < MaxRetries
      invariant attempt == 0 ==> sent == [] && generatedCode.None?
      invariant attempt == 1 ==> first.Failed? && sent == [SystemPrompt(schema, summary, question)]
      invariant attempt == 1 ==> lastFailedCode == Some(first.code) && errorFeedback == Some(first.error)
      invariant attempt == 1 ==> generatedCode.Some?
      decreases MaxRetries - attempt
    {
      var prompt;
      if attempt == 0 {
        prompt := SystemPrompt(schema, summary, question);
      } else {
        prompt := RetryPrompt(schema, question, lastFailedCode.value, errorFeedback.value);
        assert prompt == RetryPrompt(schema, question, first.code, first.error);
      }
      sent := sent + [prompt];
      var generated, result := TryBlock(prompt, translate, evaluate);
      if generated.Some? {
        generatedCode := generated;
      }
      if result.Succeeded? {
        outcome := Accepted(result.code, result.value);
        return;
      }
      attempt := attempt + 1;
      errorFeedback := Some(result.error);
      if generatedCode.None? {
        outcome := Escaped;
        return;
      }
      lastFailedCode := generatedCode;
      if attempt == MaxRetries {
        outcome := Exhausted(result.error);
        return;
      }
    }
    assert false;
  }

  /** `Run` and `PromptsSent` by the way the first attempt ends. */
  lemma RunByAttempts(schema: string, summary: seq<SummaryLine>, question: string,
                      translate: Prompt -> Reply, evaluate: string -> Evaluation)
    ensures var first := Try(SystemPrompt(schema, summary, question), translate, evaluate);
            var run := Run(schema, summary, question, translate, evaluate);
            var sent := PromptsSent(schema, summary, question, translate, evaluate);
            && (first.Succeeded? ==> run == Accepted(first.code, first.value) && sent == [SystemPrompt(schema, summary, question)])
            && (first.NoReply? ==> run == Escaped && sent == [SystemPrompt(schema, summary, question)])
            && (first.Failed? ==>
                  var second := Try(RetryPrompt(schema, question, first.code, first.error), translate, evaluate);
                  && sent == [SystemPrompt(schema, summary, question), RetryPrompt(schema, question, first.code, first.error)]
                  && run == if second.Succeeded? then Accepted(second.code, second.value) else Exhausted(second.error))
  {
  }

  /** The loop never asks more than twice, and asks again only after a failed attempt. */
  lemma AtMostTwoAttempts(schema: string, summary: seq<SummaryLine>, question: string,
                          translate: Prompt -> Reply, evaluate: string -> Evaluation)
    ensures var sent := PromptsSent(schema, summary, question, translate, evaluate);
            |sent| == 2 <==> Try(sent[0], translate, evaluate).Failed?
  {
  }

  /**
    The retry prompt is built from the first attempt: its failing code is the code that
    attempt produced and its error is the text of that attempt's exception.
   */
  lemma RetryCarriesFirstFailure(schema: string, summary: seq<SummaryLine>, question: string,
                                 translate: Prompt -> Reply, evaluate: string -> Evaluation)
    requires |PromptsSent(schema, summary, question, translate, evaluate)| == 2
    ensures var first := Try(SystemPrompt(schema, summary, question), translate, evaluate);
            var retry := PromptsSent(schema, summary, question, translate, evaluate)[1];
            && retry.RetryPrompt? && retry.schema == schema && retry.question == question
            && first.Failed? && retry.failingCode == first.code && retry.error == first.error
  {
  }

  /**
    A question is answered from the first attempt whenever its code evaluates, and the
    retry is never consulted.
   */
  lemma FirstSuccessWins(schema: string, summary: seq<SummaryLine>, question: string,
                         translate: Prompt -> Reply, evaluate: string -> Evaluation)
    requires Try(SystemPrompt(schema, summary, question), translate, evaluate).Succeeded?
    ensures var first := Try(SystemPrompt(schema, summary, question), translate, evaluate);
            Run(schema, summary, question, translate, evaluate) == Accepted(first.code, first.value)
            && |PromptsSent(schema, summary, question, translate, evaluate)| == 1
  {
  }

  /** When the first attempt fails with code and the retry's code evaluates, the retry's code and value are accepted. */
  lemma RetrySuccessAccepted(schema: string, summary: seq<SummaryLine>, question: string,
                             translate: Prompt -> Reply, evaluate: string -> Evaluation)
    requires Try(SystemPrompt(schema, summary, question), translate, evaluate).Failed?
    requires var first := Try(SystemPrompt(schema, summary, question), translate, evaluate);
             Try(RetryPrompt(schema, question, first.code, first.error), translate, evaluate).Succeeded?
    ensures var first := Try(SystemPrompt(schema, summary, question), translate, evaluate);
            var second := Try(RetryPrompt(schema, question, first.code, first.error), translate, evaluate);
            Run(schema, summary, question, translate, evaluate) == Accepted(second.code, second.value)
            && |PromptsSent(schema, summary, question, translate, evaluate)| == 2
  {
  }

  /** A question ends without a value only after both attempts failed (or the first call raised). */
  lemma ExhaustedAfterTwoFailures(schema: string, summary: seq<SummaryLine>, question: string,
                                  translate: Prompt -> Reply, evaluate: string -> Evaluation)
    requires Run(schema, summary, question, translate, evaluate).Exhausted?
    ensures var sent := PromptsSent(schema, summary, question, translate, evaluate);
            && |sent| == 2
            && !Try(sent[0], translate, evaluate).Succeeded?
            && !Try(sent[1], translate, evaluate).Succeeded?
            && Run(schema, summary, question, translate, evaluate).error == Try(sent[1], translate, evaluate).error
  {
  }

  // ---------------------------------------------------------------- answers

  /** Line 139: the answer after the last failure; it names the error, not the code. */
  function FailureAnswer(error: string): string {
    "The Agent tried to fix the code " + NatStr(MaxRetries) + " times but failed.<br>Error: <code>" + error + "</code>"
  }

  /**
    The failure answer states the number of attempts and shows the error text whole,
    and different errors give different answers.
   */
  lemma FailureAnswerShowsError(e1: string, e2: string)
    ensures Contains(FailureAnswer(e1), NatStr(MaxRetries))
    ensures Contains(FailureAnswer(e1), e1)
    ensures FailureAnswer(e1) == FailureAnswer(e2) ==> e1 == e2
  {
    var lead := "The Agent tried to fix the code ";
    var head := lead + NatStr(MaxRetries) + " times but failed.<br>Error: <code>";
    var tail := "</code>";
    assert FailureAnswer(e1) == lead + NatStr(MaxRetries) + (" times but failed.<br>Error: <code>" + e1 + tail);
    ContainsInfix(lead, NatStr(MaxRetries), " times but failed.<br>Error: <code>" + e1 + tail);
    ContainsInfix(head, e1, tail);
    if FailureAnswer(e1) == FailureAnswer(e2) {
      InfixCancels(head, e1, e2, tail);
    }
  }

  /** The reply of the chat handler: a JSON answer, a 400 error, or a 500 from an exception nobody caught. */
  datatype ChatReply = Answer(html: string) | Rejected(error: string) | InternalError

  /** Lines 139-158: the reply for each way the loop ends. */
  function ReplyFor(outcome: LoopOutcome): (r: ChatReply)
    ensures outcome.Accepted? ==> r == Answer(Format(outcome.value))
    ensures outcome.Exhausted? ==> r == Answer(FailureAnswer(outcome.error)) && Contains(r.html, outcome.error)
    ensures outcome.Escaped? <==> r.InternalError?
  {
    match outcome
    case Accepted(_, v) => Answer(Format(v))
    case Exhausted(e) => FailureAnswerShowsError(e, e); Answer(FailureAnswer(e))
    case Escaped => InternalError
  }

  // ---------------------------------------------------------------- history

  datatype Role = User | Assistant

  /** One entry of the chat history: `{"role": ..., "content": ...}`. */
  datatype Turn = Turn(role: Role, content: string)

  /** The history as the handlers keep it: a user turn followed by an assistant turn, for each answered question. */
  predicate Alternating(history: seq<Turn>) {
    |history| % 2 == 0
    && forall i :: 0 <= i < |history| ==> history[i].role == (if i % 2 == 0 then User else Assistant)
  }

  /** Line 153: `session.get('chat_history', [])`. */
  function HistoryOf(stored: Option<seq<Turn>>): seq<Turn> {
    match stored
    case Some(h) => h
    case None => []
  }

  /** Lines 153-156: the question and the accepted code appended, the earlier entries kept. */
  function Record(history: seq<Turn>, question: string, code: string): (r: seq<Turn>)
    ensures |r| == |history| + 2 && r[..|history|] == history
    ensures r[|history|] == Turn(User, question) && r[|history| + 1] == Turn(Assistant, code)
    ensures Alternating(history) ==> Alternating(r)
  {
    history + [Turn(User, question), Turn(Assistant, code)]
  }

  // ---------------------------------------------------------------- the server state

  /** The per-client session (Flask's `session`): the schema text and the chat history, each possibly absent. */
  class Session {
    var fileSchema: Option<string>
    var chatHistory: Option<seq<Turn>>

    /** A new session, or one the index page has cleared (line 62). */
    constructor ()
      ensures fileSchema.None? && chatHistory.None?
    {
      fileSchema := None;
      chatHistory := None;
    }

    /** Line 62: `session.clear()`. */
    method Clear()
      modifies this
      ensures fileSchema.None? && chatHistory.None?
    {
      fileSchema := None;
      chatHistory := None;
    }
  }

  /** The application: the one data frame shared by every client (the global `df`). */
  class App {
    var frame: Table?

    constructor ()
      ensures frame == null
    {
      frame := null;
    }

    /**
      Lines 73-86 for a file the reader accepted as `columns` with `rowCount` rows: the
      frame is replaced by that table with normalised names, the clean-name column and
      the amount columns cleaned; the session then holds that table's schema and an
      empty history.
     */
    method Upload(session: Session, columns: seq<Column>, rowCount: nat, toNumeric: seq<string> -> DType)
      requires forall i :: 0 <= i < |columns| ==> |columns[i].cells| == rowCount
      modifies this, session
      ensures frame != null && fresh(frame) && frame.Valid()
      ensures frame.columns == UploadedColumns(columns, toNumeric) && frame.rowCount == rowCount
      ensures forall c :: c in frame.columns ==> NormalizeName(c.name) == c.name
      ensures session.fileSchema == Some(ColumnInfo(frame.columns))
      ensures session.chatHistory == Some([])
    {
      var table := new Table(columns, rowCount);
      frame := table;
      table.NormalizeColumnNames();
      table.AddCleanNameColumn();
      ghost var named := table.columns;
      table.CoerceAmountColumns(toNumeric);
      UploadedBySteps(columns, named, table.columns, toNumeric);
      UploadedNamesNormalized(columns, toNumeric);
      session.fileSchema := Some(ColumnInfo(table.columns));
      session.chatHistory := Some([]);
    }

    /**
      Lines 91-158: without a frame the question is refused; a session without a schema
      raises before any translator call; otherwise the loop runs, its outcome is
      answered, and only an accepted answer is recorded in the history.
     */
    method Chat(session: Session, question: string, translate: Prompt -> Reply, evaluate: string -> Evaluation)
      returns (reply: ChatReply)
      requires frame != null ==> frame.Valid()
      modifies session
      ensures frame == null ==> reply == Rejected(NoFrameError)
      ensures frame != null && old(session.fileSchema).None? ==> reply == InternalError
      ensures frame != null && old(session.fileSchema).Some? ==>
                var outcome := Run(old(session.fileSchema).value, Summary(frame.rowCount, frame.columns),
                                   question, translate, evaluate);
                && reply == ReplyFor(outcome)
                && (outcome.Accepted? ==>
                      session.chatHistory == Some(Record(HistoryOf(old(session.chatHistory)), question, outcome.code)))
                && (!outcome.Accepted? ==> session.chatHistory == old(session.chatHistory))
      ensures frame == null || old(session.fileSchema).None? ==> session.chatHistory == old(session.chatHistory)
      ensures session.fileSchema == old(session.fileSchema)
    {
      if frame == null {
        return Rejected(NoFrameError);
      }
      if session.fileSchema.None? {
        return InternalError;
      }
      var summary := Summary(frame.rowCount, frame.columns);
      var outcome, _ := RetryLoop(session.fileSchema.value, summary, question, translate, evaluate);
      reply := ReplyFor(outcome);
      if outcome.Accepted? {
        session.chatHistory := Some(Record(HistoryOf(session.chatHistory), question, outcome.code));
      }
    }
  }
}
