/**
 * The chat front end: how one query's reply is chosen from the pipeline's
 * results, how the session transcript grows, and the newest-first pairing it is
 * displayed in.
 */
module App {
  import opened Results
  import opened Utils

  /**
   * The pipeline stages, each of which may raise. Their behaviour (vector search,
   * language-model calls) is not modelled.
   *  - retrieve: `get_retriever()` then `get_relevent_docs(retriever, question)`;
   *  - grade: the relevance grader used by `get_valid_documents`;
   *  - generate: `generate_answer`, given the question and `format_docs(valid_docs)`;
   *  - checkGrounded: `check_hellucincation`, given `format_docs(valid_docs)` and the
   *    answer; the result is the truthiness of the object it returns.
   */
  datatype Stages = Stages(
    retrieve: string -> Outcome<seq<Document>>,
    grade: Grader,
    generate: (string, string) -> Outcome<string>,
    checkGrounded: (string, string) -> Outcome<bool>)

  const HallucinationPrefix := "Hellucination detected: "
  const ErrorReply := "Error occurred while processing your query. Try different question."

  /** The body of the `try` in `chatbot_response`: the answer and its status, or the first exception. */
  function Pipeline(stages: Stages, question: string): Outcome<(string, bool)>
  {
    match stages.retrieve(question)
    case Err(cause) => Err(cause)
    case Ok(docs) =>
      match ValidDocuments(stages.grade, question, docs)
      case Err(cause) => Err(cause)
      case Ok(valid) =>
        var context := FormatDocs(valid);
        match stages.generate(question, context)
        case Err(cause) => Err(cause)
        case Ok(answer) =>
          match stages.checkGrounded(context, answer)
          case Err(cause) => Err(cause)
          case Ok(grounded) => Ok((answer, grounded))
  }

  /** `chatbot_response`: the reply shown for one query. */
  function ChatbotResponse(stages: Stages, userInput: string): (reply: string)
  {
    match Pipeline(stages, userInput)
    case Err(_) => ErrorReply
    case Ok((answer, grounded)) => if grounded then answer else HallucinationPrefix + answer
  }

  /**
   * When every stage succeeds, the reply is the generated answer if the status is
   * truthy and the answer behind the hallucination prefix otherwise.
   */
  lemma ReplyOnSuccess(stages: Stages, question: string, docs: seq<Document>, valid: seq<Document>,
                       answer: string, grounded: bool)
    requires stages.retrieve(question) == Ok(docs)
    requires ValidDocuments(stages.grade, question, docs) == Ok(valid)
    requires stages.generate(question, FormatDocs(valid)) == Ok(answer)
    requires stages.checkGrounded(FormatDocs(valid), answer) == Ok(grounded)
    ensures grounded ==> ChatbotResponse(stages, question) == answer
    ensures !grounded ==> ChatbotResponse(stages, question) == HallucinationPrefix + answer
  {
  }

  /** A stage that raises, the stages before it having succeeded. */
  predicate SomeStageFails(stages: Stages, question: string)
  {
    match stages.retrieve(question)
    case Err(_) => true
    case Ok(docs) =>
      (exists i :: 0 <= i < |docs| && stages.grade(question, docs[i].pageContent).Err?) ||
      match ValidDocuments(stages.grade, question, docs)
      case Err(_) => true
      case Ok(valid) =>
        match stages.generate(question, FormatDocs(valid))
        case Err(_) => true
        case Ok(answer) => stages.checkGrounded(FormatDocs(valid), answer).Err?
  }

  /** Whichever stage raises, the reply is the fixed error text and never the cause. */
  lemma ReplyOnFailure(stages: Stages, question: string)
    requires SomeStageFails(stages, question)
    ensures ChatbotResponse(stages, question) == ErrorReply
  {
    match stages.retrieve(question)
    case Err(_) =>
    case Ok(docs) =>
      ValidDocumentsOkIff(stages.grade, question, docs);
  }

  /** Every reply is one of the three forms. */
  lemma ReplyForms(stages: Stages, question: string)
    ensures var reply := ChatbotResponse(stages, question);
      || reply == ErrorReply
      || (exists answer :: Pipeline(stages, question) == Ok((answer, true)) && reply == answer)
      || (exists answer :: Pipeline(stages, question) == Ok((answer, false)) && reply == HallucinationPrefix + answer)
  {
  }

  /** Stages that retrieve `docs`, grade every one relevant and answer `Melting`. */
  function CrustStages(docs: seq<Document>, grounded: bool): Stages
  {
    Stages(q => Ok(docs), (q, c) => Ok("yes"), (q, c) => Ok("Melting"), (c, a) => Ok(grounded))
  }

  /**
   * A worked query: whatever is retrieved is all relevant and the answer is
   * `Melting`; a truthy status shows it as is, a falsy one behind the prefix.
   */
  lemma CrustExample(docs: seq<Document>, grounded: bool)
    ensures grounded ==> ChatbotResponse(CrustStages(docs, grounded), "What is the crust?") == "Melting"
    ensures !grounded ==>
      ChatbotResponse(CrustStages(docs, grounded), "What is the crust?") == "Hellucination detected: Melting"
  {
    var stages := CrustStages(docs, grounded);
    var question := "What is the crust?";
    ValidDocumentsOkIff(stages.grade, question, docs);
    KeptBounds(stages.grade, question, docs, ValidDocuments(stages.grade, question, docs).value);
  }

  datatype Role = User | Bot

  /** One transcript entry, `{"role": ..., "content": ...}`. */
  datatype Message = Message(role: Role, content: string)

  /** One run of the script: whether the form was submitted, and the text field's value. */
  datatype FormInput = FormInput(submitted: bool, userInput: string)

  /** Whether a run of the script adds to the transcript: a submit with non-empty text. */
  predicate Appends(input: FormInput)
  {
    input.submitted && input.userInput != ""
  }

  /** The transcript after one run of the script. */
  function AfterRun(stages: Stages, messages: seq<Message>, input: FormInput): seq<Message>
  {
    if Appends(input) then
      messages + [Message(User, input.userInput), Message(Bot, ChatbotResponse(stages, input.userInput))]
    else messages
  }

  /** Entries alternate user, bot, user, bot, ... and end with a bot entry. */
  predicate WellPaired(messages: seq<Message>)
  {
    && |messages| % 2 == 0
    && forall i :: 0 <= i < |messages| ==> messages[i].role == (if i % 2 == 0 then User else Bot)
  }

  /**
   * A run that submits text appends the user entry and then the bot entry with
   * the reply, leaving earlier entries as they were; any other run changes
   * nothing. Either way alternation is kept.
   */
  lemma AfterRunAppendsPair(stages: Stages, messages: seq<Message>, input: FormInput)
    ensures var after := AfterRun(stages, messages, input);
      if Appends(input) then
        && |after| == |messages| + 2
        && after[..|messages|] == messages
        && after[|messages|] == Message(User, input.userInput)
        && after[|messages| + 1] == Message(Bot, ChatbotResponse(stages, input.userInput))
      else after == messages
    ensures WellPaired(messages) ==> WellPaired(AfterRun(stages, messages, input))
  {
    var after := AfterRun(stages, messages, input);
    if Appends(input) {
      assert after[..|messages|] == messages;
    }
  }

  /** The transcript of a session that ran the script once per input, starting empty. */
  function Replay(stages: Stages, inputs: seq<FormInput>): seq<Message>
  {
    if inputs == [] then []
    else AfterRun(stages, Replay(stages, inputs[..|inputs| - 1]), inputs[|inputs| - 1])
  }

  /** The number of runs that added to the transcript. */
  function SubmitCount(inputs: seq<FormInput>): nat
  {
    if inputs == [] then 0
    else SubmitCount(inputs[..|inputs| - 1]) + (if Appends(inputs[|inputs| - 1]) then 1 else 0)
  }

  /** A session's transcript is well paired and holds two entries per submit. */
  lemma {:induction false} ReplayWellPaired(stages: Stages, inputs: seq<FormInput>)
    ensures WellPaired(Replay(stages, inputs))
    ensures |Replay(stages, inputs)| == 2 * SubmitCount(inputs)
  {
    if inputs != [] {
      var prev := inputs[..|inputs| - 1];
      ReplayWellPaired(stages, prev);
      AfterRunAppendsPair(stages, Replay(stages, prev), inputs[|inputs| - 1]);
    }
  }

  /** Python's `s[start::2]`. */
  function EveryOther<T>(s: seq<T>, start: nat): seq<T>
    decreases |s| - start
  {
    if start >= |s| then [] else [s[start]] + EveryOther(s, start + 2)
  }

  /** Python's `zip(a, b)`, which stops at the shorter list. */
  function Zip<A, B>(a: seq<A>, b: seq<B>): seq<(A, B)>
  {
    if a == [] || b == [] then [] else [(a[0], b[0])] + Zip(a[1..], b[1..])
  }

  /** Python's `s[::-1]`. */
  function Reverse<T>(s: seq<T>): seq<T>
  {
    if s == [] then [] else Reverse(s[1..]) + [s[0]]
  }

  /** The even-position entries zipped with the odd-position ones, the last pair first. */
  function ReversedPairs<T>(messages: seq<T>): seq<(T, T)>
  {
    Reverse(Zip(EveryOther(messages, 0), EveryOther(messages, 1)))
  }

  lemma {:induction false} EveryOtherAt<T>(s: seq<T>, start: nat)
    requires start <= |s|
    ensures |EveryOther(s, start)| == (|s| - start + 1) / 2
    ensures forall k :: 0 <= k < |EveryOther(s, start)| ==> EveryOther(s, start)[k] == s[start + 2 * k]
    decreases |s| - start
  {
    if start < |s| {
      if start + 2 <= |s| {
        EveryOtherAt(s, start + 2);
      } else {
        assert EveryOther(s, start + 2) == [];
      }
    }
  }

  lemma {:induction false} ZipAt<A, B>(a: seq<A>, b: seq<B>)
    ensures |Zip(a, b)| == if |a| <= |b| then |a| else |b|
    ensures forall k :: 0 <= k < |Zip(a, b)| ==> Zip(a, b)[k] == (a[k], b[k])
  {
    if a != [] && b != [] {
      ZipAt(a[1..], b[1..]);
    }
  }

  lemma {:induction false} ReverseAt<T>(s: seq<T>)
    ensures |Reverse(s)| == |s|
    ensures forall k :: 0 <= k < |s| ==> Reverse(s)[k] == s[|s| - 1 - k]
  {
    if s != [] {
      ReverseAt(s[1..]);
    }
  }

  /**
   * There are floor(n/2) pairs; pair i holds entries 2j and 2j+1 for
   * j = floor(n/2) - 1 - i (newest first), and a trailing odd entry is dropped.
   */
  lemma ReversedPairsAt<T>(messages: seq<T>)
    ensures |ReversedPairs(messages)| == |messages| / 2
    ensures forall i :: 0 <= i < |messages| / 2 ==>
      ReversedPairs(messages)[i] == (messages[2 * (|messages| / 2 - 1 - i)], messages[2 * (|messages| / 2 - 1 - i) + 1])
  {
    if messages == [] {
      assert EveryOther(messages, 0) == [];
    } else {
      var evens, odds := EveryOther(messages, 0), EveryOther(messages, 1);
      EveryOtherAt(messages, 0);
      EveryOtherAt(messages, 1);
      ZipAt(evens, odds);
      ReverseAt(Zip(evens, odds));
    }
  }

  /** On a well-paired transcript every displayed pair is a user entry and the bot's reply. */
  lemma PairsAreExchanges(messages: seq<Message>)
    requires WellPaired(messages)
    ensures forall i :: 0 <= i < |ReversedPairs(messages)| ==>
      ReversedPairs(messages)[i].0.role == User && ReversedPairs(messages)[i].1.role == Bot
  {
    ReversedPairsAt(messages);
  }

  /** A submit puts its exchange at the top of the display and shifts the others down. */
  lemma NewestExchangeFirst(stages: Stages, messages: seq<Message>, input: FormInput)
    requires WellPaired(messages) && Appends(input)
    ensures ReversedPairs(AfterRun(stages, messages, input)) ==
      [(Message(User, input.userInput), Message(Bot, ChatbotResponse(stages, input.userInput)))]
      + ReversedPairs(messages)
  {
    var after := AfterRun(stages, messages, input);
    ReversedPairsAt(messages);
    ReversedPairsAt(after);
    AfterRunAppendsPair(stages, messages, input);
  }

  /** The session transcript `st.session_state.messages`. */
  class ChatSession {
    var messages: seq<Message>

    ghost predicate Valid()
      reads this
    {
      WellPaired(messages)
    }

    /** The first run of a session starts with an empty transcript. */
    constructor ()
      ensures Valid() && messages == []
    {
      messages := [];
    }

    /** One run of the script with the form's state: append the user entry, then the reply. */
    method Run(stages: Stages, submitted: bool, userInput: string)
      requires Valid()
      modifies this
      ensures Valid()
      ensures messages == AfterRun(stages, old(messages), FormInput(submitted, userInput))
    {
      if submitted && userInput != "" {
        messages := messages + [Message(User, userInput)];
        var response := ChatbotResponse(stages, userInput);
        messages := messages + [Message(Bot, response)];
      }
      AfterRunAppendsPair(stages, old(messages), FormInput(submitted, userInput));
    }

    /** The pairs in display order, newest exchange first. */
    function History(): (pairs: seq<(Message, Message)>)
      reads this
      requires Valid()
      ensures |pairs| == |messages| / 2
      ensures forall i :: 0 <= i < |pairs| ==> pairs[i].0.role == User && pairs[i].1.role == Bot
    {
      ReversedPairsAt(messages);
      PairsAreExchanges(messages);
      ReversedPairs(messages)
    }
  }
}
