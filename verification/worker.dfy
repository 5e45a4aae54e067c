/** `GeminiWorker.run`: the checks made before calling the service, the choice
    between a single-turn and a multi-turn call, and the interpretation of what
    the service returns. The service itself is the parameter `reply`. */
module Worker {
  import opened Wrappers
  import opened Transcript
  import opened ApiErrors

  /** What `GeminiWorker.__init__` stores: the key, the prompt and the history copy. */
  datatype Job = Job(apiKey: string, message: string, history: seq<Turn>)

  /** The call the worker makes: `generate_content(message)` or
      `start_chat(history=...).send_message(message)`. */
  datatype Request = SingleTurn(prompt: string) | MultiTurn(history: seq<Turn>, prompt: string)

  /** One content part; `text` is `None` when the part has no `text` attribute. */
  datatype Part = Part(text: Option<string>)

  datatype Candidate = Candidate(parts: seq<Part>)

  /** A returned response. `text` is `None` when reading `response.text` raises
      `ValueError`; a missing `candidates` attribute is the empty sequence;
      `blockReason` is `None` when there is no prompt feedback or its block
      reason is falsy, and otherwise holds the reason as formatted text. */
  datatype Response = Response(text: Option<string>, candidates: seq<Candidate>, blockReason: Option<string>)

  /** The outcome of the call: it raised an exception with the given text, or it
      returned a response (`None` for a falsy response object). */
  datatype CallResult = Raised(error: string) | Returned(response: Option<Response>)

  /** The two signals of the worker; a run emits exactly one of them. */
  datatype Signal = ResponseReceived(text: string) | ErrorOccurred(message: string)

  const LibraryMissing := "Google AI library not installed."
  const KeyMissing := "API Key not set. Please configure it in Settings."
  const PartsWithoutText := "API response candidate parts contained no text."
  const EmptyResponse := "Received an empty or unexpected response format from the API."

  function BlockedMessage(reason: string): (msg: string)
  {
    "Request blocked: " + reason + ". Please modify your prompt."
  }

  /** The history handed to `start_chat`: the entries with both a role and parts,
      which in this model is every entry. */
  function FormattedHistory(h: seq<Turn>): (r: seq<Turn>)
  {
    h
  }

  /** Which call the worker makes for a job. */
  function PlanRequest(job: Job): (req: Request)
    ensures req.prompt == job.message
    ensures req.SingleTurn? <==> |job.history| == 0
    ensures req.MultiTurn? ==> req.history == job.history
  {
    var formatted := FormattedHistory(job.history);
    if |formatted| == 0 then SingleTurn(job.message) else MultiTurn(formatted, job.message)
  }

  /** `"".join(part.text for part in parts if hasattr(part, 'text'))`. */
  function JoinTexts(parts: seq<Part>): (joined: string)
  {
    if |parts| == 0 then ""
    else parts[0].text.GetOr("") + JoinTexts(parts[1..])
  }

  /** The join is empty exactly when every part that has text has empty text. */
  lemma {:induction false} JoinEmptyIff(parts: seq<Part>)
    ensures JoinTexts(parts) == "" <==>
      forall i :: 0 <= i < |parts| && parts[i].text.Some? ==> parts[i].text.value == ""
  {
    if |parts| > 0 {
      JoinEmptyIff(parts[1..]);
      assert forall i :: 1 <= i < |parts| ==> parts[i] == parts[1..][i - 1];
    }
  }

  /** The join keeps the parts' texts in order: one part more adds its text at the end. */
  lemma {:induction false} JoinAppend(parts: seq<Part>, p: Part)
    ensures JoinTexts(parts + [p]) == JoinTexts(parts) + p.text.GetOr("")
  {
    if |parts| == 0 {
      assert parts + [p] == [p];
    } else {
      assert (parts + [p])[1..] == parts[1..] + [p];
      JoinAppend(parts[1..], p);
    }
  }

  /** The first candidate has at least one part (`response.candidates and
      response.candidates[0].content.parts`). */
  predicate HasParts(r: Response)
  {
    |r.candidates| > 0 && |r.candidates[0].parts| > 0
  }

  /** The response handling of `run`, in the order `run` tests the response. */
  function Interpret(resp: Option<Response>): (s: Signal)
    ensures resp.Some? && resp.value.text.Some? ==> s == ResponseReceived(resp.value.text.value)
    ensures resp.Some? && resp.value.text.None? && HasParts(resp.value) ==>
      var joined := JoinTexts(resp.value.candidates[0].parts);
      s == (if joined != "" then ResponseReceived(joined) else ErrorOccurred(PartsWithoutText))
    ensures resp.Some? && resp.value.text.None? && !HasParts(resp.value) && resp.value.blockReason.Some? ==>
      s == ErrorOccurred(BlockedMessage(resp.value.blockReason.value))
    ensures resp.None? || (resp.value.text.None? && !HasParts(resp.value) && resp.value.blockReason.None?) ==>
      s == ErrorOccurred(EmptyResponse)
  {
    if resp.None? then ErrorOccurred(EmptyResponse)
    else
      var r := resp.value;
      match r.text
      case Some(t) => ResponseReceived(t)
      case None =>
        if HasParts(r) then
          var joined := JoinTexts(r.candidates[0].parts);
          if joined != "" then ResponseReceived(joined) else ErrorOccurred(PartsWithoutText)
        else if r.blockReason.Some? then ErrorOccurred(BlockedMessage(r.blockReason.value))
        else ErrorOccurred(EmptyResponse)
  }

  /** `GeminiWorker.run` with `GOOGLE_AI_AVAILABLE == lib`: the library check comes
      first, then the key check, and neither consults the service. */
  function Run(lib: bool, job: Job, reply: Request -> CallResult): (s: Signal)
    ensures !lib ==> s == ErrorOccurred(LibraryMissing)
    ensures lib && job.apiKey == "" ==> s == ErrorOccurred(KeyMissing)
    ensures lib && job.apiKey != "" && reply(PlanRequest(job)).Raised? ==>
      s == ErrorOccurred(ApiErrorMessage(reply(PlanRequest(job)).error))
    ensures lib && job.apiKey != "" && reply(PlanRequest(job)).Returned? ==>
      s == Interpret(reply(PlanRequest(job)).response)
    ensures s.ResponseReceived? ==>
      lib && job.apiKey != "" && reply(PlanRequest(job)).Returned?
      && reply(PlanRequest(job)).response.Some?
  {
    if !lib then ErrorOccurred(LibraryMissing)
    else if job.apiKey == "" then ErrorOccurred(KeyMissing)
    else
      match reply(PlanRequest(job))
      case Raised(e) => ErrorOccurred(ApiErrorMessage(e))
      case Returned(resp) => Interpret(resp)
  }

  /** When a precondition fails the outcome does not depend on the service at all. */
  lemma PreconditionsPrecedeCall(lib: bool, job: Job, reply1: Request -> CallResult, reply2: Request -> CallResult)
    requires !lib || job.apiKey == ""
    ensures Run(lib, job, reply1) == Run(lib, job, reply2)
    ensures Run(lib, job, reply1).ErrorOccurred?
  {
  }

  /** A successful run carries either the response's direct text or the non-empty
      join of its first candidate's parts; an empty success can only come from
      a direct text. */
  lemma SuccessCarriesResponseText(resp: Option<Response>, t: string)
    requires Interpret(resp) == ResponseReceived(t)
    ensures resp.Some?
    ensures resp.value.text == Some(t)
      || (resp.value.text.None? && HasParts(resp.value) && t == JoinTexts(resp.value.candidates[0].parts))
    ensures t == "" ==> resp.value.text == Some("")
  {
  }

  /** A direct text wins even over a block reason and over candidate parts. */
  lemma DirectTextWins(t: string, cands: seq<Candidate>, reason: string)
    ensures Interpret(Some(Response(Some(t), cands, Some(reason)))) == ResponseReceived(t)
  {
  }

  /** Parts that carry only empty texts are reported as "contained no text", not as blocked. */
  lemma EmptyPartsAreNotBlocked(parts: seq<Part>, reason: string)
    requires |parts| > 0
    requires forall i :: 0 <= i < |parts| && parts[i].text.Some? ==> parts[i].text.value == ""
    ensures Interpret(Some(Response(None, [Candidate(parts)], Some(reason)))) == ErrorOccurred(PartsWithoutText)
  {
    JoinEmptyIff(parts);
  }
}
