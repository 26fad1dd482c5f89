/** One turn of the agent loop as functions of what happens around it: the model, the
    gate, the executor, the hooks and the users. Only the iteration order of the map of
    stopped calls is not determined by these; it is in the results of each round. */
module TurnSpec {
  import opened Anchoring
  import opened Conversation
  import opened Options
  import opened Padding
  import opened Pairing
  import opened SessionState
  import opened ToolRound
  import Compaction

  // ----- the messages of one round -----

  function Answer(c: ToolCall, r: Result): Message {
    ToolMessage(c.id, r.toolName, r.text)
  }

  /** One tool message per result, under the id of the call at the same position. */
  function AllAnswers(calls: seq<ToolCall>, results: seq<Result>): seq<Message> {
    var n := |results| - 1;
    if n < 0 || |calls| <= n then []
    else AllAnswers(calls, results[..n]) + [Answer(calls[n], results[n])]
  }

  /** Those that are written to the session: ephemeral results stay out. */
  function KeptAnswers(calls: seq<ToolCall>, results: seq<Result>): seq<Message> {
    var n := |results| - 1;
    if n < 0 || |calls| <= n then []
    else
      var front := KeptAnswers(calls, results[..n]);
      if results[n].ephemeral then front else front + [Answer(calls[n], results[n])]
  }

  /** The calls that are written to the session: ephemeral ones are stripped. */
  function Persisted(calls: seq<ToolCall>, ephemeral: string -> bool): seq<ToolCall> {
    if calls == [] then [] else
      var c := calls[|calls| - 1];
      var front := Persisted(calls[..|calls| - 1], ephemeral);
      if ephemeral(c.name) then front else front + [c]
  }

  // ----- repetition -----

  predicate SameSignature(c: ToolCall, d: ToolCall) {
    c.name == d.name && c.args == d.args
  }

  /** How many calls at the end of the stream have the same name and arguments. */
  function Streak(calls: seq<ToolCall>): nat {
    var n := |calls|;
    if n == 0 then 0
    else if n > 1 && SameSignature(calls[n - 1], calls[n - 2]) then Streak(calls[..n - 1]) + 1
    else 1
  }

  /** Somewhere in the batch three calls in a row, counted over the turn, are the same. */
  ghost predicate Repeats(stream: seq<ToolCall>, calls: seq<ToolCall>) {
    exists k :: 0 < k <= |calls| && Streak(stream + calls[..k]) >= 3
  }

  // ----- what a turn finds and what happens around it -----

  datatype Reply = Failed | Reply(content: string, calls: seq<ToolCall>)

  datatype Synthetic = Synthetic(name: string, args: string, result: string)

  /** Calls that hooks inject: each with its result. */
  function SyntheticRound(item: Synthetic): seq<Message> {
    var id := "synth-" + item.name;
    [Message(Assistant, "", [ToolCall(id, item.name, item.args)], "", "", ""), ToolMessage(id, "", item.result)]
  }

  function SyntheticRounds(items: seq<Synthetic>): seq<Message> {
    if items == [] then []
    else SyntheticRounds(items[..|items| - 1]) + SyntheticRound(items[|items| - 1])
  }

  const WARNING := "Loop detected"
  const CAP_TEXT := "I've reached the maximum number of tool iterations"
  const NUDGE := "You've used all tool-call iterations available for this turn."
  const FAILED_NUDGE := "The last rounds of tool calls all failed"
  const FAILED_LIMIT: nat := 3

  /** What the model is asked with, and whether it may call tools. */
  datatype Request = Request(messages: seq<Message>, tools: bool)

  /** After three failed rounds in a row the model has to answer without tools. */
  function RequestFor(messages: seq<Message>, failedRounds: nat): Request {
    if failedRounds >= FAILED_LIMIT then Request(messages + [Plain(System, FAILED_NUDGE)], false)
    else Request(messages, true)
  }

  /** The session when the turn begins, and the inbound message. */
  datatype Opening = Opening(history: seq<Message>, pending: seq<Message>, approved: seq<ToolCall>,
                             hints: seq<Message>, text: string, summary: Option<string>) {
    /** The history in front of the loop. */
    function Compact(): seq<Message> {
      Compaction.Compacted(history + [Plain(User, text)], summary).1
    }
  }

  /** How an iteration goes: a hook answers itself, the model call fails, the model answers
      in text, the repetition guard strikes, or tools are called. */
  datatype Kind = Skipped | Broken | Spoke | Looped | Called

  /** Everything outside the loop, by iteration; steer holds what users push while an
      iteration runs, late what they push behind the last one. */
  datatype Environment = Environment(
    maxIterations: nat,
    cap: nat,
    ephemeral: string -> bool,
    failing: Result -> bool,
    runId: nat -> string,
    approvedResponses: seq<Response>,
    synthetic: nat -> seq<Synthetic>,
    skip: nat -> bool,
    reply: nat -> Reply,
    verdict: nat -> (ToolCall -> Verdict),
    responses: nat -> seq<Response>,
    steer: nat -> seq<Message>,
    finalReply: Reply,
    late: seq<Message>)
  {
    function CallsAt(k: nat): seq<ToolCall> {
      if reply(k).Reply? then reply(k).calls else []
    }

    function ContentAt(k: nat): string {
      if reply(k).Reply? then reply(k).content else ""
    }

    function BatchAt(k: nat): Batch {
      Batch(CallsAt(k), cap, verdict(k), responses(k), ephemeral)
    }

    /** Every call of the turn before iteration n. */
    function Stream(n: nat): seq<ToolCall> {
      if n == 0 then [] else Stream(n - 1) + CallsAt(n - 1)
    }

    ghost function KindAt(k: nat): Kind {
      if skip(k) then Skipped
      else if reply(k).Failed? then Broken
      else if CallsAt(k) == [] then Spoke
      else if Repeats(Stream(k), CallsAt(k)) then Looped
      else Called
    }

    /** What the buffer holds at the end of iteration k; earlier iterations emptied it. */
    function Steered(pending: seq<Message>, k: nat): seq<Message> {
      if k == 0 then pending + steer(k) else steer(k)
    }

    ghost predicate Ends(pending: seq<Message>, k: nat) {
      match KindAt(k)
      case Called => false
      case Spoke => Steered(pending, k) == []
      case _ => true
    }

    /** The results of round k are possible ones. */
    ghost predicate Fits(k: nat, results: seq<Result>) {
      KindAt(k).Called? ==> BatchAt(k).Admits(results)
    }

    /** Only users push. */
    ghost predicate UsersPush(pending: seq<Message>) {
      UserMessages(pending) && UserMessages(late) && forall k: nat :: UserMessages(steer(k))
    }

    // ----- the run of a turn -----

    ghost predicate Runs(pending: seq<Message>, rounds: seq<seq<Result>>) {
      && |rounds| <= maxIterations
      && (forall k :: 0 <= k < |rounds| ==> Fits(k, rounds[k]))
      && (forall k :: 0 <= k < |rounds| - 1 ==> !Ends(pending, k))
    }

    ghost predicate EndedBy(pending: seq<Message>, n: nat) {
      n > 0 && Ends(pending, n - 1)
    }

    ghost predicate LoopedBy(n: nat) {
      n > 0 && KindAt(n - 1).Looped?
    }

    /** The loop was left behind these rounds, and not before. */
    ghost predicate Completes(pending: seq<Message>, rounds: seq<seq<Result>>) {
      Runs(pending, rounds) && (EndedBy(pending, |rounds|) || |rounds| == maxIterations)
    }

    // ----- what it writes to the session -----

    function Recorded(k: nat): Message {
      Message(Assistant, ContentAt(k), Persisted(CallsAt(k), ephemeral), "", "", "")
    }

    ghost function Body(pending: seq<Message>, k: nat, results: seq<Result>): seq<Message> {
      match KindAt(k)
      case Spoke => [Plain(Assistant, ContentAt(k))] + Steered(pending, k)
      case Looped => [Recorded(k), Plain(System, WARNING)]
      case Called => [Recorded(k)] + KeptAnswers(CallsAt(k), results) + Steered(pending, k)
      case _ => []
    }

    ghost function Piece(pending: seq<Message>, k: nat, results: seq<Result>): seq<Message> {
      SyntheticRounds(synthetic(k)) + Body(pending, k, results)
    }

    ghost function Written(pending: seq<Message>, rounds: seq<seq<Result>>): seq<Message> {
      var n := |rounds| - 1;
      if n < 0 then [] else Written(pending, rounds[..n]) + Piece(pending, n, rounds[n])
    }

    /** Whether the turn closes with one more model call, without tools. */
    ghost predicate Forced(pending: seq<Message>, n: nat) {
      LoopedBy(n) || !EndedBy(pending, n)
    }

    function FinalText(): string {
      if finalReply.Reply? && finalReply.content != "" then finalReply.content else CAP_TEXT
    }

    ghost function Closing(pending: seq<Message>, n: nat): seq<Message> {
      if Forced(pending, n) then [Plain(Assistant, FinalText())] else []
    }

    /** The round that the approved calls become. */
    function Renamed(calls: seq<ToolCall>): (r: seq<ToolCall>)
      ensures |r| == |calls|
    {
      seq(|calls|, i requires 0 <= i < |calls| => calls[i].(id := "authrun-" + runId(i)))
    }

    function ApprovedAnswers(calls: seq<ToolCall>): (r: seq<Message>)
      ensures |r| == |calls|
    {
      seq(|calls|, i requires 0 <= i < |calls| =>
        ToolMessage(Renamed(calls)[i].id, calls[i].name, Executed(calls[i], approvedResponses, ephemeral).text))
    }

    function ApprovedRound(calls: seq<ToolCall>): seq<Message> {
      if calls == [] then []
      else [Message(Assistant, "", Renamed(calls), "", "", "")] + ApprovedAnswers(calls)
    }

    /** The history in front of the loop. */
    function Base(o: Opening): seq<Message> {
      o.Compact() + ApprovedRound(o.approved)
    }

    /** The history when the loop is left. */
    ghost function Ended(o: Opening, rounds: seq<seq<Result>>): seq<Message> {
      Base(o) + Written(o.pending, rounds) + Closing(o.pending, |rounds|)
    }

    /** What the steering buffer holds when the loop is left. */
    ghost function Left(pending: seq<Message>, n: nat): seq<Message> {
      if n == 0 then pending
      else if KindAt(n - 1).Spoke? || KindAt(n - 1).Called? then []
      else Steered(pending, n - 1)
    }

    /** Every persisted call of these rounds has a persisted result. */
    ghost predicate Covered(rounds: seq<seq<Result>>) {
      forall k :: 0 <= k < |rounds| && KindAt(k).Called? ==> BatchAt(k).Covers(rounds[k])
    }

    /** The iteration writes a message with calls to the session. */
    ghost predicate WritesCalls(k: nat) {
      synthetic(k) != [] || ((KindAt(k).Looped? || KindAt(k).Called?) && HasCalls(Recorded(k)))
    }

    ghost predicate Followed(k: nat, n: nat) {
      exists m :: k < m < n && WritesCalls(m)
    }

    /** Only the latest message with calls may lack results. */
    ghost predicate CoveredBeforeCalls(rounds: seq<seq<Result>>) {
      forall k :: 0 <= k < |rounds| && KindAt(k).Called? && Followed(k, |rounds|) ==> BatchAt(k).Covers(rounds[k])
    }

    /** Every persisted result of these rounds has a persisted call. */
    ghost predicate AllAnchored(rounds: seq<seq<Result>>) {
      forall k :: 0 <= k < |rounds| && KindAt(k).Called? ==> Anchored(BatchAt(k), rounds[k])
    }

    /** The repetition guard broke off a batch with a persisted call. */
    ghost predicate CutOff(n: nat) {
      LoopedBy(n) && HasCalls(Recorded(n - 1))
    }

    /** The history when the turn is over; depth counts the turns in flight with this one. */
    ghost function Final(o: Opening, rounds: seq<seq<Result>>, depth: nat): seq<Message> {
      Padded(Ended(o, rounds)) + Leftover(depth, Left(o.pending, |rounds|) + late)
    }

    /** The calls that the gate parked for the user. */
    ghost function ParkedAt(k: nat): seq<ToolCall> {
      if KindAt(k).Called? then PromptedOf(BatchAt(k).Looked(), verdict(k)) else []
    }

    ghost function Parked(n: nat): seq<ToolCall> {
      if n == 0 then [] else Parked(n - 1) + ParkedAt(n - 1)
    }

    // ----- what the model is asked with -----

    function Full(k: nat): Message {
      Message(Assistant, ContentAt(k), CallsAt(k), "", "", "")
    }

    /** What the live list grows by; an empty answer is not carried on. */
    ghost function LiveBody(pending: seq<Message>, k: nat, results: seq<Result>): seq<Message> {
      match KindAt(k)
      case Spoke =>
        if Steered(pending, k) == [] then []
        else if ContentAt(k) == "" then Steered(pending, k)
        else [Plain(Assistant, ContentAt(k))] + Steered(pending, k)
      case Looped => [Full(k), Plain(System, WARNING)]
      case Called => [Full(k)] + AllAnswers(CallsAt(k), results) + Steered(pending, k)
      case _ => []
    }

    ghost function Live(pending: seq<Message>, rounds: seq<seq<Result>>): seq<Message> {
      var n := |rounds| - 1;
      if n < 0 then [] else Live(pending, rounds[..n]) + LiveBody(pending, n, rounds[n])
    }

    predicate AllFail(results: seq<Result>) {
      results != [] && forall r :: r in results ==> failing(r)
    }

    /** The tally of failed rounds; an iteration without tools does not touch it. */
    ghost function TallyAfter(k: nat, tally: nat, results: seq<Result>): nat {
      if !KindAt(k).Called? then tally else if AllFail(results) then tally + 1 else 0
    }

    ghost function Tally(rounds: seq<seq<Result>>): nat {
      var n := |rounds| - 1;
      if n < 0 then 0 else TallyAfter(n, Tally(rounds[..n]), rounds[n])
    }

    /** The requests of the model calls of these rounds, in order. */
    ghost function Asked(start: seq<Message>, pending: seq<Message>, rounds: seq<seq<Result>>): seq<Request> {
      var n := |rounds| - 1;
      if n < 0 then []
      else
        var front := Asked(start, pending, rounds[..n]);
        if KindAt(n).Skipped? then front else front + [RequestFor(start + Live(pending, rounds[..n]), Tally(rounds[..n]))]
    }

    /** The closing call, without tools and with a nudge behind the list. */
    ghost function AskedLast(start: seq<Message>, pending: seq<Message>, rounds: seq<seq<Result>>): seq<Request> {
      if Forced(pending, |rounds|) then [Request(start + Live(pending, rounds) + [Plain(System, NUDGE)], false)] else []
    }

    function Start(o: Opening): seq<Message> {
      o.hints + o.Compact() + ApprovedRound(o.approved)
    }
  }
}
