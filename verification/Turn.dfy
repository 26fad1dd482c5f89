/** One turn of the agent loop: compaction, the drain of approved calls, the rounds of
    model calls and tool calls, and the cleanup that runs on every exit. Every method is
    tied to the functions of TurnSpec. */
module Turn {
  import opened Conversation
  import opened Options
  import opened Padding
  import opened Selection
  import opened SessionState
  import opened ToolRound
  import opened TurnContents
  import opened TurnSpec
  import Compaction
  import TurnAnswers
  import TurnHistory

  /** The provider; asked is the log of the requests it got. */
  class Model {
    var asked: seq<Request>

    constructor ()
      ensures asked == []
    {
      asked := [];
    }

    method Chat(env: Environment, k: nat, request: Request) returns (r: Reply)
      modifies this
      ensures r == env.reply(k) && asked == old(asked) + [request]
    {
      asked := asked + [request];
      return env.reply(k);
    }

    /** The call at the end of a turn. */
    method ChatFinally(env: Environment, request: Request) returns (r: Reply)
      modifies this
      ensures r == env.finalReply && asked == old(asked) + [request]
    {
      asked := asked + [request];
      return env.finalReply;
    }
  }

  // ----- the steps of an iteration -----

  /** Users type while a turn is in flight. */
  method UsersPush(sess: Session, ms: seq<Message>)
    requires sess.turnDepth > 0
    modifies sess`steerBuf
    ensures sess.steerBuf == old(sess.steerBuf) + ms
  {
    for k := 0 to |ms|
      invariant sess.steerBuf == old(sess.steerBuf) + ms[..k]
    {
      var _ := sess.PushSteerIfActive(ms[k]);
    }
  }

  method AppendAll(sess: Session, ms: seq<Message>)
    modifies sess`messages
    ensures sess.messages == old(sess.messages) + ms
  {
    for k := 0 to |ms|
      invariant sess.messages == old(sess.messages) + ms[..k]
    {
      sess.Append(ms[k]);
    }
  }

  /** Calls that hooks inject go to the session only, each with its result. */
  method AppendSynthetic(sess: Session, items: seq<Synthetic>)
    modifies sess`messages
    ensures sess.messages == old(sess.messages) + SyntheticRounds(items)
  {
    for k := 0 to |items|
      invariant sess.messages == old(sess.messages) + SyntheticRounds(items[..k])
    {
      assert items[..k + 1][..k] == items[..k];
      var id := "synth-" + items[k].name;
      sess.Append(Message(Assistant, "", [ToolCall(id, items[k].name, items[k].args)], "", "", ""));
      sess.Append(ToolMessage(id, "", items[k].result));
    }
    assert items[..|items|] == items;
  }

  method StripEphemeral(calls: seq<ToolCall>, ephemeral: string -> bool) returns (kept: seq<ToolCall>)
    ensures kept == Persisted(calls, ephemeral)
  {
    kept := [];
    for i := 0 to |calls|
      invariant kept == Persisted(calls[..i], ephemeral)
    {
      assert calls[..i + 1][..i] == calls[..i];
      if !ephemeral(calls[i].name) {
        kept := kept + [calls[i]];
      }
    }
    assert calls[..|calls|] == calls;
  }

  /** Folds the results into the live list and the session; ephemeral results stay out of
      the session. Tells whether all of them failed. */
  method ProcessResults(sess: Session, live: seq<Message>, calls: seq<ToolCall>, results: seq<Result>, env: Environment)
    returns (messages: seq<Message>, allFailed: bool)
    requires |results| <= |calls|
    modifies sess`messages
    ensures messages == live + AllAnswers(calls, results)
    ensures sess.messages == old(sess.messages) + KeptAnswers(calls, results)
    ensures live <= messages && Delivered(messages[|live|..], calls, results)
    ensures old(sess.messages) <= sess.messages
    ensures DeliveredKept(sess.messages[|old(sess.messages)|..], calls, results)
    ensures allFailed <==> env.AllFail(results)
  {
    messages, allFailed := live, |results| > 0;
    for k := 0 to |results|
      invariant messages == live + AllAnswers(calls, results[..k])
      invariant sess.messages == old(sess.messages) + KeptAnswers(calls, results[..k])
      invariant allFailed <==> results != [] && forall i :: 0 <= i < k ==> env.failing(results[i])
    {
      assert results[..k + 1][..k] == results[..k];
      var toolMsg := ToolMessage(calls[k].id, results[k].toolName, results[k].text);
      if !env.failing(results[k]) {
        allFailed := false;
      }
      if !results[k].ephemeral {
        sess.Append(toolMsg);
      }
      messages := messages + [toolMsg];
    }
    assert results[..|results|] == results;
    AnswersDelivered(calls, results);
    KeptDelivered(calls, results);
    Behind(live, AllAnswers(calls, results));
    Behind(old(sess.messages), KeptAnswers(calls, results));
  }

  /** Folds what users pushed meanwhile into the session and the live list. */
  method FoldSteer(sess: Session, live: seq<Message>) returns (messages: seq<Message>, any: bool)
    modifies sess`messages, sess`steerBuf
    ensures any <==> old(sess.steerBuf) != []
    ensures messages == live + old(sess.steerBuf) && sess.messages == old(sess.messages) + old(sess.steerBuf)
    ensures sess.steerBuf == []
  {
    var steer := sess.DrainSteer();
    AppendAll(sess, steer);
    messages, any := live + steer, |steer| > 0;
  }

  // ----- loop detection -----

  /** last and count summarize the calls seen so far. */
  ghost predicate Summarizes(last: Option<ToolCall>, count: nat, stream: seq<ToolCall>) {
    && (last.None? <==> stream == []) && (last.Some? ==> stream != [] && last.value == stream[|stream| - 1])
    && count == Streak(stream)
  }

  lemma {:induction false} SummaryStep(last: Option<ToolCall>, count: nat, s: seq<ToolCall>, c: ToolCall)
    requires Summarizes(last, count, s)
    ensures Summarizes(Some(c), if last.Some? && SameSignature(last.value, c) then count + 1 else 1, s + [c])
  {
    assert (s + [c])[..|s|] == s;
  }

  /** No three in a row within the first n calls of the batch. */
  ghost predicate QuietFor(stream: seq<ToolCall>, calls: seq<ToolCall>, n: nat)
    requires n <= |calls|
  {
    forall k :: 0 < k <= n ==> Streak(stream + calls[..k]) < 3
  }

  lemma {:induction false} QuietStep(stream: seq<ToolCall>, calls: seq<ToolCall>, n: nat, seen: seq<ToolCall>)
    requires n < |calls| && QuietFor(stream, calls, n) && seen == stream + calls[..n]
    ensures seen + [calls[n]] == stream + calls[..n + 1]
    ensures if Streak(seen + [calls[n]]) < 3 then QuietFor(stream, calls, n + 1) else Repeats(stream, calls)
  {
    assert seen + [calls[n]] == stream + calls[..n + 1];
  }

  /** Scans one batch; stream is every call of the turn before it. A batch is cut off
      exactly when somewhere in it three calls in a row are the same. */
  method DetectLoop(calls: seq<ToolCall>, last: Option<ToolCall>, count: nat, ghost stream: seq<ToolCall>)
    returns (detected: bool, last': Option<ToolCall>, count': nat)
    requires Summarizes(last, count, stream)
    ensures detected <==> Repeats(stream, calls)
    ensures !detected ==> Summarizes(last', count', stream + calls)
  {
    last', count' := last, count;
    ghost var seen := stream;
    assert stream + calls[..0] == stream;
    for i := 0 to |calls|
      invariant QuietFor(stream, calls, i) && seen == stream + calls[..i]
      invariant Summarizes(last', count', seen)
    {
      QuietStep(stream, calls, i, seen);
      SummaryStep(last', count', seen, calls[i]);
      seen := seen + [calls[i]];
      if last'.Some? && SameSignature(last'.value, calls[i]) {
        count' := count' + 1;
      } else {
        count' := 1;
      }
      last' := Some(calls[i]);
      if count' >= 3 {
        return true, last', count';
      }
    }
    assert stream + calls[..|calls|] == stream + calls;
    return false, last', count';
  }

  // ----- one iteration -----

  /** The final text of an iteration; the loop goes on exactly if users pushed something
      meanwhile. */
  method AnswerInText(sess: Session, live: seq<Message>, content: string) returns (messages: seq<Message>, again: bool)
    modifies sess`messages, sess`steerBuf
    ensures again <==> old(sess.steerBuf) != []
    ensures sess.messages == old(sess.messages) + ([Plain(Assistant, content)] + old(sess.steerBuf)) && sess.steerBuf == []
    ensures again ==> messages == if content == "" then live + old(sess.steerBuf)
                                  else live + ([Plain(Assistant, content)] + old(sess.steerBuf))
    ensures !again ==> messages == live
  {
    var asst := Plain(Assistant, content);
    sess.Append(asst);
    var steer := sess.DrainSteer();
    AppendAll(sess, steer);
    messages, again := live, |steer| > 0;
    if again {
      if content != "" {
        messages := messages + [asst];
      }
      messages := messages + steer;
    }
  }

  /** Records the assistant message of a batch: in full in the live list, without its
      ephemeral calls in the session. */
  method BeginRound(sess: Session, live: seq<Message>, env: Environment, k: nat) returns (messages: seq<Message>)
    requires !env.skip(k) && env.reply(k).Reply?
    modifies sess`messages
    ensures messages == live + [env.Full(k)] && sess.messages == old(sess.messages) + [env.Recorded(k)]
  {
    var asst := Message(Assistant, env.reply(k).content, env.reply(k).calls, "", "", "");
    var kept := StripEphemeral(asst.calls, env.ephemeral);
    sess.Append(asst.(calls := kept));
    messages := live + [asst];
  }

  /** Runs a batch that has been recorded, from the gate to its last result. */
  method FinishRound(sess: Session, live: seq<Message>, b: Batch, env: Environment)
    returns (messages: seq<Message>, allFailed: bool, ghost results: seq<Result>)
    modifies sess`messages, sess`pendingCalls
    ensures b.Admits(results) && (allFailed <==> env.AllFail(results))
    ensures messages == live + AllAnswers(b.calls, results)
    ensures sess.messages == old(sess.messages) + KeptAnswers(b.calls, results)
    ensures sess.pendingCalls == old(sess.pendingCalls) + PromptedOf(b.Looked(), b.verdict)
  {
    var outcome := RoundResults(sess, b);
    messages, allFailed := ProcessResults(sess, live, b.calls, outcome, env);
    results := outcome;
  }

  /** Breaks the loop off. */
  method Warn(sess: Session, live: seq<Message>) returns (messages: seq<Message>)
    modifies sess`messages
    ensures messages == live + [Plain(System, WARNING)] && sess.messages == old(sess.messages) + [Plain(System, WARNING)]
  {
    var warn := Plain(System, WARNING);
    sess.Append(warn);
    messages := live + [warn];
  }

  /** An iteration that calls tools. */
  method ToolIteration(sess: Session, live: seq<Message>, env: Environment, k: nat, ghost pending: seq<Message>,
                       last: Option<ToolCall>, count: nat)
    returns (messages: seq<Message>, last': Option<ToolCall>, count': nat, detected: bool, allFailed: bool,
             ghost results: seq<Result>)
    requires !env.skip(k) && env.reply(k).Reply? && env.reply(k).calls != []
    requires Summarizes(last, count, env.Stream(k)) && sess.steerBuf == env.Steered(pending, k)
    modifies sess`messages, sess`pendingCalls, sess`steerBuf
    ensures env.KindAt(k) == if detected then Looped else Called
    ensures env.Fits(k, results) && (!detected ==> Summarizes(last', count', env.Stream(k + 1)))
    ensures !detected ==> (allFailed <==> env.AllFail(results))
    ensures messages == live + env.LiveBody(pending, k, results)
    ensures sess.messages == old(sess.messages) + env.Body(pending, k, results)
    ensures sess.steerBuf == env.Left(pending, k + 1)
    ensures sess.pendingCalls == old(sess.pendingCalls) + env.ParkedAt(k)
  {
    results, allFailed := [], false;
    ghost var h := sess.messages;
    messages := BeginRound(sess, live, env, k);
    detected, last', count' := DetectLoop(env.reply(k).calls, last, count, env.Stream(k));
    if detected {
      messages := Warn(sess, messages);
      Regroup(h, [env.Recorded(k)], [Plain(System, WARNING)], []);
      Regroup(live, [env.Full(k)], [Plain(System, WARNING)], []);
    } else {
      messages, allFailed, results := FinishRound(sess, messages, env.BatchAt(k), env);
      var folded;
      messages, folded := FoldSteer(sess, messages);
      Regroup(h, [env.Recorded(k)], KeptAnswers(env.CallsAt(k), results), env.Steered(pending, k));
      Regroup(live, [env.Full(k)], AllAnswers(env.CallsAt(k), results), env.Steered(pending, k));
    }
  }

  lemma {:induction false} Regroup(h: seq<Message>, a: seq<Message>, b: seq<Message>, c: seq<Message>)
    ensures h + a + b + c == h + (a + b + c)
    ensures h + a + b == h + (a + b)
  {
    assert h + (a + b) == h + a + b;
  }

  /** An iteration from the model call on. */
  method React(sess: Session, model: Model, live: seq<Message>, env: Environment, k: nat, ghost pending: seq<Message>,
               last: Option<ToolCall>, count: nat, tally: nat)
    returns (messages: seq<Message>, last': Option<ToolCall>, count': nat, tally': nat, over: bool, looped: bool,
             ghost results: seq<Result>)
    requires !env.skip(k) && Summarizes(last, count, env.Stream(k)) && sess.steerBuf == env.Steered(pending, k)
    modifies sess`messages, sess`pendingCalls, sess`steerBuf, model
    ensures env.Fits(k, results) && (looped <==> env.KindAt(k).Looped?) && (over <==> env.Ends(pending, k))
    ensures !over ==> Summarizes(last', count', env.Stream(k + 1))
    ensures messages == live + env.LiveBody(pending, k, results)
    ensures sess.messages == old(sess.messages) + env.Body(pending, k, results)
    ensures sess.steerBuf == env.Left(pending, k + 1)
    ensures sess.pendingCalls == old(sess.pendingCalls) + env.ParkedAt(k)
    ensures tally' == env.TallyAfter(k, tally, results)
    ensures model.asked == old(model.asked) + [RequestFor(live, tally)]
  {
    results, messages, last', count', tally', looped := [], live, last, count, tally, false;
    var request := Request(live, true);
    if tally >= 3 {
      request := Request(live + [Plain(System, FAILED_NUDGE)], false);
    }
    var r := model.Chat(env, k, request);
    match r
    case Failed =>
      over := true;
    case Reply(content, calls) =>
      if |calls| == 0 {
        var again;
        messages, again := AnswerInText(sess, live, content);
        over := !again;
        assert env.KindAt(k).Spoke? && env.Stream(k + 1) == env.Stream(k);
      } else {
        var allFailed;
        messages, last', count', looped, allFailed, results := ToolIteration(sess, live, env, k, pending, last, count);
        over := looped;
        if !looped {
          tally' := if allFailed then tally + 1 else 0;
        }
      }
  }

  /** One iteration of the loop, whatever it turns out to be. */
  method Iterate(sess: Session, model: Model, live: seq<Message>, env: Environment, k: nat, ghost pending: seq<Message>,
                 last: Option<ToolCall>, count: nat, tally: nat)
    returns (messages: seq<Message>, last': Option<ToolCall>, count': nat, tally': nat, over: bool, looped: bool,
             ghost results: seq<Result>)
    requires sess.turnDepth > 0 && sess.steerBuf + env.steer(k) == env.Steered(pending, k)
    requires Summarizes(last, count, env.Stream(k))
    modifies sess`messages, sess`pendingCalls, sess`steerBuf, model
    ensures env.Fits(k, results) && (looped <==> env.KindAt(k).Looped?) && (over <==> env.Ends(pending, k))
    ensures !over ==> Summarizes(last', count', env.Stream(k + 1))
    ensures messages == live + env.LiveBody(pending, k, results)
    ensures sess.messages == old(sess.messages) + env.Piece(pending, k, results)
    ensures sess.steerBuf == env.Left(pending, k + 1)
    ensures sess.pendingCalls == old(sess.pendingCalls) + env.ParkedAt(k)
    ensures tally' == env.TallyAfter(k, tally, results)
    ensures model.asked == if env.KindAt(k).Skipped? then old(model.asked) else old(model.asked) + [RequestFor(live, tally)]
  {
    results, messages, last', count', tally', looped := [], live, last, count, tally, false;
    AppendSynthetic(sess, env.synthetic(k));
    UsersPush(sess, env.steer(k));
    if env.skip(k) {
      over := true;
    } else {
      messages, last', count', tally', over, looped, results := React(sess, model, live, env, k, pending, last, count, tally);
    }
    Regroup(old(sess.messages), SyntheticRounds(env.synthetic(k)), env.Body(pending, k, results), []);
  }

  // ----- the turn -----

  /** One more iteration behind those that ran so far. */
  lemma {:induction false} RunsOn(env: Environment, pending: seq<Message>, rounds: seq<seq<Result>>, results: seq<Result>)
    requires env.Runs(pending, rounds) && |rounds| < env.maxIterations && !env.EndedBy(pending, |rounds|)
    requires env.Fits(|rounds|, results)
    ensures env.Runs(pending, rounds + [results])
  {}

  lemma {:induction false} Join<T>(h: seq<T>, a: seq<T>, b: seq<T>)
    ensures h + (a + b) == h + a + b
  {}

  lemma {:induction false} HistoryGrows(env: Environment, h: seq<Message>, pending: seq<Message>,
                                        rounds: seq<seq<Result>>, results: seq<Result>)
    ensures h + env.Written(pending, rounds + [results])
            == h + env.Written(pending, rounds) + env.Piece(pending, |rounds|, results)
  {
    assert (rounds + [results])[..|rounds|] == rounds;
    Join(h, env.Written(pending, rounds), env.Piece(pending, |rounds|, results));
  }

  lemma {:induction false} LiveGrows(env: Environment, h: seq<Message>, pending: seq<Message>,
                                     rounds: seq<seq<Result>>, results: seq<Result>)
    ensures h + env.Live(pending, rounds + [results]) == h + env.Live(pending, rounds) + env.LiveBody(pending, |rounds|, results)
  {
    assert (rounds + [results])[..|rounds|] == rounds;
    Join(h, env.Live(pending, rounds), env.LiveBody(pending, |rounds|, results));
  }

  lemma {:induction false} AskedGrows(env: Environment, h: seq<Request>, start: seq<Message>, pending: seq<Message>,
                                      rounds: seq<seq<Result>>, results: seq<Result>)
    ensures h + env.Asked(start, pending, rounds + [results])
            == if env.KindAt(|rounds|).Skipped? then h + env.Asked(start, pending, rounds)
               else h + env.Asked(start, pending, rounds) + [RequestFor(start + env.Live(pending, rounds), env.Tally(rounds))]
    ensures env.Tally(rounds + [results]) == env.TallyAfter(|rounds|, env.Tally(rounds), results)
  {
    assert (rounds + [results])[..|rounds|] == rounds;
    Join(h, env.Asked(start, pending, rounds), [RequestFor(start + env.Live(pending, rounds), env.Tally(rounds))]);
  }

  lemma {:induction false} BufferBetween(env: Environment, pending: seq<Message>, n: nat)
    requires !env.EndedBy(pending, n)
    ensures env.Left(pending, n) + env.steer(n) == env.Steered(pending, n)
  {}

  /** What the loop has done so far. */
  ghost predicate Progress(env: Environment, pending: seq<Message>, rounds: seq<seq<Result>>, over: bool, looped: bool) {
    env.Runs(pending, rounds) && (over <==> env.EndedBy(pending, |rounds|)) && (looped <==> env.LoopedBy(|rounds|))
  }

  lemma {:induction false} ProgressOn(env: Environment, pending: seq<Message>, rounds: seq<seq<Result>>, results: seq<Result>,
                                      over: bool, looped: bool)
    requires Progress(env, pending, rounds, false, false) && |rounds| < env.maxIterations && env.Fits(|rounds|, results)
    requires (over <==> env.Ends(pending, |rounds|)) && (looped <==> env.KindAt(|rounds|).Looped?)
    ensures Progress(env, pending, rounds + [results], over, looped)
  {
    RunsOn(env, pending, rounds, results);
  }

  /** The ReAct loop. */
  method Loop(sess: Session, model: Model, start: seq<Message>, env: Environment)
    returns (messages: seq<Message>, over: bool, looped: bool, ghost rounds: seq<seq<Result>>)
    requires sess.turnDepth > 0
    modifies sess`messages, sess`pendingCalls, sess`steerBuf, model
    ensures Progress(env, old(sess.steerBuf), rounds, over, looped) && (over || |rounds| == env.maxIterations)
    ensures messages == start + env.Live(old(sess.steerBuf), rounds)
    ensures sess.messages == old(sess.messages) + env.Written(old(sess.steerBuf), rounds)
    ensures sess.steerBuf == env.Left(old(sess.steerBuf), |rounds|)
    ensures sess.pendingCalls == old(sess.pendingCalls) + env.Parked(|rounds|)
    ensures model.asked == old(model.asked) + env.Asked(start, old(sess.steerBuf), rounds)
  {
    ghost var pending := sess.steerBuf;
    rounds, messages, over, looped := [], start, false, false;
    var last: Option<ToolCall>, count, tally := None, 0, 0;
    var i: nat := 0;
    while i < env.maxIterations && !over
      invariant |rounds| == i && Progress(env, pending, rounds, over, looped) && (looped ==> over)
      invariant !over ==> Summarizes(last, count, env.Stream(i))
      invariant messages == start + env.Live(pending, rounds) && tally == env.Tally(rounds)
      invariant sess.messages == old(sess.messages) + env.Written(pending, rounds)
      invariant sess.steerBuf == env.Left(pending, i)
      invariant sess.pendingCalls == old(sess.pendingCalls) + env.Parked(i)
      invariant model.asked == old(model.asked) + env.Asked(start, pending, rounds)
    {
      ghost var results;
      BufferBetween(env, pending, i);
      messages, last, count, tally, over, looped, results := Iterate(sess, model, messages, env, i, pending, last, count, tally);
      ProgressOn(env, pending, rounds, results, over, looped);
      HistoryGrows(env, old(sess.messages), pending, rounds, results);
      LiveGrows(env, start, pending, rounds, results);
      AskedGrows(env, old(model.asked), start, pending, rounds, results);
      Join(old(sess.pendingCalls), env.Parked(i), env.ParkedAt(i));
      rounds := rounds + [results];
      i := i + 1;
    }
  }

  /** The loop, and the closing call if it was not left with an answer. */
  method Rounds(sess: Session, model: Model, start: seq<Message>, env: Environment) returns (ghost rounds: seq<seq<Result>>)
    requires sess.turnDepth > 0
    modifies sess`messages, sess`pendingCalls, sess`steerBuf, model
    ensures env.Completes(old(sess.steerBuf), rounds)
    ensures sess.messages == old(sess.messages) + env.Written(old(sess.steerBuf), rounds)
                               + env.Closing(old(sess.steerBuf), |rounds|)
    ensures sess.steerBuf == env.Left(old(sess.steerBuf), |rounds|)
    ensures sess.pendingCalls == old(sess.pendingCalls) + env.Parked(|rounds|)
    ensures model.asked == old(model.asked) + env.Asked(start, old(sess.steerBuf), rounds)
                             + env.AskedLast(start, old(sess.steerBuf), rounds)
  {
    var messages, over, looped;
    messages, over, looped, rounds := Loop(sess, model, start, env);
    if looped || !over {
      Close(sess, model, messages, env);
    }
  }

  /** The forced final delivery: one more model call, with tools disabled. */
  method Close(sess: Session, model: Model, live: seq<Message>, env: Environment)
    modifies sess`messages, model
    ensures sess.messages == old(sess.messages) + [Plain(Assistant, env.FinalText())]
    ensures model.asked == old(model.asked) + [Request(live + [Plain(System, NUDGE)], false)]
  {
    var r := model.ChatFinally(env, Request(live + [Plain(System, NUDGE)], false));
    var content := if r.Reply? then r.content else "";
    if content == "" {
      content := CAP_TEXT;
    }
    sess.Append(Plain(Assistant, content));
  }

  /** Executes the calls the user has just approved and folds them in as a fresh round. */
  method DrainApproved(sess: Session, live: seq<Message>, env: Environment) returns (messages: seq<Message>)
    modifies sess`messages, sess`approvedPending
    ensures messages == live + env.ApprovedRound(old(sess.approvedPending))
    ensures sess.messages == old(sess.messages) + env.ApprovedRound(old(sess.approvedPending))
    ensures live <= messages && ShowsApproved(messages[|live|..], old(sess.approvedPending), env)
    ensures old(sess.messages) <= sess.messages
    ensures ShowsApproved(sess.messages[|old(sess.messages)|..], old(sess.approvedPending), env)
    ensures sess.approvedPending == []
  {
    var calls := sess.DrainApprovedPending();
    ApprovedShows(env, calls);
    Behind(live, env.ApprovedRound(calls));
    Behind(sess.messages, env.ApprovedRound(calls));
    if |calls| == 0 {
      return live;
    }
    var results := ExecuteToolsConcurrently(calls, env.approvedResponses, env.ephemeral);
    var asst := Message(Assistant, "", env.Renamed(calls), "", "", "");
    ghost var h := sess.messages;
    sess.Append(asst);
    messages := FoldApproved(sess, live + [asst], calls, results, env);
    Regroup(h, [asst], env.ApprovedAnswers(calls), []);
    Regroup(live, [asst], env.ApprovedAnswers(calls), []);
  }

  method FoldApproved(sess: Session, live: seq<Message>, calls: seq<ToolCall>, results: seq<Result>, env: Environment)
    returns (messages: seq<Message>)
    requires |results| == |calls|
    requires forall i :: 0 <= i < |calls| ==> results[i] == Executed(calls[i], env.approvedResponses, env.ephemeral)
    modifies sess`messages
    ensures messages == live + env.ApprovedAnswers(calls)
    ensures sess.messages == old(sess.messages) + env.ApprovedAnswers(calls)
  {
    ghost var answers := env.ApprovedAnswers(calls);
    messages := live;
    for i := 0 to |results|
      invariant sess.messages == old(sess.messages) + answers[..i]
      invariant messages == live + answers[..i]
    {
      var toolMsg := ToolMessage(env.Renamed(calls)[i].id, calls[i].name, results[i].text);
      assert answers[..i + 1] == answers[..i] + [toolMsg];
      sess.Append(toolMsg);
      messages := messages + [toolMsg];
    }
    assert answers[..|calls|] == answers;
  }

  /** The last turn to end parks what is still buffered in the history. */
  method FlushLeftoverSteer(sess: Session)
    modifies sess`messages, sess`turnDepth, sess`steerBuf
    ensures sess.messages == old(sess.messages) + Leftover(old(sess.turnDepth), old(sess.steerBuf))
    ensures sess.turnDepth == DepthAfterEnd(old(sess.turnDepth))
    ensures sess.steerBuf == BufferAfterEnd(old(sess.turnDepth), old(sess.steerBuf))
  {
    var leftover := sess.EndTurn();
    AppendAll(sess, leftover);
  }

  /** Records the inbound message, compacts the history and drains the approved calls. */
  method Prepare(sess: Session, ghost o: Opening, text: string, summary: Option<string>, hints: seq<Message>, env: Environment)
    returns (messages: seq<Message>)
    requires o == Opening(sess.messages, o.pending, sess.approvedPending, hints, text, summary)
    modifies sess`messages, sess`approvedPending
    ensures messages == env.Start(o) && sess.messages == env.Base(o) && sess.approvedPending == []
  {
    sess.Append(Plain(User, text));
    var compacted, pruned := Compaction.CompactMessages(sess.messages, summary);
    if pruned {
      sess.ReplaceMessages(compacted);
    }
    messages := DrainApproved(sess, hints + compacted, env);
  }

  /** What runs on every exit: padding first, then the end of the turn. */
  method Settle(sess: Session, late: seq<Message>)
    requires sess.turnDepth > 0
    modifies sess`messages, sess`turnDepth, sess`steerBuf
    ensures sess.messages == Padded(old(sess.messages)) + Leftover(old(sess.turnDepth), old(sess.steerBuf) + late)
    ensures sess.turnDepth == DepthAfterEnd(old(sess.turnDepth))
    ensures sess.steerBuf == BufferAfterEnd(old(sess.turnDepth), old(sess.steerBuf) + late)
  {
    UsersPush(sess, late);
    PadOrphanToolResults(sess);
    FlushLeftoverSteer(sess);
  }

  /** A whole turn: what it writes, what it asks the model with and what it leaves in the
      buffers, as functions of what it found and of what happened around it. */
  method HandleMessage(sess: Session, model: Model, text: string, summary: Option<string>, hints: seq<Message>, env: Environment)
    returns (ghost o: Opening, ghost rounds: seq<seq<Result>>)
    modifies sess`messages, sess`pendingCalls, sess`approvedPending, sess`steerBuf, sess`turnDepth, model
    ensures o == Opening(old(sess.messages), old(sess.steerBuf), old(sess.approvedPending), hints, text, summary)
    ensures env.Completes(o.pending, rounds)
    ensures sess.messages == env.Final(o, rounds, old(sess.turnDepth) + 1)
    ensures model.asked == old(model.asked) + env.Asked(env.Start(o), o.pending, rounds)
                             + env.AskedLast(env.Start(o), o.pending, rounds)
    ensures sess.turnDepth == old(sess.turnDepth) && sess.approvedPending == []
    ensures sess.pendingCalls == old(sess.pendingCalls) + env.Parked(|rounds|)
    ensures sess.steerBuf == BufferAfterEnd(old(sess.turnDepth) + 1, env.Left(o.pending, |rounds|) + env.late)
    ensures InOrder(PushedBy(env, o.pending, |rounds|) + env.late, sess.messages + sess.steerBuf)
    ensures AllAnswered(o.history) && TurnAnswers.FreshIds(env, |rounds|) && env.UsersPush(o.pending) ==>
              (AllAnswered(sess.messages) <==> TurnAnswers.InPlaceBeforeCalls(env, |rounds|))
    ensures AllAnswered(o.history) && TurnHistory.Pairable(env, |rounds|) && env.UsersPush(o.pending) ==>
              AllAnswered(sess.messages)
  {
    o := Opening(sess.messages, sess.steerBuf, sess.approvedPending, hints, text, summary);
    sess.BeginTurn();
    var messages := Prepare(sess, o, text, summary, hints, env);
    rounds := Rounds(sess, model, messages, env);
    Settle(sess, env.late);
    PushedIsKept(env, o, rounds, old(sess.turnDepth) + 1);
    if AllAnswered(o.history) && env.UsersPush(o.pending) {
      TurnAnswers.AnsweredWhen(env, o, rounds, old(sess.turnDepth) + 1);
    }
  }
}
