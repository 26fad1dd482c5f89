/** The cleanup at the end of a turn: calls of the latest assistant message with calls that
    have no result get a synthetic one. */
module Padding {
  import opened Compaction
  import opened Conversation
  import opened Pairing
  import opened Selection
  import opened SessionState

  const STOPPED_TEXT := "(stopped — execution was interrupted before the tool returned)"

  function LastWithCalls(h: seq<Message>): (i: int)
    ensures -1 <= i < |h|
    ensures 0 <= i ==> HasCalls(h[i])
    ensures forall k :: i < k < |h| ==> !HasCalls(h[k])
  {
    if h == [] then -1
    else if HasCalls(h[|h| - 1]) then |h| - 1
    else LastWithCalls(h[..|h| - 1])
  }

  /** The ids that tool messages of a history stretch answer; an empty id answers nothing. */
  function ResolvedIds(ms: seq<Message>): (r: set<string>)
    ensures forall id :: id in r <==> id != "" && exists m :: m in ms && m.role == Tool && m.callId == id
  {
    if ms == [] then {} else
      var m := ms[|ms| - 1];
      assert ms == ms[..|ms| - 1] + [m];
      ResolvedIds(ms[..|ms| - 1]) + if m.role == Tool && m.callId != "" then {m.callId} else {}
  }

  function PadsFor(calls: seq<ToolCall>, resolved: set<string>): seq<Message> {
    if calls == [] then [] else
      var c := calls[|calls| - 1];
      PadsFor(calls[..|calls| - 1], resolved)
      + if c.id in resolved then [] else [ToolMessage(c.id, c.name, STOPPED_TEXT)]
  }

  /** The history after padding: the unanswered calls of the latest assistant message with
      calls get a synthetic result at the end. */
  function Padded(h: seq<Message>): seq<Message> {
    PaddedAt(h, LastWithCalls(h))
  }

  function PaddedAt(h: seq<Message>, last: int): seq<Message>
    requires last < |h|
  {
    if last < 0 then h else h + PadsFor(h[last].calls, ResolvedIds(h[last + 1..]))
  }

  function IsOpen(tail: seq<Message>): ToolCall -> bool {
    (c: ToolCall) => c.id !in ResolvedIds(tail)
  }

  /** The calls that no tool message of the tail answers, in order. */
  ghost predicate AreOpen(open: seq<ToolCall>, calls: seq<ToolCall>, tail: seq<Message>) {
    Selects(open, calls, IsOpen(tail))
  }

  /** For each of the calls, that it was stopped. */
  ghost predicate Stops(pads: seq<Message>, calls: seq<ToolCall>) {
    |pads| == |calls| && forall i :: 0 <= i < |pads| ==> pads[i] == Message(Tool, STOPPED_TEXT, [], calls[i].id, calls[i].name, "")
  }

  lemma {:induction false} OpenNext(open: seq<ToolCall>, front: seq<ToolCall>, tail: seq<Message>, c: ToolCall)
    requires AreOpen(open, front, tail)
    ensures AreOpen(if c.id in ResolvedIds(tail) then open else open + [c], front + [c], tail)
  {
    SelectsNext(open, front, IsOpen(tail), c);
  }

  lemma {:induction false} PadsNext(front: seq<ToolCall>, resolved: set<string>, c: ToolCall)
    ensures PadsFor(front + [c], resolved)
            == if c.id in resolved then PadsFor(front, resolved)
               else PadsFor(front, resolved) + [Message(Tool, STOPPED_TEXT, [], c.id, c.name, "")]
  {
    assert (front + [c])[..|front|] == front;
  }

  lemma {:induction false} PadsAre(calls: seq<ToolCall>, tail: seq<Message>) returns (open: seq<ToolCall>)
    ensures AreOpen(open, calls, tail) && Stops(PadsFor(calls, ResolvedIds(tail)), open)
  {
    if calls == [] {
      open := [];
      SelectsNothing(IsOpen(tail));
    } else {
      var front, c := calls[..|calls| - 1], calls[|calls| - 1];
      var some := PadsAre(front, tail);
      assert front + [c] == calls;
      OpenNext(some, front, tail, c);
      PadsNext(front, ResolvedIds(tail), c);
      open := if c.id in ResolvedIds(tail) then some else some + [c];
    }
  }

  /** Padding leaves the history and adds, for each call of the latest message with calls that
      no later tool message answers, that it was stopped. */
  lemma {:induction false} PaddingAdds(h: seq<Message>) returns (open: seq<ToolCall>, pads: seq<Message>)
    ensures Padded(h) == h + pads && Stops(pads, open)
    ensures var last := LastWithCalls(h);
            if last < 0 then open == [] else AreOpen(open, h[last].calls, h[last + 1..])
  {
    var last := LastWithCalls(h);
    if last < 0 {
      open, pads := [], [];
      assert h + [] == h;
    } else {
      open := PadsAre(h[last].calls, h[last + 1..]);
      pads := PadsFor(h[last].calls, ResolvedIds(h[last + 1..]));
    }
  }

  method PadOrphanToolResults(sess: Session)
    modifies sess`messages
    ensures sess.messages == Padded(old(sess.messages))
  {
    var msgs := sess.messages;
    var last := FindLastWithCalls(msgs);
    assert Padded(msgs) == PaddedAt(msgs, last);
    if last < 0 {
      return;
    }
    var resolved := CollectResolved(msgs[last + 1..]);
    AppendPads(sess, msgs[last].calls, resolved);
  }

  method AppendPads(sess: Session, calls: seq<ToolCall>, resolved: set<string>)
    modifies sess`messages
    ensures sess.messages == old(sess.messages) + PadsFor(calls, resolved)
  {
    for k := 0 to |calls|
      invariant sess.messages == old(sess.messages) + PadsFor(calls[..k], resolved)
    {
      assert calls[..k + 1][..k] == calls[..k];
      if calls[k].id !in resolved {
        sess.Append(ToolMessage(calls[k].id, calls[k].name, STOPPED_TEXT));
      }
    }
    assert calls[..|calls|] == calls;
  }

  /** Walks back to the latest assistant message with calls. */
  method FindLastWithCalls(msgs: seq<Message>) returns (last: int)
    ensures last == LastWithCalls(msgs)
  {
    var i := |msgs| - 1;
    while i >= 0
      invariant -1 <= i < |msgs|
      invariant LastWithCalls(msgs) == LastWithCalls(msgs[..i + 1])
    {
      if msgs[i].role == Assistant && |msgs[i].calls| > 0 {
        return i;
      }
      assert msgs[..i + 1][..i] == msgs[..i];
      i := i - 1;
    }
    return -1;
  }

  lemma {:induction false} ResolvedNext(tail: seq<Message>, k: nat)
    requires k < |tail|
    ensures ResolvedIds(tail[..k + 1])
            == if tail[k].role == Tool && tail[k].callId != "" then ResolvedIds(tail[..k]) + {tail[k].callId}
               else ResolvedIds(tail[..k])
  {
    assert tail[..k + 1][..k] == tail[..k];
  }

  method CollectResolved(tail: seq<Message>) returns (resolved: set<string>)
    ensures resolved == ResolvedIds(tail)
  {
    resolved := {};
    for k := 0 to |tail|
      invariant resolved == ResolvedIds(tail[..k])
    {
      ResolvedNext(tail, k);
      if tail[k].role == Tool && tail[k].callId != "" {
        resolved := resolved + {tail[k].callId};
      }
    }
    assert tail[..|tail|] == tail;
  }

  lemma {:induction false} PadsAnswer(calls: seq<ToolCall>, resolved: set<string>)
    ensures forall c :: c in calls && c.id !in resolved ==>
              exists m :: m in PadsFor(calls, resolved) && m.role == Tool && m.callId == c.id
    ensures forall k :: 0 <= k < |PadsFor(calls, resolved)| ==> !HasCalls(PadsFor(calls, resolved)[k])
  {
    if calls != [] {
      var n := |calls| - 1;
      PadsAnswer(calls[..n], resolved);
      assert calls == calls[..n] + [calls[n]];
      if calls[n].id !in resolved {
        assert ToolMessage(calls[n].id, calls[n].name, STOPPED_TEXT) in PadsFor(calls, resolved);
      }
    }
  }

  /** Whatever a turn had appended when it ended, as long as it had finished its earlier
      rounds: after padding every persisted call has a later result. */
  lemma {:induction false} PaddingAnswersAll(h: seq<Message>)
    requires AnsweredButLast(h)
    ensures AllAnswered(Padded(h))
  {
    var last := LastWithCalls(h);
    if last >= 0 {
      PaddingAnswersLast(h, last, PadsFor(h[last].calls, ResolvedIds(h[last + 1..])));
    }
  }

  lemma {:induction false} PaddingAnswersLast(h: seq<Message>, last: nat, pads: seq<Message>)
    requires AnsweredButLast(h) && last < |h| && HasCalls(h[last])
    requires forall k :: last < k < |h| ==> !HasCalls(h[k])
    requires pads == PadsFor(h[last].calls, ResolvedIds(h[last + 1..]))
    ensures AllAnswered(h + pads)
  {
    PadsAnswer(h[last].calls, ResolvedIds(h[last + 1..]));
    forall i | 0 <= i < |h| && HasCalls(h[i]) ensures CallsAnswered(h + pads, i) {
      if i < last {
        assert CallsAnswered(h, i);
        AnsweredAfterAppend(h, pads, i);
      } else {
        LastCallsAnswered(h, last, pads);
      }
    }
    AnsweredWithTail(h, pads);
  }

  lemma {:induction false} LastCallsAnswered(h: seq<Message>, last: nat, pads: seq<Message>)
    requires last < |h| && pads == PadsFor(h[last].calls, ResolvedIds(h[last + 1..]))
    ensures CallsAnswered(h + pads, last)
  {
    var resolved := ResolvedIds(h[last + 1..]);
    PadsAnswer(h[last].calls, resolved);
    forall c | c in h[last].calls ensures AnsweredAfter(h + pads, last, c.id) {
      if c.id in resolved {
        var m :| m in h[last + 1..] && m.role == Tool && m.callId == c.id;
        var j :| 0 <= j < |h[last + 1..]| && h[last + 1..][j] == m;
        assert (h + pads)[last + 1 + j] == m;
      } else {
        var m :| m in pads && m.role == Tool && m.callId == c.id;
        var j :| 0 <= j < |pads| && pads[j] == m;
        assert (h + pads)[|h| + j] == m;
      }
    }
  }

  /** The latest calls all have an answered id; an empty id counts as unanswered. */
  ghost predicate LatestAnswered(h: seq<Message>, last: int)
    requires last < |h|
  {
    last < 0 || forall c :: c in h[last].calls ==> c.id != "" && AnsweredAfter(h, last, c.id)
  }

  /** Padding adds nothing exactly when nothing is missing. */
  lemma {:induction false} PaddingIsIdentityIff(h: seq<Message>)
    ensures Padded(h) == h <==> LatestAnswered(h, LastWithCalls(h))
  {
    if LastWithCalls(h) >= 0 { LatestResolvedIff(h, LastWithCalls(h)); }
  }

  lemma {:induction false} LatestResolvedIff(h: seq<Message>, last: nat)
    requires last < |h|
    ensures PaddedAt(h, last) == h <==> LatestAnswered(h, last)
  {
    NothingAppended(h, PadsFor(h[last].calls, ResolvedIds(h[last + 1..])));
    var calls, resolved := h[last].calls, ResolvedIds(h[last + 1..]);
    NoPadsIff(calls, resolved);
    forall c | c in calls ensures c.id in resolved <==> c.id != "" && AnsweredAfter(h, last, c.id) {
      ResolvedMeansAnswered(h, last, c.id);
    }
  }

  lemma {:induction false} NothingAppended(h: seq<Message>, pads: seq<Message>)
    ensures h + pads == h <==> pads == []
  {
    assert |h + pads| == |h| + |pads|;
  }

  lemma {:induction false} NoPadsIff(calls: seq<ToolCall>, resolved: set<string>)
    ensures PadsFor(calls, resolved) == [] <==> forall c :: c in calls ==> c.id in resolved
  {
    if calls != [] {
      var n := |calls| - 1;
      NoPadsIff(calls[..n], resolved);
      assert calls == calls[..n] + [calls[n]];
    }
  }

  lemma {:induction false} ResolvedMeansAnswered(h: seq<Message>, last: nat, id: string)
    requires last < |h|
    ensures id in ResolvedIds(h[last + 1..]) <==> id != "" && AnsweredAfter(h, last, id)
  {
    var tail := h[last + 1..];
    if id in ResolvedIds(tail) {
      var m :| m in tail && m.role == Tool && m.callId == id;
      var j :| 0 <= j < |tail| && tail[j] == m;
      assert h[last + 1 + j] == m;
    }
    if AnsweredAfter(h, last, id) {
      var j :| 0 <= j && last < j < |h| && h[j].role == Tool && h[j].callId == id;
      assert tail[j - last - 1] == h[j];
      assert h[j] in tail;
    }
  }

  // ----- when padding is enough -----

  ghost predicate NoSharedId(y: Message, z: Message) {
    forall c, d :: c in y.calls && d in z.calls ==> c.id != d.id
  }

  /** No two messages share a call id. */
  ghost predicate DistinctAcross(h: seq<Message>) {
    forall i, k :: 0 <= i < k < |h| && HasCalls(h[i]) && HasCalls(h[k]) ==> NoSharedId(h[i], h[k])
  }

  lemma {:induction false} PadsCarryLatestIds(calls: seq<ToolCall>, resolved: set<string>)
    ensures forall m :: m in PadsFor(calls, resolved) ==>
              m.role == Tool && exists c :: c in calls && c.id == m.callId
  {
    if calls != [] {
      var n := |calls| - 1;
      PadsCarryLatestIds(calls[..n], resolved);
      assert calls == calls[..n] + [calls[n]];
      assert calls[n] in calls;
    }
  }

  lemma {:induction false} EarlierNotPadded(h: seq<Message>, last: nat, pads: seq<Message>, i: nat)
    requires DistinctAcross(h) && i < last < |h| && HasCalls(h[i]) && HasCalls(h[last])
    requires pads == PadsFor(h[last].calls, ResolvedIds(h[last + 1..])) && CallsAnswered(h + pads, i)
    ensures CallsAnswered(h, i)
  {
    PadsCarryLatestIds(h[last].calls, ResolvedIds(h[last + 1..]));
    assert NoSharedId(h[i], h[last]);
    forall c | c in h[i].calls ensures AnsweredAfter(h, i, c.id) {
      assert AnsweredAfter(h + pads, i, c.id);
      AnsweredInFront(h, pads, i, c.id);
    }
  }

  lemma {:induction false} AnsweredInFront(h: seq<Message>, pads: seq<Message>, i: nat, id: string)
    requires AnsweredAfter(h + pads, i, id) && forall m :: m in pads ==> m.callId != id
    ensures AnsweredAfter(h, i, id)
  {
    var w := h + pads;
    assert forall q :: 0 <= q < |pads| ==> w[|h| + q] == pads[q] && pads[q] in pads;
    var j :| 0 <= j && i < j < |w| && w[j].role == Tool && w[j].callId == id;
    assert j < |h|;
    assert w[j] == h[j];
  }

  /** With distinct ids, padding answers every call exactly when all messages but the latest
      with calls had been answered. */
  lemma {:induction false} PaddingAnswersAllIff(h: seq<Message>)
    requires DistinctAcross(h)
    ensures AllAnswered(Padded(h)) <==> AnsweredButLast(h)
  {
    if AnsweredButLast(h) {
      PaddingAnswersAll(h);
    } else {
      var i, k :| 0 <= i < k < |h| && HasCalls(h[i]) && HasCalls(h[k]) && !CallsAnswered(h, i);
      OpenStaysOpen(h, i, k);
      assert HasCalls(Padded(h)[i]);
    }
  }

  /** An open message before the latest one with calls is still open after padding. */
  lemma {:induction false} OpenStaysOpen(h: seq<Message>, i: nat, k: nat)
    requires DistinctAcross(h) && i < k < |h| && HasCalls(h[i]) && HasCalls(h[k]) && !CallsAnswered(h, i)
    ensures |h| <= |Padded(h)| && Padded(h)[i] == h[i] && Padded(h)[k] == h[k] && !CallsAnswered(Padded(h), i)
  {
    var last := LastWithCalls(h);
    assert k <= last;
    var pads := PadsFor(h[last].calls, ResolvedIds(h[last + 1..]));
    assert Padded(h) == h + pads;
    if CallsAnswered(h + pads, i) { EarlierNotPadded(h, last, pads, i); }
  }

  lemma {:induction false} PaddingKeepsDistinct(h: seq<Message>)
    requires DistinctAcross(h)
    ensures DistinctAcross(Padded(h))
  {
    var last := LastWithCalls(h);
    if last >= 0 {
      var pads := PadsFor(h[last].calls, ResolvedIds(h[last + 1..]));
      PadsAnswer(h[last].calls, ResolvedIds(h[last + 1..]));
      var p := h + pads;
      assert Padded(h) == p;
      assert forall i :: 0 <= i < |h| ==> p[i] == h[i];
      assert forall i :: |h| <= i < |p| ==> !HasCalls(p[i]);
    }
  }

  /** Two turns of one session that have both recorded calls and then end without results:
      both pad the later message, and the earlier one stays open. */
  lemma {:induction false} OverlappingTurnsLeaveOpen(h: seq<Message>, y: Message, z: Message)
    requires HasCalls(y) && HasCalls(z) && DistinctAcross(h + [y, z])
    ensures !AllAnswered(Padded(h + [y, z])) && !AllAnswered(Padded(Padded(h + [y, z])))
  {
    var w, n := h + [y, z], |h|;
    assert w[n] == y && w[n + 1] == z;
    OpenNow(w, n);
    OpenStaysOpen(w, n, n + 1);
    PaddingKeepsDistinct(w);
    var p := Padded(w);
    OpenStaysOpen(p, n, n + 1);
    assert HasCalls(p[n]) && HasCalls(Padded(p)[n]);
  }

  lemma {:induction false} OpenNow(w: seq<Message>, n: nat)
    requires |w| == n + 2 && HasCalls(w[n]) && HasCalls(w[n + 1])
    ensures !CallsAnswered(w, n)
  {
    assert w[n].calls[0] in w[n].calls;
    assert !AnsweredAfter(w, n, w[n].calls[0].id);
  }

  // ----- when padding keeps tool messages behind their calls -----

  /** Some latest call is unanswered or unnamed, and something else than a tool message
      already stands behind it. */
  ghost predicate Detaches(h: seq<Message>) {
    !LatestAnswered(h, LastWithCalls(h)) && exists k :: LastWithCalls(h) < k < |h| && h[k].role != Tool
  }

  /** Padding keeps every tool message in a run right behind the message that carries its
      id, exactly when it does not have to pad behind something else. */
  lemma {:induction false} PaddedShapeIff(h: seq<Message>)
    ensures RunsFollowCalls(Padded(h)) <==> RunsFollowCalls(h) && !Detaches(h)
  {
    var last := LastWithCalls(h);
    if last >= 0 {
      var pads := PadsFor(h[last].calls, ResolvedIds(h[last + 1..]));
      LatestResolvedIff(h, last);
      NothingAppended(h, pads);
      assert Padded(h) == h + pads;
      if pads != [] {
        PadsCarryLatestIds(h[last].calls, ResolvedIds(h[last + 1..]));
        if RunsFollowCalls(Padded(h)) { RunsOfPrefix(h, pads); }
        if Detaches(h) {
          var k :| last < k < |h| && h[k].role != Tool;
          DetachedPad(h, last, k, pads);
        } else if RunsFollowCalls(h) {
          PadsFollow(h, last, pads);
        }
      }
    }
  }

  lemma {:induction false} DetachedPad(h: seq<Message>, last: nat, k: nat, pads: seq<Message>)
    requires last < k < |h| && h[k].role != Tool && forall j :: last < j < |h| ==> !HasCalls(h[j])
    requires pads != [] && pads[0].role == Tool
    ensures !RunsFollowCalls(h + pads)
  {
    var p, j := h + pads, |h|;
    assert p[j] == pads[0] && p[k] == h[k];
    forall i | 0 <= i < j ensures !Answers(p, i, j) { assert p[i] == h[i]; }
  }

  lemma {:induction false} PadsFollow(h: seq<Message>, last: nat, pads: seq<Message>)
    requires RunsFollowCalls(h) && last < |h| && HasCalls(h[last])
    requires forall k :: last < k < |h| ==> h[k].role == Tool
    requires forall m :: m in pads ==> m.role == Tool && exists c :: c in h[last].calls && c.id == m.callId
    ensures RunsFollowCalls(h + pads)
  {
    var p := h + pads;
    forall j | 0 <= j < |p| && p[j].role == Tool ensures exists i :: 0 <= i < j && Answers(p, i, j) {
      if j < |h| {
        var i :| 0 <= i < j && Answers(h, i, j);
        assert p[i] == h[i] && p[j] == h[j] && forall k :: i < k <= j ==> p[k] == h[k];
        assert Answers(p, i, j);
      } else {
        assert p[j] == pads[j - |h|] && pads[j - |h|] in pads && p[last] == h[last];
        forall k | last < k <= j ensures p[k].role == Tool {
          if k >= |h| { assert p[k] == pads[k - |h|] && pads[k - |h|] in pads; }
        }
        assert Answers(p, last, j);
      }
    }
  }

  /** Every call has an id. */
  ghost predicate Named(h: seq<Message>) {
    forall i, c :: 0 <= i < |h| && HasCalls(h[i]) && c in h[i].calls ==> c.id != ""
  }

  /** A call without an id counts as unanswered at the end of every turn, and is answered
      again behind whatever came since. */
  lemma {:induction false} UnnamedCallDetaches(h: seq<Message>, asst: Message, answers: seq<Message>, final: Message)
    requires HasCalls(asst) && (exists c :: c in asst.calls && c.id == "")
    requires (forall k :: 0 <= k < |answers| ==> answers[k].role == Tool) && final.role == Assistant && final.calls == []
    ensures !RunsFollowCalls(Padded(h + [asst] + answers + [final]))
  {
    var w := h + [asst] + answers + [final];
    assert w[|h|] == asst && w[|w| - 1] == final;
    forall k | |h| < k < |w| ensures !HasCalls(w[k]) {
      assert w[k] == if k == |w| - 1 then final else answers[k - |h| - 1];
    }
    assert LastWithCalls(w) == |h|;
    assert Detaches(w);
    PaddedShapeIff(w);
  }
}
