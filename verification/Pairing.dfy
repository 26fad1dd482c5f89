/** How a stretch of history pairs tool calls with tool results: one by one behind each
    call in what the model is asked with, at least in runs behind them in what is kept. */
module Pairing {
  import opened Conversation
  import opened Compaction

  // ----- every call answered at once -----

  /** ms answers calls one by one, in order. */
  ghost predicate AnswersOf(calls: seq<ToolCall>, ms: seq<Message>) {
    |ms| == |calls| && forall k :: 0 <= k < |calls| ==> ms[k].role == Tool && ms[k].callId == calls[k].id
  }

  /** Every assistant message with calls is followed at once by exactly one tool message
      per call, and there are no other tool messages. */
  ghost predicate WellPaired(t: seq<Message>)
    decreases |t|
  {
    t == [] ||
    if HasCalls(t[0]) then
      var n := |t[0].calls|;
      n < |t| && AnswersOf(t[0].calls, t[1..n + 1]) && WellPaired(t[n + 1..])
    else
      t[0].role != Tool && WellPaired(t[1..])
  }

  lemma {:induction false} WellPairedConcat(a: seq<Message>, b: seq<Message>)
    requires WellPaired(a) && WellPaired(b)
    ensures WellPaired(a + b)
    decreases |a|
  {
    if a == [] {
      assert a + b == b;
    } else {
      var n := if HasCalls(a[0]) then |a[0].calls| else 0;
      assert (a + b)[n + 1..] == a[n + 1..] + b;
      assert (a + b)[1..n + 1] == a[1..n + 1];
      WellPairedConcat(a[n + 1..], b);
    }
  }

  lemma {:induction false} RoundWellPaired(m: Message, answers: seq<Message>)
    requires m.role == Assistant && AnswersOf(m.calls, answers)
    ensures WellPaired([m] + answers)
  {
    var r := [m] + answers;
    if HasCalls(m) {
      var n := |m.calls|;
      assert r[1..n + 1] == answers && r[n + 1..] == [];
    } else {
      assert r == [m] && r[1..] == [];
    }
  }

  ghost predicate UserMessages(ms: seq<Message>) {
    forall k :: 0 <= k < |ms| ==> ms[k].role == User
  }

  lemma {:induction false} UserMessagesWellPaired(ms: seq<Message>)
    requires UserMessages(ms)
    ensures WellPaired(ms)
    decreases |ms|
  {
    if ms != [] { UserMessagesWellPaired(ms[1..]); }
  }

  /** The list only ever grows by well-paired stretches. */
  ghost predicate Extends(start: seq<Message>, messages: seq<Message>) {
    |start| <= |messages| && messages[..|start|] == start && WellPaired(messages[|start|..])
  }

  // ----- at most the latest calls open -----

  ghost predicate AnsweredBetween(u: seq<Message>, i: int, k: int)
    requires 0 <= i < k < |u|
  {
    forall c :: c in u[i].calls ==> AnsweredWithin(u, i, k, c.id)
  }

  ghost predicate AnsweredWithin(u: seq<Message>, i: int, k: int, id: string)
    requires 0 <= i < k < |u|
  {
    exists j :: i < j < k && u[j].role == Tool && u[j].callId == id
  }

  /** Calls are answered before the next message with calls comes. */
  ghost predicate Steady(u: seq<Message>) {
    forall i, k :: 0 <= i < k < |u| && HasCalls(u[i]) && HasCalls(u[k]) ==> AnsweredBetween(u, i, k)
  }

  /** Only the first message may carry calls. */
  ghost predicate OneRound(t: seq<Message>) {
    forall k :: 0 < k < |t| ==> !HasCalls(t[k])
  }

  lemma {:induction false} SteadyAppend(u: seq<Message>, t: seq<Message>)
    requires Steady(u) && AllAnswered(u) && OneRound(t)
    ensures Steady(u + t)
  {
    SteadyConcat(u, t);
  }

  lemma {:induction false} SteadyConcat(u: seq<Message>, t: seq<Message>)
    requires Steady(u) && AllAnswered(u) && Steady(t)
    ensures Steady(u + t)
  {
    var w := u + t;
    forall i, k | 0 <= i < k < |w| && HasCalls(w[i]) && HasCalls(w[k]) ensures AnsweredBetween(w, i, k) {
      forall c | c in w[i].calls ensures AnsweredWithin(w, i, k, c.id) {
        if k < |u| {
          assert AnsweredBetween(u, i, k) && AnsweredWithin(u, i, k, c.id);
          var j :| i < j < k && u[j].role == Tool && u[j].callId == c.id;
          assert w[j] == u[j];
        } else if i < |u| {
          assert CallsAnswered(u, i) && AnsweredAfter(u, i, c.id);
          var j :| 0 <= j && i < j < |u| && u[j].role == Tool && u[j].callId == c.id;
          assert w[j] == u[j];
        } else {
          var a, b := i - |u|, k - |u|;
          assert AnsweredBetween(t, a, b) && AnsweredWithin(t, a, b, c.id);
          var j :| a < j < b && t[j].role == Tool && t[j].callId == c.id;
          assert w[|u| + j] == t[j];
        }
      }
    }
  }

  lemma {:induction false} SteadyPrefix(u: seq<Message>, n: nat)
    requires Steady(u) && n <= |u|
    ensures Steady(u[..n])
  {
    var p := u[..n];
    forall i, k | 0 <= i < k < |p| && HasCalls(p[i]) && HasCalls(p[k]) ensures AnsweredBetween(p, i, k) {
      forall c | c in p[i].calls ensures AnsweredWithin(p, i, k, c.id) {
        assert AnsweredBetween(u, i, k) && AnsweredWithin(u, i, k, c.id);
        var j :| i < j < k && u[j].role == Tool && u[j].callId == c.id;
        assert p[j] == u[j];
      }
    }
  }

  /** A history that answered all its calls, and a steady stretch behind it. */
  lemma {:induction false} SteadyIsAnsweredButLast(h: seq<Message>, u: seq<Message>)
    requires AllAnswered(h) && Steady(u)
    ensures AnsweredButLast(h + u)
  {
    var w := h + u;
    forall i, k | 0 <= i < k < |w| && HasCalls(w[i]) && HasCalls(w[k]) ensures CallsAnswered(w, i) {
      if i < |h| {
        AnsweredAfterAppend(h, u, i);
      } else {
        var a, b := i - |h|, k - |h|;
        assert AnsweredBetween(u, a, b);
        forall c | c in w[i].calls ensures AnsweredAfter(w, i, c.id) {
          assert AnsweredWithin(u, a, b, c.id);
          var j :| a < j < b && u[j].role == Tool && u[j].callId == c.id;
          assert w[|h| + j] == u[j];
        }
      }
    }
  }

  // ----- all calls answered -----

  lemma {:induction false} AnsweredWithTail(h: seq<Message>, tail: seq<Message>)
    requires forall i :: 0 <= i < |h| && HasCalls(h[i]) ==> CallsAnswered(h + tail, i)
    requires forall k :: 0 <= k < |tail| ==> !HasCalls(tail[k])
    ensures AllAnswered(h + tail)
  {
    assert forall i :: |h| <= i < |h + tail| ==> (h + tail)[i] == tail[i - |h|];
  }

  lemma {:induction false} AnsweredShift(h: seq<Message>, t: seq<Message>, i: nat)
    requires i < |t| && CallsAnswered(t, i)
    ensures CallsAnswered(h + t, |h| + i)
  {
    forall c | c in (h + t)[|h| + i].calls ensures AnsweredAfter(h + t, |h| + i, c.id) {
      assert AnsweredAfter(t, i, c.id);
      var j :| 0 <= j && i < j < |t| && t[j].role == Tool && t[j].callId == c.id;
      assert (h + t)[|h| + j] == t[j];
    }
  }

  lemma {:induction false} AnsweredConcat(h: seq<Message>, t: seq<Message>)
    requires AllAnswered(h) && AllAnswered(t)
    ensures AllAnswered(h + t)
  {
    forall i | 0 <= i < |h + t| && HasCalls((h + t)[i]) ensures CallsAnswered(h + t, i) {
      if i < |h| {
        AnsweredAfterAppend(h, t, i);
      } else {
        AnsweredShift(h, t, i - |h|);
      }
    }
  }

  /** Behind a message whose calls are all answered in the tail. */
  lemma {:induction false} RoundAnswered(m: Message, tail: seq<Message>)
    requires forall k :: 0 <= k < |tail| ==> !HasCalls(tail[k])
    requires forall c :: c in m.calls ==> exists j :: 0 <= j < |tail| && tail[j].role == Tool && tail[j].callId == c.id
    ensures AllAnswered([m] + tail)
  {
    var h := [m] + tail;
    forall c | c in m.calls ensures AnsweredAfter(h, 0, c.id) {
      var j :| 0 <= j < |tail| && tail[j].role == Tool && tail[j].callId == c.id;
      assert h[1 + j] == tail[j];
    }
    AnsweredWithTail([m], tail);
  }

  lemma {:induction false} NoCallsAnswered(t: seq<Message>)
    requires forall k :: 0 <= k < |t| ==> !HasCalls(t[k])
    ensures AllAnswered(t) && Steady(t) && OneRound(t)
  {}

  // ----- tool messages in runs behind their calls -----

  lemma {:induction false} RunsOfPrefix(h: seq<Message>, t: seq<Message>)
    requires RunsFollowCalls(h + t)
    ensures RunsFollowCalls(h)
  {
    var w := h + t;
    forall j | 0 <= j < |h| && h[j].role == Tool ensures exists i :: 0 <= i < j && Answers(h, i, j) {
      assert w[j] == h[j];
      var i :| 0 <= i < j && Answers(w, i, j);
      assert w[i] == h[i] && forall k :: i < k <= j ==> w[k] == h[k];
      assert Answers(h, i, j);
    }
  }

  lemma {:induction false} RunsShift(h: seq<Message>, t: seq<Message>, i: nat, j: nat)
    requires i < j < |t|
    ensures Answers(h + t, |h| + i, |h| + j) <==> Answers(t, i, j)
  {
    var w := h + t;
    assert w[|h| + i] == t[i] && w[|h| + j] == t[j];
    if Answers(t, i, j) {
      forall k | |h| + i < k <= |h| + j ensures w[k].role == Tool { assert w[k] == t[k - |h|]; }
    }
    if Answers(w, |h| + i, |h| + j) {
      forall k | i < k <= j ensures t[k].role == Tool { assert w[|h| + k] == t[k]; }
    }
  }

  ghost predicate StartsFresh(t: seq<Message>) { t != [] ==> t[0].role != Tool }

  /** Stretches that do not begin with a tool message keep or break the shape on their own. */
  lemma {:induction false} RunsConcatIff(h: seq<Message>, t: seq<Message>)
    requires StartsFresh(t)
    ensures RunsFollowCalls(h + t) <==> RunsFollowCalls(h) && RunsFollowCalls(t)
  {
    if RunsFollowCalls(h + t) {
      RunsOfPrefix(h, t);
      RunsOfSuffix(h, t);
    }
    if RunsFollowCalls(h) && RunsFollowCalls(t) { RunsConcat(h, t); }
  }

  lemma {:induction false} RunsOfSuffix(h: seq<Message>, t: seq<Message>)
    requires StartsFresh(t) && RunsFollowCalls(h + t)
    ensures RunsFollowCalls(t)
  {
    var w := h + t;
    forall j | 0 <= j < |t| && t[j].role == Tool ensures exists i :: 0 <= i < j && Answers(t, i, j) {
      assert w[|h| + j] == t[j];
      var i :| 0 <= i < |h| + j && Answers(w, i, |h| + j);
      assert w[|h|] == t[0];
      assert i >= |h|;
      RunsShift(h, t, i - |h|, j);
    }
  }

  lemma {:induction false} RunsConcat(h: seq<Message>, t: seq<Message>)
    requires RunsFollowCalls(h) && RunsFollowCalls(t)
    ensures RunsFollowCalls(h + t)
  {
    var w := h + t;
    forall j | 0 <= j < |w| && w[j].role == Tool ensures exists i :: 0 <= i < j && Answers(w, i, j) {
      if j < |h| {
        var i :| 0 <= i < j && Answers(h, i, j);
        assert w[i] == h[i] && w[j] == h[j] && forall k :: i < k <= j ==> w[k] == h[k];
        assert Answers(w, i, j);
      } else {
        var jj := j - |h|;
        assert t[jj] == w[j];
        var i :| 0 <= i < jj && Answers(t, i, jj);
        RunsShift(h, t, i, jj);
      }
    }
  }

  lemma {:induction false} NoToolsRun(t: seq<Message>)
    requires forall k :: 0 <= k < |t| ==> t[k].role != Tool
    ensures RunsFollowCalls(t) && StartsFresh(t)
  {}

  ghost predicate CarriesId(m: Message, id: string) {
    HasCalls(m) && exists c :: c in m.calls && c.id == id
  }

  /** A message and tool messages behind it. */
  lemma {:induction false} RunsOfRoundIff(m: Message, tools: seq<Message>)
    requires m.role != Tool && forall k :: 0 <= k < |tools| ==> tools[k].role == Tool
    ensures RunsFollowCalls([m] + tools) <==> forall k :: 0 <= k < |tools| ==> CarriesId(m, tools[k].callId)
  {
    var t := [m] + tools;
    assert forall k :: 0 < k < |t| ==> t[k].role == Tool;
    if RunsFollowCalls(t) {
      forall k | 0 <= k < |tools| ensures CarriesId(m, tools[k].callId) {
        assert t[k + 1] == tools[k];
        var i :| 0 <= i < k + 1 && Answers(t, i, k + 1);
        assert i == 0;
      }
    }
    if forall k :: 0 <= k < |tools| ==> CarriesId(m, tools[k].callId) {
      forall j | 0 <= j < |t| && t[j].role == Tool ensures exists i :: 0 <= i < j && Answers(t, i, j) {
        assert t[j] == tools[j - 1] && CarriesId(m, tools[j - 1].callId);
        assert forall k :: 0 < k <= j ==> t[k] == tools[k - 1];
        assert Answers(t, 0, j);
      }
    }
  }
}
