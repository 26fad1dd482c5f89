/** Incremental conversation summaries: validation of whatever topics the model answers,
    and the store writes around it, under any failure. */
module Summary {
  import opened Options
  import opened Selection
  import opened Text

  datatype Message = Message(seqNo: int, role: string, origin: string)

  datatype Segment = Segment(s: int, e: int)

  datatype Topic = Topic(topic: string, summary: string, keywords: seq<string>, importance: int, segments: seq<Segment>)

  /** A stored topic row; its range is the key on which inserts are merged. */
  datatype Row = Row(topic: string, summary: string, keywords: seq<string>, importance: int,
                     segments: seq<Segment>, seqStart: int, seqEnd: int)

  type Rows = map<(int, int), Row>

  // ----- windows -----

  ghost predicate IsRange(messages: seq<Message>, mn: int, mx: int) {
    if messages == [] then mn == 0 && mx == 0
    else
      && (forall i :: 0 <= i < |messages| ==> mn <= messages[i].seqNo <= mx)
      && (exists i :: 0 <= i < |messages| && messages[i].seqNo == mn)
      && (exists i :: 0 <= i < |messages| && messages[i].seqNo == mx)
  }

  function MinSeq(messages: seq<Message>): int
    requires messages != []
  {
    var last := messages[|messages| - 1].seqNo;
    if |messages| == 1 then last
    else if last < MinSeq(messages[..|messages| - 1]) then last
    else MinSeq(messages[..|messages| - 1])
  }

  function MaxSeq(messages: seq<Message>): int
    requires messages != []
  {
    var last := messages[|messages| - 1].seqNo;
    if |messages| == 1 then last
    else if last > MaxSeq(messages[..|messages| - 1]) then last
    else MaxSeq(messages[..|messages| - 1])
  }

  function Range(messages: seq<Message>): (int, int) {
    if messages == [] then (0, 0) else (MinSeq(messages), MaxSeq(messages))
  }

  lemma {:induction false} RangeIsRange(messages: seq<Message>)
    ensures IsRange(messages, Range(messages).0, Range(messages).1)
  {
    if |messages| == 1 {
      assert messages[0].seqNo == MinSeq(messages) == MaxSeq(messages);
    } else if messages != [] {
      var front := messages[..|messages| - 1];
      RangeIsRange(front);
      var i :| 0 <= i < |front| && front[i].seqNo == MinSeq(front);
      var j :| 0 <= j < |front| && front[j].seqNo == MaxSeq(front);
      assert messages[i] == front[i] && messages[j] == front[j];
      assert messages[|messages| - 1].seqNo in {MinSeq(messages), MaxSeq(messages)} || MinSeq(messages) == MinSeq(front);
    }
  }

  method SeqRangeOf(messages: seq<Message>) returns (mn: int, mx: int)
    ensures (mn, mx) == Range(messages) && IsRange(messages, mn, mx)
  {
    RangeIsRange(messages);
    if |messages| == 0 {
      return 0, 0;
    }
    mn, mx := messages[0].seqNo, messages[0].seqNo;
    assert messages[..1] == [messages[0]];
    for i := 1 to |messages|
      invariant (mn, mx) == Range(messages[..i])
    {
      assert messages[..i + 1][..i] == messages[..i];
      if messages[i].seqNo < mn {
        mn := messages[i].seqNo;
      }
      if messages[i].seqNo > mx {
        mx := messages[i].seqNo;
      }
    }
    assert messages[..|messages|] == messages;
  }

  function NewerThan(messages: seq<Message>, lastSeq: int): (r: seq<Message>)
    ensures forall m :: m in r <==> m in messages && m.seqNo > lastSeq
  {
    if messages == [] then []
    else
      assert messages == messages[..|messages| - 1] + [messages[|messages| - 1]];
      var front := NewerThan(messages[..|messages| - 1], lastSeq);
      if messages[|messages| - 1].seqNo > lastSeq then front + [messages[|messages| - 1]] else front
  }

  method MessagesAfterSeq(messages: seq<Message>, lastSeq: int) returns (out: seq<Message>)
    ensures out == NewerThan(messages, lastSeq)
  {
    out := [];
    for i := 0 to |messages|
      invariant out == NewerThan(messages[..i], lastSeq)
    {
      assert messages[..i + 1][..i] == messages[..i];
      if messages[i].seqNo > lastSeq {
        out := out + [messages[i]];
      }
    }
    assert messages[..|messages|] == messages;
  }

  function IsNewer(lastSeq: int): Message -> bool {
    (m: Message) => m.seqNo > lastSeq
  }

  /** The newer messages, in order. */
  ghost predicate AreNewer(picked: seq<Message>, messages: seq<Message>, lastSeq: int) {
    Selects(picked, messages, IsNewer(lastSeq))
  }

  lemma {:induction false} NewerNext(picked: seq<Message>, front: seq<Message>, lastSeq: int, m: Message)
    requires AreNewer(picked, front, lastSeq)
    ensures m.seqNo > lastSeq ==> AreNewer(picked + [m], front + [m], lastSeq)
    ensures m.seqNo <= lastSeq ==> AreNewer(picked, front + [m], lastSeq)
  {
    SelectsNext(picked, front, IsNewer(lastSeq), m);
  }

  lemma {:induction false} NewerThanAre(messages: seq<Message>, lastSeq: int)
    ensures AreNewer(NewerThan(messages, lastSeq), messages, lastSeq)
  {
    if messages == [] {
      SelectsNothing(IsNewer(lastSeq));
    } else {
      var n := |messages| - 1;
      NewerThanAre(messages[..n], lastSeq);
      NewerNext(NewerThan(messages[..n], lastSeq), messages[..n], lastSeq, messages[n]);
      assert messages[..n] + [messages[n]] == messages;
    }
  }

  // ----- validation of the model's answer -----

  function Ordered(g: Segment): Segment {
    if g.s > g.e then Segment(g.e, g.s) else g
  }

  predicate Accepted(g: Segment, range: (int, int), existing: set<Segment>) {
    (range.0 <= g.s && g.e <= range.1) || g in existing
  }

  function ValidSegments(segs: seq<Segment>, range: (int, int), existing: set<Segment>): seq<Segment> {
    if segs == [] then []
    else
      var front := ValidSegments(segs[..|segs| - 1], range, existing);
      var g := Ordered(segs[|segs| - 1]);
      if Accepted(g, range, existing) then front + [g] else front
  }

  function Clamped(n: int): int {
    if n < 1 then 3 else if n > 5 then 5 else n
  }

  predicate Blank(s: string) { TrimSpace(s) == "" }

  function Cleaned(t: Topic, segs: seq<Segment>): Topic {
    t.(segments := segs, importance := Clamped(t.importance))
  }

  function Validated(parsed: seq<Topic>, range: (int, int), existing: set<Segment>): seq<Topic> {
    if parsed == [] then []
    else
      var front, t := Validated(parsed[..|parsed| - 1], range, existing), parsed[|parsed| - 1];
      var valid := ValidSegments(t.segments, range, existing);
      if Blank(t.topic) || Blank(t.summary) || valid == [] then front else front + [Cleaned(t, valid)]
  }

  method ValidSegmentsOf(segs: seq<Segment>, mn: int, mx: int, existing: set<Segment>) returns (valid: seq<Segment>)
    ensures valid == ValidSegments(segs, (mn, mx), existing)
  {
    valid := [];
    for j := 0 to |segs|
      invariant valid == ValidSegments(segs[..j], (mn, mx), existing)
    {
      assert segs[..j + 1][..j] == segs[..j];
      var seg := segs[j];
      if seg.s > seg.e {
        seg := Segment(seg.e, seg.s);
      }
      var inWindow := seg.s >= mn && seg.e <= mx;
      if inWindow || seg in existing {
        valid := valid + [seg];
      }
    }
    assert segs[..|segs|] == segs;
  }

  method ValidateTopics(parsed: seq<Topic>, messages: seq<Message>, existing: set<Segment>) returns (cleaned: seq<Topic>)
    ensures cleaned == Validated(parsed, Range(messages), existing)
  {
    var mn, mx := SeqRangeOf(messages);
    cleaned := [];
    for i := 0 to |parsed|
      invariant cleaned == Validated(parsed[..i], (mn, mx), existing)
    {
      assert parsed[..i + 1][..i] == parsed[..i];
      var t := parsed[i];
      if TrimSpace(t.topic) == "" || TrimSpace(t.summary) == "" {
        continue;
      }
      var valid := ValidSegmentsOf(t.segments, mn, mx, existing);
      if |valid| == 0 {
        continue;
      }
      t := t.(segments := valid);
      if t.importance < 1 {
        t := t.(importance := 3);
      }
      if t.importance > 5 {
        t := t.(importance := 5);
      }
      cleaned := cleaned + [t];
    }
    assert parsed[..|parsed|] == parsed;
  }

  ghost predicate SegmentOk(g: Segment, range: (int, int), existing: set<Segment>) {
    g.s <= g.e && Accepted(g, range, existing)
  }

  /** What the model cannot break. */
  ghost predicate TopicOk(t: Topic, range: (int, int), existing: set<Segment>) {
    && !Blank(t.topic) && !Blank(t.summary) && 1 <= t.importance <= 5
    && t.segments != [] && forall g :: g in t.segments ==> SegmentOk(g, range, existing)
  }

  /** The model offers this segment, possibly with its ends swapped. */
  ghost predicate Offered(g: Segment, segs: seq<Segment>) {
    exists j :: 0 <= j < |segs| && Ordered(segs[j]) == g
  }

  lemma {:induction false} OfferedNext(g: Segment, segs: seq<Segment>)
    requires segs != []
    ensures Offered(g, segs) <==> Offered(g, segs[..|segs| - 1]) || Ordered(segs[|segs| - 1]) == g
  {
    var front := segs[..|segs| - 1];
    if Offered(g, segs) {
      var j :| 0 <= j < |segs| && Ordered(segs[j]) == g;
      if j < |front| { assert front[j] == segs[j]; }
    }
    if Offered(g, front) {
      var j :| 0 <= j < |front| && Ordered(front[j]) == g;
      assert segs[j] == front[j];
    }
  }

  lemma {:induction false} ValidSegmentsAre(segs: seq<Segment>, range: (int, int), existing: set<Segment>)
    ensures forall g :: g in ValidSegments(segs, range, existing) <==> Accepted(g, range, existing) && Offered(g, segs)
  {
    if segs != [] {
      ValidSegmentsAre(segs[..|segs| - 1], range, existing);
      forall g ensures g in ValidSegments(segs, range, existing) <==> Accepted(g, range, existing) && Offered(g, segs) {
        OfferedNext(g, segs);
      }
    }
  }

  function AllOrdered(segs: seq<Segment>): (r: seq<Segment>)
    ensures |r| == |segs|
    ensures forall i :: 0 <= i < |r| ==>
              r[i] == if segs[i].s <= segs[i].e then segs[i] else Segment(segs[i].e, segs[i].s)
  {
    seq(|segs|, i requires 0 <= i < |segs| => Ordered(segs[i]))
  }

  function IsAccepted(range: (int, int), existing: set<Segment>): Segment -> bool {
    (g: Segment) => (range.0 <= g.s && g.e <= range.1) || g in existing
  }

  /** The accepted segments, in order, with their ends in order. */
  ghost predicate AcceptedOf(valid: seq<Segment>, segs: seq<Segment>, range: (int, int), existing: set<Segment>) {
    Selects(valid, AllOrdered(segs), IsAccepted(range, existing))
  }

  lemma {:induction false} AcceptedNext(valid: seq<Segment>, front: seq<Segment>, range: (int, int), existing: set<Segment>,
                                        g: Segment)
    requires AcceptedOf(valid, front, range, existing)
    ensures Accepted(Ordered(g), range, existing) ==> AcceptedOf(valid + [Ordered(g)], front + [g], range, existing)
    ensures !Accepted(Ordered(g), range, existing) ==> AcceptedOf(valid, front + [g], range, existing)
  {
    SelectsNext(valid, AllOrdered(front), IsAccepted(range, existing), Ordered(g));
    assert AllOrdered(front + [g]) == AllOrdered(front) + [Ordered(g)];
  }

  lemma {:induction false} ValidSegmentsInOrder(segs: seq<Segment>, range: (int, int), existing: set<Segment>)
    ensures AcceptedOf(ValidSegments(segs, range, existing), segs, range, existing)
  {
    if segs == [] {
      assert AllOrdered(segs) == [];
      SelectsNothing(IsAccepted(range, existing));
    } else {
      var n := |segs| - 1;
      ValidSegmentsInOrder(segs[..n], range, existing);
      AcceptedNext(ValidSegments(segs[..n], range, existing), segs[..n], range, existing, segs[n]);
      assert segs[..n] + [segs[n]] == segs;
    }
  }

  /** The topic says something and has a segment that is accepted. */
  function IsKept(range: (int, int), existing: set<Segment>): Topic -> bool {
    (t: Topic) => TrimSpace(t.topic) != "" && TrimSpace(t.summary) != "" && ValidSegments(t.segments, range, existing) != []
  }

  /** What becomes of a topic that is kept: its texts stay, an importance that is too small
      becomes the middle one, one that is too large the largest, and of its segments the
      accepted ones stay. */
  ghost predicate CleanedFrom(c: Topic, t: Topic, range: (int, int), existing: set<Segment>) {
    && c.topic == t.topic && c.summary == t.summary && c.keywords == t.keywords
    && (t.importance < 1 ==> c.importance == 3) && (t.importance > 5 ==> c.importance == 5)
    && (1 <= t.importance <= 5 ==> c.importance == t.importance)
    && AcceptedOf(c.segments, t.segments, range, existing)
  }

  ghost predicate AllCleaned(cleaned: seq<Topic>, topics: seq<Topic>, range: (int, int), existing: set<Segment>) {
    |cleaned| == |topics| && forall i :: 0 <= i < |cleaned| ==> CleanedFrom(cleaned[i], topics[i], range, existing)
  }

  ghost predicate AreKept(kept: seq<Topic>, parsed: seq<Topic>, range: (int, int), existing: set<Segment>) {
    Selects(kept, parsed, IsKept(range, existing))
  }

  /** What validation makes of an answer: of its topics, in order, those that are kept, cleaned. */
  lemma {:induction false} ValidatedAre(parsed: seq<Topic>, range: (int, int), existing: set<Segment>) returns (kept: seq<Topic>)
    ensures AreKept(kept, parsed, range, existing)
    ensures AllCleaned(Validated(parsed, range, existing), kept, range, existing)
  {
    if parsed == [] {
      kept := [];
      SelectsNothing(IsKept(range, existing));
    } else {
      var front, t := parsed[..|parsed| - 1], parsed[|parsed| - 1];
      assert front + [t] == parsed;
      var some := ValidatedAre(front, range, existing);
      SelectsNext(some, front, IsKept(range, existing), t);
      kept := if IsKept(range, existing)(t) then some + [t] else some;
      ValidSegmentsInOrder(t.segments, range, existing);
      CleanedNext(Validated(front, range, existing), some, t, range, existing);
    }
  }

  lemma {:induction false} CleanedNext(cleaned: seq<Topic>, kept: seq<Topic>, t: Topic, range: (int, int), existing: set<Segment>)
    requires AllCleaned(cleaned, kept, range, existing)
    requires AcceptedOf(ValidSegments(t.segments, range, existing), t.segments, range, existing)
    ensures AllCleaned(cleaned + [Cleaned(t, ValidSegments(t.segments, range, existing))], kept + [t], range, existing)
  {}

  /** Whatever the model answers, every topic that gets through is sound. */
  lemma {:induction false} ValidatedAreOk(parsed: seq<Topic>, range: (int, int), existing: set<Segment>)
    ensures forall t :: t in Validated(parsed, range, existing) ==> TopicOk(t, range, existing)
  {
    if parsed != [] {
      var last := parsed[|parsed| - 1];
      ValidatedAreOk(parsed[..|parsed| - 1], range, existing);
      ValidSegmentsAre(last.segments, range, existing);
    }
  }

  /** Sound topics get through as they are, so validating twice changes nothing. */
  lemma {:induction false} ValidationKeepsOk(topics: seq<Topic>, range: (int, int), existing: set<Segment>)
    requires forall t :: t in topics ==> TopicOk(t, range, existing)
    ensures Validated(topics, range, existing) == topics
  {
    if topics != [] {
      var front, last := topics[..|topics| - 1], topics[|topics| - 1];
      assert forall t :: t in front ==> t in topics;
      ValidationKeepsOk(front, range, existing);
      assert last in topics;
      SegmentsKept(last.segments, range, existing);
      assert topics == front + [last];
    }
  }

  lemma {:induction false} SegmentsKept(segs: seq<Segment>, range: (int, int), existing: set<Segment>)
    requires forall g :: g in segs ==> SegmentOk(g, range, existing)
    ensures ValidSegments(segs, range, existing) == segs
  {
    if segs != [] {
      var front, last := segs[..|segs| - 1], segs[|segs| - 1];
      assert forall g :: g in front ==> g in segs;
      SegmentsKept(front, range, existing);
      assert last in segs;
      assert segs == front + [last];
    }
  }

  // ----- rows -----

  function MinStart(segs: seq<Segment>): int
    requires segs != []
  {
    var last := segs[|segs| - 1].s;
    if |segs| == 1 then last
    else if last < MinStart(segs[..|segs| - 1]) then last
    else MinStart(segs[..|segs| - 1])
  }

  function MaxEnd(segs: seq<Segment>): int
    requires segs != []
  {
    var last := segs[|segs| - 1].e;
    if |segs| == 1 then last
    else if last > MaxEnd(segs[..|segs| - 1]) then last
    else MaxEnd(segs[..|segs| - 1])
  }

  ghost predicate Spans(segs: seq<Segment>, lo: int, hi: int) {
    && (forall g :: g in segs ==> lo <= g.s && g.e <= hi)
    && (exists g :: g in segs && g.s == lo) && (exists g :: g in segs && g.e == hi)
  }

  lemma {:induction false} SpanOf(segs: seq<Segment>)
    requires segs != []
    ensures Spans(segs, MinStart(segs), MaxEnd(segs))
  {
    var last := segs[|segs| - 1];
    assert last in segs;
    if |segs| > 1 {
      var front := segs[..|segs| - 1];
      SpanOf(front);
      var g :| g in front && g.s == MinStart(front);
      var h :| h in front && h.e == MaxEnd(front);
      assert g in segs && h in segs;
      assert segs == front + [last];
    }
  }

  function RowOf(t: Topic): Row
    requires t.segments != []
  {
    Row(t.topic, t.summary, t.keywords, t.importance, t.segments, MinStart(t.segments), MaxEnd(t.segments))
  }

  function Key(r: Row): (int, int) { (r.seqStart, r.seqEnd) }

  ghost predicate HaveSegments(topics: seq<Topic>) {
    forall i :: 0 <= i < |topics| ==> topics[i].segments != []
  }

  /** The rows after inserting every topic whose insert does not fail. */
  ghost function InsertAll(rows: Rows, topics: seq<Topic>, failed: set<nat>): Rows
    requires HaveSegments(topics)
  {
    if topics == [] then rows
    else
      var n := |topics| - 1;
      var before := InsertAll(rows, topics[..n], failed);
      if n in failed then before else before[Key(RowOf(topics[n])) := RowOf(topics[n])]
  }

  // ----- one run -----

  datatype State = State(archive: seq<Message>, rows: Rows, mark: int)

  /** A write may fail, or take effect and still report an error. */
  datatype Write = Works | Fails | Unsure

  /** What the store and the model do during one run; answer is None when the call or the
      parse fails. Errors of inserts and of the mark are only logged, so all that counts is
      which of them have no effect: inserts holds the positions of such topics. */
  datatype Faults = Faults(load: bool, session: bool, list: bool, answer: Option<seq<Topic>>,
                           delete: Write, inserts: set<nat>, mark: bool)

  predicate Shown(m: Message) { m.role != "system" && m.origin == "" }

  predicate NoneShown(messages: seq<Message>) {
    forall i :: 0 <= i < |messages| ==> !Shown(messages[i])
  }

  /** An empty transcript is not sent. */
  function Extracted(answer: Option<seq<Topic>>, messages: seq<Message>): Option<seq<Topic>> {
    if NoneShown(messages) then Some([]) else answer
  }

  function AllSegments(rows: Rows): set<Segment> {
    set k, g | k in rows && g in rows[k].segments :: g
  }

  predicate Incremental(st: State, f: Faults) { !f.session && st.mark != 0 }

  function Window(st: State, f: Faults): seq<Message> {
    if Incremental(st, f) && !f.list then NewerThan(st.archive, st.mark) else st.archive
  }

  ghost function Carried(st: State, f: Faults): set<Segment> {
    if Incremental(st, f) && !f.list then AllSegments(st.rows) else {}
  }

  /** The topics that a run is about to write; none when it stops early. */
  ghost function Topics(st: State, f: Faults): seq<Topic> {
    if f.load || |st.archive| < 2 then []
    else if Incremental(st, f) && NewerThan(st.archive, st.mark) == [] then []
    else
      match Extracted(f.answer, Window(st, f))
      case None => []
      case Some(parsed) => Validated(parsed, Range(Window(st, f)), Carried(st, f))
  }

  /** The run comes to its inserts. */
  ghost predicate Writes(st: State, f: Faults) {
    Topics(st, f) != [] && (Incremental(st, f) ==> f.delete.Works?)
  }

  ghost function Persisted(st: State, f: Faults): State {
    var topics := Topics(st, f);
    if topics == [] || (Incremental(st, f) && f.delete.Fails?) then st
    else if Incremental(st, f) && f.delete.Unsure? then st.(rows := map[])
    else
      TopicsHaveSegments(st, f);
      st.(rows := InsertAll(if Incremental(st, f) then map[] else st.rows, topics, f.inserts),
          mark := if f.mark then st.mark else st.archive[|st.archive| - 1].seqNo)
  }

  lemma {:induction false} TopicsAreOk(st: State, f: Faults)
    ensures forall t :: t in Topics(st, f) ==> TopicOk(t, Range(Window(st, f)), Carried(st, f))
  {
    var answer := Extracted(f.answer, Window(st, f));
    if answer.Some? { ValidatedAreOk(answer.value, Range(Window(st, f)), Carried(st, f)); }
  }

  lemma {:induction false} TopicsHaveSegments(st: State, f: Faults)
    ensures HaveSegments(Topics(st, f))
    ensures Topics(st, f) != [] ==> |st.archive| >= 2
  {
    TopicsAreOk(st, f);
    forall i | 0 <= i < |Topics(st, f)| ensures Topics(st, f)[i].segments != [] {
      assert Topics(st, f)[i] in Topics(st, f);
    }
  }

  class SummaryStore {
    var archive: seq<Message>
    var rows: Rows
    var mark: int

    ghost function Value(): State
      reads this
    {
      State(archive, rows, mark)
    }

    /** The row of one topic, inserted over any row of the same range. */
    method InsertTopic(t: Topic, fails: bool)
      requires t.segments != []
      modifies `rows
      ensures rows == if fails then old(rows) else old(rows)[Key(RowOf(t)) := RowOf(t)]
    {
      var minSeq, maxSeq := t.segments[0].s, t.segments[0].e;
      assert t.segments[..1] == [t.segments[0]];
      for j := 1 to |t.segments|
        invariant minSeq == MinStart(t.segments[..j]) && maxSeq == MaxEnd(t.segments[..j])
        invariant rows == old(rows)
      {
        assert t.segments[..j + 1][..j] == t.segments[..j];
        if t.segments[j].s < minSeq {
          minSeq := t.segments[j].s;
        }
        if t.segments[j].e > maxSeq {
          maxSeq := t.segments[j].e;
        }
      }
      assert t.segments[..|t.segments|] == t.segments;
      if !fails {
        var row := Row(t.topic, t.summary, t.keywords, t.importance, t.segments, minSeq, maxSeq);
        rows := rows[(minSeq, maxSeq) := row];
      }
    }

    method Extract(window: seq<Message>, existing: set<Segment>, answer: Option<seq<Topic>>)
      returns (topics: Option<seq<Topic>>)
      ensures topics == match Extracted(answer, window)
                        case None => None
                        case Some(parsed) => Some(Validated(parsed, Range(window), existing))
    {
      var parsed := Extracted(answer, window);
      if parsed.None? {
        return None;
      }
      var cleaned := ValidateTopics(parsed.value, window, existing);
      topics := Some(cleaned);
    }

    method PersistConversationSummary(f: Faults)
      modifies `rows, `mark
      ensures Value() == Persisted(old(Value()), f)
    {
      ghost var st := Value();
      TopicsHaveSegments(st, f);
      if f.load || |archive| < 2 {
        return;
      }
      var maxSeq := archive[|archive| - 1].seqNo;
      var lastSeq := if f.session then 0 else mark;
      var incremental := lastSeq != 0;
      var topics: Option<seq<Topic>>;
      if !incremental {
        topics := Extract(archive, {}, f.answer);
      } else {
        var newMsgs := MessagesAfterSeq(archive, lastSeq);
        if |newMsgs| == 0 {
          return;
        }
        if f.list {
          topics := Extract(archive, {}, f.answer);
        } else {
          topics := Extract(newMsgs, AllSegments(rows), f.answer);
        }
      }
      if topics.None? || |topics.value| == 0 {
        return;
      }
      assert topics.value == Topics(st, f);
      if incremental {
        if f.delete.Fails? {
          return;
        }
        rows := map[];
        if f.delete.Unsure? {
          return;
        }
      }
      InsertTopics(topics.value, f.inserts);
      if !f.mark {
        mark := maxSeq;
      }
    }

    method InsertTopics(topics: seq<Topic>, failed: set<nat>)
      requires HaveSegments(topics)
      modifies `rows
      ensures rows == InsertAll(old(rows), topics, failed)
    {
      for i := 0 to |topics|
        invariant HaveSegments(topics[..i]) && rows == InsertAll(old(rows), topics[..i], failed)
      {
        assert topics[..i + 1][..i] == topics[..i];
        InsertTopic(topics[i], i in failed);
      }
      assert topics[..|topics|] == topics;
    }
  }

  // ----- invariants over all runs -----

  ghost predicate Ascending(archive: seq<Message>) {
    (forall i :: 0 <= i < |archive| ==> 0 <= archive[i].seqNo)
    && forall i, j :: 0 <= i < j < |archive| ==> archive[i].seqNo < archive[j].seqNo
  }

  ghost predicate InArchive(g: Segment, archive: seq<Message>) {
    g.s <= g.e && archive != [] && archive[0].seqNo <= g.s && g.e <= archive[|archive| - 1].seqNo
  }

  ghost predicate RowOk(r: Row, key: (int, int), archive: seq<Message>) {
    && Key(r) == key && Spans(r.segments, r.seqStart, r.seqEnd)
    && (forall g :: g in r.segments ==> InArchive(g, archive))
    && !Blank(r.topic) && !Blank(r.summary) && 1 <= r.importance <= 5
  }

  ghost predicate RowsOk(rows: Rows, archive: seq<Message>) {
    forall k {:trigger rows[k]} :: k in rows ==> RowOk(rows[k], k, archive)
  }

  ghost predicate Inv(st: State) {
    && Ascending(st.archive) && RowsOk(st.rows, st.archive)
    && 0 <= st.mark && (st.mark > 0 ==> st.archive != [] && st.mark <= st.archive[|st.archive| - 1].seqNo)
  }

  /** A session's archive only grows; a run may fail anywhere. */
  datatype Event = Append(messages: seq<Message>) | Persist(faults: Faults)

  ghost function Step(st: State, e: Event): State {
    match e
    case Append(ms) => st.(archive := st.archive + ms)
    case Persist(f) => Persisted(st, f)
  }

  ghost predicate Enabled(st: State, e: Event) {
    e.Append? ==> Ascending(st.archive + e.messages)
  }

  lemma {:induction false} AscendingBounds(archive: seq<Message>, i: nat)
    requires Ascending(archive) && i < |archive|
    ensures archive[0].seqNo <= archive[i].seqNo <= archive[|archive| - 1].seqNo
  {}

  lemma {:induction false} WindowInArchive(st: State, f: Faults)
    requires Ascending(st.archive) && Window(st, f) != []
    ensures var range := Range(Window(st, f));
            st.archive != [] && st.archive[0].seqNo <= range.0 && range.1 <= st.archive[|st.archive| - 1].seqNo
  {
    var w := Window(st, f);
    RangeIsRange(w);
    forall m | m in w ensures st.archive != [] && st.archive[0].seqNo <= m.seqNo <= st.archive[|st.archive| - 1].seqNo {
      assert m in st.archive;
      var i :| 0 <= i < |st.archive| && st.archive[i] == m;
      AscendingBounds(st.archive, i);
    }
    assert w[0] in w;
    var i :| 0 <= i < |w| && w[i].seqNo == Range(w).0;
    var j :| 0 <= j < |w| && w[j].seqNo == Range(w).1;
    assert w[i] in w && w[j] in w;
  }

  lemma {:induction false} TopicsNeedWindow(st: State, f: Faults)
    requires Topics(st, f) != []
    ensures Window(st, f) != []
  {}

  lemma {:induction false} TopicFits(st: State, f: Faults, t: Topic)
    requires Inv(st) && t in Topics(st, f)
    ensures t.segments != [] && RowOk(RowOf(t), Key(RowOf(t)), st.archive)
  {
    TopicsAreOk(st, f);
    TopicsNeedWindow(st, f);
    WindowInArchive(st, f);
    SpanOf(t.segments);
    forall g | g in t.segments ensures InArchive(g, st.archive) {
      assert SegmentOk(g, Range(Window(st, f)), Carried(st, f));
      if g in Carried(st, f) {
        var k :| k in st.rows && g in st.rows[k].segments;
        assert RowOk(st.rows[k], k, st.archive);
      }
    }
  }

  ghost predicate TopicsFit(topics: seq<Topic>, archive: seq<Message>) {
    forall i :: 0 <= i < |topics| ==> topics[i].segments != [] && RowOk(RowOf(topics[i]), Key(RowOf(topics[i])), archive)
  }

  lemma {:induction false} InsertKeepsRows(rows: Rows, topics: seq<Topic>, failed: set<nat>, archive: seq<Message>)
    requires RowsOk(rows, archive) && TopicsFit(topics, archive)
    ensures HaveSegments(topics) && RowsOk(InsertAll(rows, topics, failed), archive)
  {
    if topics != [] {
      var n := |topics| - 1;
      var front := topics[..n];
      assert TopicsFit(front, archive) by {
        forall i | 0 <= i < |front|
          ensures front[i].segments != [] && RowOk(RowOf(front[i]), Key(RowOf(front[i])), archive)
        {
          assert front[i] == topics[i];
        }
      }
      InsertKeepsRows(rows, front, failed, archive);
    }
  }

  lemma {:induction false} TopicsOfRunFit(st: State, f: Faults)
    requires Inv(st)
    ensures TopicsFit(Topics(st, f), st.archive)
  {
    var topics := Topics(st, f);
    forall i | 0 <= i < |topics|
      ensures topics[i].segments != [] && RowOk(RowOf(topics[i]), Key(RowOf(topics[i])), st.archive)
    {
      assert topics[i] in topics;
      TopicFits(st, f, topics[i]);
    }
  }

  lemma {:induction false} MarkNeverDecreases(st: State, f: Faults)
    requires Inv(st)
    ensures st.mark <= Persisted(st, f).mark && Persisted(st, f).archive == st.archive
    ensures Persisted(st, f).mark > st.mark ==> st.archive != [] && Persisted(st, f).mark == st.archive[|st.archive| - 1].seqNo
  {
    TopicsHaveSegments(st, f);
  }

  lemma {:induction false} PersistKeepsRows(st: State, f: Faults)
    requires Inv(st)
    ensures RowsOk(Persisted(st, f).rows, st.archive)
  {
    TopicsOfRunFit(st, f);
    InsertKeepsRows(st.rows, Topics(st, f), f.inserts, st.archive);
    InsertKeepsRows(map[], Topics(st, f), f.inserts, st.archive);
  }

  lemma {:induction false} PersistKeepsInv(st: State, f: Faults)
    requires Inv(st)
    ensures Inv(Persisted(st, f)) && st.mark <= Persisted(st, f).mark
  {
    MarkNeverDecreases(st, f);
    PersistKeepsRows(st, f);
  }

  lemma {:induction false} AppendKeepsInv(st: State, ms: seq<Message>)
    requires Inv(st) && Ascending(st.archive + ms)
    ensures Inv(st.(archive := st.archive + ms))
  {
    var archive := st.archive + ms;
    if st.archive != [] {
      assert archive[0] == st.archive[0] && archive[|st.archive| - 1] == st.archive[|st.archive| - 1];
      AscendingBounds(archive, |st.archive| - 1);
    }
    forall k | k in st.rows ensures RowOk(st.rows[k], k, archive) {
      var r := st.rows[k];
      forall g | g in r.segments ensures InArchive(g, archive) { assert InArchive(g, st.archive); }
    }
  }

  ghost function After(st: State, events: seq<Event>): State {
    if events == [] then st else Step(After(st, events[..|events| - 1]), events[|events| - 1])
  }

  ghost predicate EnabledRun(st: State, events: seq<Event>) {
    events != [] ==>
      EnabledRun(st, events[..|events| - 1]) && Enabled(After(st, events[..|events| - 1]), events[|events| - 1])
  }

  /** Over any run of appends and summaries, whatever the model answers and whatever fails:
      every row stays sound and the mark never decreases. */
  lemma {:induction false} RunKeepsInv(st: State, events: seq<Event>)
    requires Inv(st) && EnabledRun(st, events)
    ensures Inv(After(st, events)) && st.mark <= After(st, events).mark
  {
    if events != [] {
      var before := After(st, events[..|events| - 1]);
      RunKeepsInv(st, events[..|events| - 1]);
      match events[|events| - 1] {
        case Append(ms) => AppendKeepsInv(before, ms);
        case Persist(f) => PersistKeepsInv(before, f);
      }
    }
  }

  // ----- where segments come from -----

  lemma {:induction false} InsertSources(rows: Rows, topics: seq<Topic>, failed: set<nat>, g: Segment)
    requires HaveSegments(topics) && g in AllSegments(InsertAll(rows, topics, failed))
    ensures g in AllSegments(rows) || exists i :: 0 <= i < |topics| && g in topics[i].segments
  {
    if topics != [] {
      var n := |topics| - 1;
      var front := topics[..n];
      if g in AllSegments(InsertAll(rows, front, failed)) {
        InsertSources(rows, front, failed, g);
        if i :| 0 <= i < |front| && g in front[i].segments { assert topics[i] == front[i]; }
      } else {
        assert g in topics[n].segments;
      }
    }
  }

  lemma {:induction false} SegmentSources(st: State, f: Faults, g: Segment)
    requires g in AllSegments(Persisted(st, f).rows)
    ensures g in AllSegments(st.rows) || (Window(st, f) != [] && Accepted(g, Range(Window(st, f)), {}) && g.s <= g.e)
  {
    var topics := Topics(st, f);
    TopicsHaveSegments(st, f);
    if Writes(st, f) {
      var base: Rows := if Incremental(st, f) then map[] else st.rows;
      InsertSources(base, topics, f.inserts, g);
      if g !in AllSegments(base) {
        var i :| 0 <= i < |topics| && g in topics[i].segments;
        TopicsAreOk(st, f);
        TopicsNeedWindow(st, f);
        assert topics[i] in topics;
        assert SegmentOk(g, Range(Window(st, f)), Carried(st, f));
      }
    }
  }

  /** A merge stores nothing but segments it found and segments above the mark. */
  lemma {:induction false} MergeAddsOnlyAbove(st: State, f: Faults, g: Segment)
    requires Incremental(st, f) && !f.list && g in AllSegments(Persisted(st, f).rows)
    ensures g in AllSegments(st.rows) || st.mark < g.s <= g.e
  {
    SegmentSources(st, f, g);
    if g !in AllSegments(st.rows) {
      var w := Window(st, f);
      RangeIsRange(w);
      var i :| 0 <= i < |w| && w[i].seqNo == Range(w).0;
      assert w[i] in w;
    }
  }

  /** No stored segment mixes messages from both sides of the mark. */
  ghost predicate Uncrossed(st: State) {
    st.mark == 0 || forall g :: g in AllSegments(st.rows) ==> g.e <= st.mark || st.mark < g.s
  }

  /** The one way to cross the mark: everything is extracted again although a mark is set,
      and then the mark cannot be moved. */
  predicate Recrosses(st: State, f: Faults) { st.mark != 0 && (f.session || f.list) && f.mark }

  /** A mark at the end of the archive has every segment below it. */
  lemma {:induction false} MarkAtEnd(st: State, g: Segment)
    requires Inv(st) && g in AllSegments(st.rows) && st.archive != [] && st.mark == st.archive[|st.archive| - 1].seqNo
    ensures g.e <= st.mark
  {
    var k :| k in st.rows && g in st.rows[k].segments;
    assert RowOk(st.rows[k], k, st.archive) && InArchive(g, st.archive);
  }

  lemma {:induction false} MarkMovesToEnd(st: State, f: Faults)
    ensures var st' := Persisted(st, f);
            st' == st || (f.mark && st'.mark == st.mark) || (st'.mark == st.mark && st'.rows == map[])
            || (st'.archive != [] && st'.mark == st'.archive[|st'.archive| - 1].seqNo)
  {
    TopicsHaveSegments(st, f);
  }

  lemma {:induction false} PersistKeepsUncrossed(st: State, f: Faults)
    requires Inv(st) && Uncrossed(st) && !Recrosses(st, f)
    ensures Uncrossed(Persisted(st, f))
  {
    var st' := Persisted(st, f);
    PersistKeepsInv(st, f);
    MarkMovesToEnd(st, f);
    forall g | g in AllSegments(st'.rows) && st'.mark != 0 ensures g.e <= st'.mark || st'.mark < g.s {
      if st'.archive != [] && st'.mark == st'.archive[|st'.archive| - 1].seqNo {
        MarkAtEnd(st', g);
      } else if st' != st && st'.rows != map[] {
        MergeAddsOnlyAbove(st, f, g);
      }
    }
  }

  /** The topic has a segment with messages from both sides of the mark. */
  ghost predicate Straddles(t: Topic, mark: int) {
    exists g :: g in t.segments && g.s <= mark < g.e
  }

  /** The last insert into this range that goes through. */
  ghost predicate LastWriter(topics: seq<Topic>, failed: set<nat>, key: (int, int), i: nat)
    requires HaveSegments(topics)
  {
    && i < |topics| && i !in failed && Key(RowOf(topics[i])) == key
    && forall j :: i < j < |topics| && j !in failed ==> Key(RowOf(topics[j])) != key
  }

  lemma {:induction false} LastWriterStored(rows: Rows, topics: seq<Topic>, failed: set<nat>, key: (int, int), i: nat)
    requires HaveSegments(topics) && LastWriter(topics, failed, key, i)
    ensures var after := InsertAll(rows, topics, failed); key in after && after[key] == RowOf(topics[i])
  {
    var n := |topics| - 1;
    if i < n {
      var front := topics[..n];
      assert forall j :: 0 <= j < n ==> front[j] == topics[j];
      LastWriterStored(rows, front, failed, key, i);
    }
  }

  lemma {:induction false} StoredRow(rows: Rows, topics: seq<Topic>, failed: set<nat>, key: (int, int))
    requires HaveSegments(topics) && key in InsertAll(rows, topics, failed)
    ensures (exists i: nat :: LastWriter(topics, failed, key, i))
            || (key in rows && InsertAll(rows, topics, failed)[key] == rows[key])
  {
    if topics != [] {
      var n := |topics| - 1;
      if n !in failed && Key(RowOf(topics[n])) == key {
        assert LastWriter(topics, failed, key, n);
      } else {
        var front := topics[..n];
        assert forall j :: 0 <= j < n ==> front[j] == topics[j];
        StoredRow(rows, front, failed, key);
        if i: nat :| LastWriter(front, failed, key, i) { assert LastWriter(topics, failed, key, i); }
      }
    }
  }

  /** The i-th topic of a run is what its range holds afterwards. */
  ghost predicate Survives(topics: seq<Topic>, failed: set<nat>, i: nat)
    requires HaveSegments(topics) && i < |topics|
  {
    LastWriter(topics, failed, Key(RowOf(topics[i])), i)
  }

  lemma {:induction false} SurvivorCrosses(rows: Rows, topics: seq<Topic>, failed: set<nat>, i: nat, mark: int)
    returns (g: Segment)
    requires HaveSegments(topics) && i < |topics| && Survives(topics, failed, i) && Straddles(topics[i], mark)
    ensures g in AllSegments(InsertAll(rows, topics, failed)) && g.s <= mark < g.e
  {
    var key := Key(RowOf(topics[i]));
    LastWriterStored(rows, topics, failed, key, i);
    g :| g in topics[i].segments && g.s <= mark < g.e;
    assert key in InsertAll(rows, topics, failed) && g in InsertAll(rows, topics, failed)[key].segments;
  }

  lemma {:induction false} CrosserSurvives(rows: Rows, topics: seq<Topic>, failed: set<nat>, g: Segment, mark: int)
    returns (i: nat)
    requires HaveSegments(topics) && g in AllSegments(InsertAll(rows, topics, failed)) && g.s <= mark < g.e
    requires g !in AllSegments(rows)
    ensures i < |topics| && Survives(topics, failed, i) && Straddles(topics[i], mark)
  {
    var after := InsertAll(rows, topics, failed);
    var key :| key in after && g in after[key].segments;
    StoredRow(rows, topics, failed, key);
    i :| LastWriter(topics, failed, key, i);
    LastWriterStored(rows, topics, failed, key, i);
  }

  /** A run that extracts everything again although a mark is set, and cannot move the mark,
      crosses it exactly when a topic that is stored has a segment with messages from both
      sides. */
  lemma {:induction false} CrossesIff(st: State, f: Faults)
    requires Inv(st) && Uncrossed(st) && Recrosses(st, f) && Writes(st, f)
    ensures HaveSegments(Topics(st, f))
    ensures !Uncrossed(Persisted(st, f)) <==>
            exists i: nat :: i < |Topics(st, f)| && Survives(Topics(st, f), f.inserts, i) && Straddles(Topics(st, f)[i], st.mark)
  {
    TopicsHaveSegments(st, f);
    var topics := Topics(st, f);
    var base: Rows := if Incremental(st, f) then map[] else st.rows;
    if !Uncrossed(Persisted(st, f)) {
      var g :| g in AllSegments(InsertAll(base, topics, f.inserts)) && g.s <= st.mark < g.e;
      var i := CrosserSurvives(base, topics, f.inserts, g, st.mark);
    }
    if i: nat :| i < |topics| && Survives(topics, f.inserts, i) && Straddles(topics[i], st.mark) {
      var g := SurvivorCrosses(base, topics, f.inserts, i, st.mark);
      CrossedBy(Persisted(st, f), g);
    }
  }

  lemma {:induction false} CrossedBy(st: State, g: Segment)
    requires g in AllSegments(st.rows) && 0 < st.mark && g.s <= st.mark < g.e
    ensures !Uncrossed(st)
  {}

  lemma {:induction false} OneTopicKept(t: Topic, range: (int, int))
    requires TopicOk(t, range, {})
    ensures Validated([t], range, {}) == [t]
  {
    ValidationKeepsOk([t], range, {});
  }

  lemma {:induction false} NewerNotEmpty(messages: seq<Message>, last: int, m: Message)
    requires m in messages && m.seqNo > last
    ensures NewerThan(messages, last) != []
  {
    var n := |messages| - 1;
    assert messages == messages[..n] + [messages[n]];
    if messages[n] != m { NewerNotEmpty(messages[..n], last, m); }
  }

  lemma {:induction false} OneTopicRun(st: State, f: Faults, t: Topic)
    requires !f.load && |st.archive| >= 2 && Shown(st.archive[0]) && (f.session || f.list)
    requires Incremental(st, f) ==> NewerThan(st.archive, st.mark) != []
    requires f.answer == Some([t]) && TopicOk(t, Range(st.archive), {})
    ensures Topics(st, f) == [t]
  {
    OneTopicKept(t, Range(st.archive));
  }

  /** Then any topic that spans the mark crosses it: every segment of the archive passes the
      check when the whole archive is the window. */
  lemma {:induction false} RecrossingCrosses(st: State, f: Faults, t: Topic, g: Segment)
    requires Inv(st) && Uncrossed(st) && |st.archive| >= 2 && Shown(st.archive[0]) && !f.load
    requires Recrosses(st, f) && (Incremental(st, f) ==> f.delete.Works?)
    requires f.answer == Some([t]) && f.inserts == {} && TopicOk(t, Range(st.archive), {})
    requires g in t.segments && g.s <= st.mark < g.e
    ensures !Uncrossed(Persisted(st, f))
  {
    assert SegmentOk(g, Range(st.archive), {});
    RangeIsRange(st.archive);
    var m :| m in st.archive && m.seqNo == Range(st.archive).1;
    NewerNotEmpty(st.archive, st.mark, m);
    OneTopicRun(st, f, t);
    CrossesIff(st, f);
    assert Survives([t], {}, 0) && Straddles([t][0], st.mark);
  }

  // ----- which topics end up stored -----

  lemma {:induction false} StoredHasWriter(topics: seq<Topic>, failed: set<nat>, key: (int, int)) returns (i: nat)
    requires HaveSegments(topics) && key in InsertAll(map[], topics, failed)
    ensures LastWriter(topics, failed, key, i)
  {
    var n := |topics| - 1;
    if n !in failed && Key(RowOf(topics[n])) == key {
      i := n;
    } else {
      var front := topics[..n];
      assert forall j :: 0 <= j < n ==> front[j] == topics[j];
      i := StoredHasWriter(front, failed, key);
    }
  }

  ghost predicate Stored(rows: Rows, t: Topic)
    requires t.segments != []
  {
    var r := RowOf(t);
    Key(r) in rows && rows[Key(r)] == r
  }

  /** A merged topic is found in the store afterwards exactly when the last insert that goes
      through for its range writes that very row: a failed insert loses it, and so does a
      later topic with the same first and last message. */
  lemma {:induction false} TopicStoredIff(topics: seq<Topic>, failed: set<nat>, k: nat)
    requires HaveSegments(topics) && k < |topics|
    ensures Stored(InsertAll(map[], topics, failed), topics[k]) <==>
            exists i: nat :: LastWriter(topics, failed, Key(RowOf(topics[k])), i) && RowOf(topics[i]) == RowOf(topics[k])
  {
    var key := Key(RowOf(topics[k]));
    if key in InsertAll(map[], topics, failed) {
      var i := StoredHasWriter(topics, failed, key);
      LastWriterStored(map[], topics, failed, key, i);
    }
    forall i: nat | LastWriter(topics, failed, key, i)
      ensures key in InsertAll(map[], topics, failed) && InsertAll(map[], topics, failed)[key] == RowOf(topics[i])
    {
      LastWriterStored(map[], topics, failed, key, i);
    }
  }

  lemma {:induction false} AllFailed(rows: Rows, topics: seq<Topic>, failed: set<nat>)
    requires HaveSegments(topics) && forall i: nat :: i < |topics| ==> i in failed
    ensures InsertAll(rows, topics, failed) == rows
  {
    if topics != [] { AllFailed(rows, topics[..|topics| - 1], failed); }
  }

  lemma {:induction false} NoneNewer(messages: seq<Message>, last: int)
    requires forall i :: 0 <= i < |messages| ==> messages[i].seqNo <= last
    ensures NewerThan(messages, last) == []
  {
    if messages != [] { NoneNewer(messages[..|messages| - 1], last); }
  }

  lemma {:induction false} NothingNewer(archive: seq<Message>)
    requires Ascending(archive) && archive != []
    ensures NewerThan(archive, archive[|archive| - 1].seqNo) == []
  {
    NoneNewer(archive, archive[|archive| - 1].seqNo);
  }

  /** When the old rows are deleted and then every insert fails, the mark still moves: the
      session's topics are gone, and until a new message comes no run restores them. */
  lemma {:induction false} FailedInsertsLoseTopics(st: State, f: Faults, g: Faults)
    requires Inv(st) && Incremental(st, f) && Topics(st, f) != [] && f.delete.Works? && !f.mark
    requires forall i: nat :: i < |Topics(st, f)| ==> i in f.inserts
    requires !g.session
    ensures var lost := Persisted(st, f);
            lost.rows == map[] && lost.mark == st.archive[|st.archive| - 1].seqNo && Persisted(lost, g) == lost
  {
    TopicsHaveSegments(st, f);
    AllFailed(map[], Topics(st, f), f.inserts);
    NothingNewer(st.archive);
  }

  // ----- what a run stores -----

  /** The row under this range says what the topic says. */
  ghost predicate Holds(rows: Rows, key: (int, int), t: Topic) {
    && key in rows
    && rows[key].topic == t.topic && rows[key].summary == t.summary && rows[key].keywords == t.keywords
    && rows[key].importance == t.importance && rows[key].segments == t.segments
    && rows[key].seqStart == key.0 && rows[key].seqEnd == key.1 && Spans(t.segments, key.0, key.1)
  }

  /** The two lists reach from the same first to the same last message. */
  ghost predicate SameSpan(a: seq<Segment>, b: seq<Segment>) {
    exists lo, hi :: Spans(a, lo, hi) && Spans(b, lo, hi)
  }

  lemma {:induction false} KeysDiffer(a: Topic, b: Topic)
    requires a.segments != [] && b.segments != [] && !SameSpan(a.segments, b.segments)
    ensures Key(RowOf(a)) != Key(RowOf(b))
  {
    SpanOf(a.segments);
    SpanOf(b.segments);
  }

  /** A run that comes to its inserts stores every topic whose insert goes through and whose
      span no later stored topic has, and moves the mark to the last message if it can. */
  lemma {:induction false} TopicIsStored(st: State, f: Faults, i: nat)
    requires Writes(st, f) && i < |Topics(st, f)| && i !in f.inserts
    requires forall j :: i < j < |Topics(st, f)| && j !in f.inserts ==>
               !SameSpan(Topics(st, f)[j].segments, Topics(st, f)[i].segments)
    ensures exists key :: Holds(Persisted(st, f).rows, key, Topics(st, f)[i])
    ensures !f.mark ==> st.archive != [] && Persisted(st, f).mark == st.archive[|st.archive| - 1].seqNo
  {
    TopicsHaveSegments(st, f);
    var topics := Topics(st, f);
    var key := Key(RowOf(topics[i]));
    forall j | i < j < |topics| && j !in f.inserts ensures Key(RowOf(topics[j])) != key { KeysDiffer(topics[j], topics[i]); }
    assert LastWriter(topics, f.inserts, key, i);
    LastWriterStored(if Incremental(st, f) then map[] else st.rows, topics, f.inserts, key, i);
    SpanOf(topics[i].segments);
    assert Holds(Persisted(st, f).rows, key, topics[i]);
  }

  /** And a run stores nothing else: a row afterwards was there before, or is one of the topics. */
  lemma {:induction false} RowsComeFromTopics(st: State, f: Faults, key: (int, int))
    requires key in Persisted(st, f).rows
    ensures (key in st.rows && Persisted(st, f).rows[key] == st.rows[key])
            || exists i :: 0 <= i < |Topics(st, f)| && Holds(Persisted(st, f).rows, key, Topics(st, f)[i])
  {
    if Writes(st, f) {
      TopicsHaveSegments(st, f);
      var topics := Topics(st, f);
      var base: Rows := if Incremental(st, f) then map[] else st.rows;
      StoredRow(base, topics, f.inserts, key);
      if i: nat :| LastWriter(topics, f.inserts, key, i) {
        LastWriterStored(base, topics, f.inserts, key, i);
        SpanOf(topics[i].segments);
        assert Holds(Persisted(st, f).rows, key, topics[i]);
      }
    }
  }

  lemma {:induction false} OkIsKept(parsed: seq<Topic>, range: (int, int), existing: set<Segment>, t: Topic)
    requires t in parsed && TopicOk(t, range, existing)
    ensures t in Validated(parsed, range, existing)
  {
    var n := |parsed| - 1;
    if parsed[n] == t {
      SegmentsKept(t.segments, range, existing);
    } else {
      assert t in parsed[..n];
      OkIsKept(parsed[..n], range, existing, t);
    }
  }

  /** A topic of the store that the model carries over as it is gets through the validation. */
  lemma {:induction false} CarriedTopicGetsThrough(st: State, f: Faults, key: (int, int), t: Topic)
    requires Inv(st) && Incremental(st, f) && !f.load && !f.list && |st.archive| >= 2 && Window(st, f) != []
    requires !NoneShown(Window(st, f)) && f.answer.Some? && t in f.answer.value
    requires key in st.rows && t == Topic(st.rows[key].topic, st.rows[key].summary, st.rows[key].keywords,
                                          st.rows[key].importance, st.rows[key].segments)
    ensures t in Topics(st, f)
  {
    var r := st.rows[key];
    assert RowOk(r, key, st.archive);
    forall g | g in t.segments ensures SegmentOk(g, Range(Window(st, f)), Carried(st, f)) {
      assert g in AllSegments(st.rows);
    }
    OkIsKept(f.answer.value, Range(Window(st, f)), Carried(st, f), t);
  }

  /** A run leaves everything as it is when it cannot load the messages, when there are fewer
      than two, when none of those it looks at is shown to the model, and when the model or
      its answer fails. */
  lemma {:induction false} NothingToDo(st: State, f: Faults)
    requires f.load || |st.archive| < 2 || NoneShown(Window(st, f)) || f.answer.None?
    ensures Persisted(st, f) == st
  {}

  // ----- what is lost for good -----

  /** Nothing that is stored reaches down to m. */
  ghost predicate OnlyAbove(st: State, m: int) {
    0 < m <= st.mark && forall g :: g in AllSegments(st.rows) ==> m < g.s
  }

  /** Runs that can look up the session and list its rows. */
  ghost predicate Sighted(events: seq<Event>) {
    forall k :: 0 <= k < |events| && events[k].Persist? ==> !events[k].faults.session && !events[k].faults.list
  }

  lemma {:induction false} StepStaysAbove(st: State, e: Event, m: int)
    requires Inv(st) && OnlyAbove(st, m)
    requires e.Persist? ==> !e.faults.session && !e.faults.list
    ensures OnlyAbove(Step(st, e), m)
  {
    if e.Persist? {
      PersistKeepsInv(st, e.faults);
      forall g | g in AllSegments(Persisted(st, e.faults).rows) ensures m < g.s {
        MergeAddsOnlyAbove(st, e.faults, g);
      }
    }
  }

  lemma {:induction false} RunStaysAbove(st: State, events: seq<Event>, m: int)
    requires Inv(st) && OnlyAbove(st, m) && EnabledRun(st, events) && Sighted(events)
    ensures OnlyAbove(After(st, events), m)
  {
    if events != [] {
      var front := events[..|events| - 1];
      assert forall k :: 0 <= k < |front| ==> front[k] == events[k];
      RunStaysAbove(st, front, m);
      RunKeepsInv(st, front);
      StepStaysAbove(After(st, front), events[|events| - 1], m);
    }
  }

  /** The delete takes effect and reports an error: the rows are gone and the mark stays, so
      no later run, however many, ever covers a message at or below the mark again. */
  lemma {:induction false} UnsureDeleteLosesTopics(st: State, f: Faults, events: seq<Event>)
    requires Inv(st) && Incremental(st, f) && Topics(st, f) != [] && f.delete.Unsure?
    requires EnabledRun(Persisted(st, f), events) && Sighted(events)
    ensures Persisted(st, f) == st.(rows := map[])
    ensures OnlyAbove(After(Persisted(st, f), events), st.mark)
  {
    PersistKeepsInv(st, f);
    RunStaysAbove(Persisted(st, f), events, st.mark);
  }

  /** The same after failed inserts, from the mark that has moved. */
  lemma {:induction false} FailedInsertsAreForGood(st: State, f: Faults, events: seq<Event>)
    requires Inv(st) && Incremental(st, f) && Topics(st, f) != [] && f.delete.Works? && !f.mark
    requires forall i: nat :: i < |Topics(st, f)| ==> i in f.inserts
    requires EnabledRun(Persisted(st, f), events) && Sighted(events)
    ensures OnlyAbove(After(Persisted(st, f), events), st.archive[|st.archive| - 1].seqNo)
  {
    FailedInsertsLoseTopics(st, f, f);
    PersistKeepsInv(st, f);
    RunStaysAbove(Persisted(st, f), events, st.archive[|st.archive| - 1].seqNo);
  }
}
