/** From the agent's reply segments to the messages an adapter is asked to send: joining
    with the split marker, splitting into bubbles, and dispatch. */
module Outbound {
  import opened Selection
  import opened Text

  const MARKER := "<|split|>"

  lemma {:induction false} MarkerIsBorderFree()
    ensures BorderFree(MARKER)
  {
    assert |MARKER| == 9;
    forall k | 0 < k < |MARKER| ensures MARKER[k] != MARKER[0] {}
    UniqueHeadIsBorderFree(MARKER);
  }

  predicate Blank(p: string) { TrimSpace(p) == "" }

  // ----- splitting a reply into bubbles -----

  /** The parts that survive trimming, trimmed. */
  function Bubbles(parts: seq<string>): seq<string> {
    if parts == [] then []
    else if Blank(parts[0]) then Bubbles(parts[1..])
    else [TrimSpace(parts[0])] + Bubbles(parts[1..])
  }

  function SplitOutbound(text: string): seq<string> {
    Bubbles(Split(text, MARKER))
  }

  predicate NotBlank(p: string) { !Blank(p) }

  /** The parts that are not blank, in order. */
  ghost predicate AreNotBlank(picked: seq<string>, parts: seq<string>) {
    Selects(picked, parts, NotBlank)
  }

  /** Each text is trimmed. */
  ghost predicate Trims(out: seq<string>, texts: seq<string>) {
    |out| == |texts| && forall i :: 0 <= i < |out| ==> out[i] == TrimSpace(texts[i])
  }

  /** One bubble for every part that is not blank, in order: the part without outer spaces. */
  ghost predicate AreBubbles(out: seq<string>, parts: seq<string>) {
    exists picked :: AreNotBlank(picked, parts) && Trims(out, picked)
  }

  lemma {:induction false} NotBlankFront(picked: seq<string>, parts: seq<string>)
    requires parts != [] && AreNotBlank(picked, parts[1..])
    ensures AreNotBlank(if Blank(parts[0]) then picked else [parts[0]] + picked, parts)
  {
    SelectsFront(picked, parts[1..], NotBlank, parts[0]);
    assert [parts[0]] + parts[1..] == parts;
  }

  lemma {:induction false} TrimsFront(out: seq<string>, texts: seq<string>, t: string)
    requires Trims(out, texts)
    ensures Trims([TrimSpace(t)] + out, [t] + texts)
  {}

  lemma {:induction false} NotBlankOf(parts: seq<string>) returns (picked: seq<string>)
    ensures AreNotBlank(picked, parts) && Trims(Bubbles(parts), picked)
  {
    if parts == [] {
      picked := [];
      SelectsNothing(NotBlank);
    } else {
      var rest := NotBlankOf(parts[1..]);
      NotBlankFront(rest, parts);
      TrimsFront(Bubbles(parts[1..]), rest, parts[0]);
      picked := if Blank(parts[0]) then rest else [parts[0]] + rest;
    }
  }

  /** A reply becomes one bubble for every part that is not blank. */
  lemma {:induction false} BubblesAre(text: string)
    ensures AreBubbles(SplitOutbound(text), Split(text, MARKER))
  {
    var picked := NotBlankOf(Split(text, MARKER));
  }

  method SplitOutboundText(text: string) returns (out: seq<string>)
    ensures out == SplitOutbound(text)
  {
    var parts := Split(text, MARKER);
    out := [];
    for i := 0 to |parts|
      invariant out + Bubbles(parts[i..]) == Bubbles(parts)
    {
      assert parts[i..][1..] == parts[i + 1..];
      var p := TrimSpace(parts[i]);
      if p == "" {
        continue;
      }
      out := out + [p];
    }
  }

  // ----- joining segments into a reply -----

  function NonBlank(parts: seq<string>): seq<string> {
    if parts == [] then []
    else if Blank(parts[0]) then NonBlank(parts[1..])
    else [parts[0]] + NonBlank(parts[1..])
  }

  function Joined(parts: seq<string>): string {
    Join(NonBlank(parts), MARKER)
  }

  lemma {:induction false} NonBlankAre(parts: seq<string>)
    ensures AreNotBlank(NonBlank(parts), parts)
  {
    if parts == [] {
      SelectsNothing(NotBlank);
    } else {
      NonBlankAre(parts[1..]);
      NotBlankFront(NonBlank(parts[1..]), parts);
    }
  }

  method JoinReplyParts(parts: seq<string>) returns (reply: string)
    ensures reply == Joined(parts)
    ensures exists picked :: AreNotBlank(picked, parts) && reply == Join(picked, MARKER)
  {
    NonBlankAre(parts);
    var out: seq<string> := [];
    for i := 0 to |parts|
      invariant out + NonBlank(parts[i..]) == NonBlank(parts)
    {
      assert parts[i..][1..] == parts[i + 1..];
      if TrimSpace(parts[i]) != "" {
        out := out + [parts[i]];
      }
    }
    assert out == NonBlank(parts);
    if |out| == 0 {
      return "";
    }
    if |out| == 1 {
      return out[0];
    }
    return Join(out, MARKER);
  }

  // ----- splitting undoes joining -----

  lemma {:induction false} BubblesConcat(a: seq<string>, b: seq<string>)
    ensures Bubbles(a + b) == Bubbles(a) + Bubbles(b)
  {
    if a == [] {
      assert a + b == b;
    } else {
      assert (a + b)[1..] == a[1..] + b;
      BubblesConcat(a[1..], b);
    }
  }

  function SplitOutboundEach(parts: seq<string>): (r: seq<seq<string>>)
    ensures |r| == |parts|
  {
    if parts == [] then [] else [SplitOutbound(parts[0])] + SplitOutboundEach(parts[1..])
  }

  lemma {:induction false} BubblesOfFlatten(parts: seq<string>)
    ensures Bubbles(Flatten(SplitEach(parts, MARKER))) == Flatten(SplitOutboundEach(parts))
  {
    if parts != [] {
      BubblesOfFlatten(parts[1..]);
      BubblesConcat(Split(parts[0], MARKER), Flatten(SplitEach(parts[1..], MARKER)));
    }
  }

  /** A blank text holds no marker, so it yields no bubble. */
  lemma {:induction false} BlankYieldsNothing(p: string)
    requires Blank(p)
    ensures SplitOutbound(p) == []
  {
    var i, j := TrimSpaceIsSlice(p);
    assert forall k :: 0 <= k < |p| ==> IsSpace(p[k]);
    SpacesHoldNoMarker(p);
    SplitFree(p, MARKER);
    assert Split(p, MARKER) == [p];
    assert Bubbles([p]) == Bubbles([p][1..]) == Bubbles([]);
  }

  lemma {:induction false} SpacesHoldNoMarker(p: string)
    requires forall k :: 0 <= k < |p| ==> IsSpace(p[k])
    ensures !Contains(p, MARKER)
  {
    if p != "" {
      assert p[0] != MARKER[0];
      SpacesHoldNoMarker(p[1..]);
    }
  }

  lemma {:induction false} BlanksAreNeutral(parts: seq<string>)
    ensures Flatten(SplitOutboundEach(NonBlank(parts))) == Flatten(SplitOutboundEach(parts))
  {
    if parts != [] {
      BlanksAreNeutral(parts[1..]);
      if Blank(parts[0]) {
        BlankYieldsNothing(parts[0]);
      } else {
        assert NonBlank(parts)[1..] == NonBlank(parts[1..]);
      }
    }
  }

  /** Splitting a joined reply gives the bubbles of its segments, one after the other, for
      every list of segments: blank ones, ones with spaces around them, ones that hold
      markers themselves. */
  lemma {:induction false} SplitUndoesJoin(parts: seq<string>)
    ensures SplitOutbound(Joined(parts)) == Flatten(SplitOutboundEach(parts))
  {
    var kept := NonBlank(parts);
    BlanksAreNeutral(parts);
    if kept == [] {
      BlankYieldsNothing("");
    } else {
      MarkerIsBorderFree();
      SplitJoin(kept, MARKER);
      BubblesOfFlatten(kept);
    }
  }

  /** Begins and ends with something else than a space. */
  predicate Tight(s: string) {
    s != "" && !IsSpace(s[0]) && !IsSpace(s[|s| - 1])
  }

  /** No bubble ever holds the marker, is blank, or has spaces around it. */
  lemma {:induction false} BubblesAreClean(text: string)
    ensures forall b :: b in SplitOutbound(text) ==> !Contains(b, MARKER) && Tight(b)
  {
    MarkerIsBorderFree();
    SplitPartsAreFree(text, MARKER);
    BubblesOfFree(Split(text, MARKER));
  }

  lemma {:induction false} BubblesOfFree(parts: seq<string>)
    requires forall p :: p in parts ==> !Contains(p, MARKER)
    ensures forall b :: b in Bubbles(parts) ==> !Contains(b, MARKER) && Tight(b)
  {
    if parts != [] {
      BubblesOfFree(parts[1..]);
      var p := parts[0];
      assert p in parts;
      if Contains(TrimSpace(p), MARKER) { TrimSpaceAddsNothing(p, MARKER); }
      if !Blank(p) { TrimmedIsTight(p); }
    }
  }

  lemma {:induction false} TrimmedIsTight(s: string)
    requires TrimSpace(s) != ""
    ensures Tight(TrimSpace(s))
  {
    var t := TrimLeft(s);
    LeftTrimmed(s);
    RightTrimmed(t);
    var j := TrimRightIsSlice(t);
    assert TrimRight(t)[0] == t[0];
  }

  lemma {:induction false} LeftTrimmed(s: string)
    ensures TrimLeft(s) == "" || !IsSpace(TrimLeft(s)[0])
  {
    if s != "" && IsSpace(s[0]) { LeftTrimmed(s[1..]); }
  }

  lemma {:induction false} RightTrimmed(s: string)
    ensures TrimRight(s) == "" || !IsSpace(TrimRight(s)[|TrimRight(s)| - 1])
  {
    if s != "" && IsSpace(s[|s| - 1]) { RightTrimmed(s[..|s| - 1]); }
  }

  // ----- dispatch -----

  /** What rides on one bubble only. */
  datatype Extras = Extras(media: seq<string>, buttons: seq<string>, replyTo: string, editOf: string)

  const NO_EXTRAS := Extras([], [], "", "")

  datatype Outgoing = Outgoing(chatId: string, text: string, allowSplit: bool, extras: Extras)

  /** strings.ReplaceAll(text, marker, "\n"). */
  function Collapse(text: string): string {
    Join(Split(text, MARKER), "\n")
  }

  function BubbleMessages(m: Outgoing, chunks: seq<string>): (r: seq<Outgoing>)
    ensures |r| == |chunks|
  {
    seq(|chunks|, i requires 0 <= i < |chunks| =>
      m.(text := chunks[i], extras := if i < |chunks| - 1 then NO_EXTRAS else m.extras))
  }

  /** What the adapter is asked to send if nothing fails. */
  function Planned(m: Outgoing): seq<Outgoing> {
    if !Contains(m.text, MARKER) then [m]
    else if !m.allowSplit then [m.(text := Collapse(m.text))]
    else BubbleMessages(m, SplitOutbound(m.text))
  }

  /** Sends the planned messages in order up to the first one that fails; accepts(i) says
      whether the adapter takes the i-th message. */
  method DispatchOutbound(m: Outgoing, accepts: nat -> bool) returns (sent: seq<Outgoing>)
    ensures sent <= Planned(m)
    ensures forall i :: 0 <= i < |sent| - 1 ==> accepts(i)
    ensures |sent| < |Planned(m)| ==> sent != [] && !accepts(|sent| - 1)
  {
    sent := [];
    if !Contains(m.text, MARKER) {
      return [m];
    }
    if !m.allowSplit {
      return [m.(text := Collapse(m.text))];
    }
    var chunks := SplitOutboundText(m.text);
    for i := 0 to |chunks|
      invariant sent == BubbleMessages(m, chunks)[..i]
      invariant forall k :: 0 <= k < i ==> accepts(k)
    {
      var out := m.(text := chunks[i]);
      if i < |chunks| - 1 {
        out := out.(extras := NO_EXTRAS);
      }
      sent := sent + [out];
      if !accepts(i) {
        return;
      }
    }
  }

  /** A marker that spans a join would hold the joining character. */
  lemma {:induction false} JoinedFree(a: string, c: char, b: string)
    requires c !in MARKER && Contains(a + [c] + b, MARKER)
    ensures Contains(a, MARKER) || Contains(b, MARKER)
  {
    var s := a + [c] + b;
    NotAcross(MARKER, a, c, b);
    if a == "" {
      assert s[1..] == b;
    } else {
      assert s[1..] == a[1..] + [c] + b;
      if !(MARKER <= a) { JoinedFree(a[1..], c, b); }
    }
  }

  lemma {:induction false} NotAcross(sub: string, a: string, c: char, b: string)
    requires c !in sub && sub != ""
    ensures sub <= a + [c] + b ==> sub <= a
  {
    var s := a + [c] + b;
    if sub <= s {
      assert forall k :: 0 <= k < |sub| ==> s[k] == sub[k];
      assert s[|a|] == c;
      assert |sub| <= |a|;
      assert sub == s[..|sub|] == a[..|sub|];
    }
  }

  lemma {:induction false} CollapsedFree(parts: seq<string>)
    requires forall p :: p in parts ==> !Contains(p, MARKER)
    ensures !Contains(Join(parts, "\n"), MARKER)
  {
    if |parts| > 1 {
      CollapsedFree(parts[1..]);
      assert parts[0] in parts;
      if Contains(Join(parts, "\n"), MARKER) {
        JoinedFree(parts[0], '\n', Join(parts[1..], "\n"));
      }
    } else if |parts| == 1 {
      assert parts[0] in parts;
    }
  }

  /** Collapsing puts a newline for each marker: between texts without markers, wherever they
      are joined. */
  lemma {:induction false} CollapseReplaces(parts: seq<string>)
    requires parts != [] && FreeOf(parts, MARKER)
    ensures Collapse(Join(parts, MARKER)) == Join(parts, "\n")
  {
    MarkerIsBorderFree();
    SplitOfJoined(parts, MARKER);
  }

  /** What is planned goes to the chat of the message: the text as it is when it holds no
      marker, all of it in one message when it may not be split, and else its bubbles. */
  lemma {:induction false} PlannedTexts(m: Outgoing)
    ensures forall i :: 0 <= i < |Planned(m)| ==> Planned(m)[i].chatId == m.chatId
    ensures !Contains(m.text, MARKER) ==> Planned(m) == [m]
    ensures Contains(m.text, MARKER) && !m.allowSplit ==> |Planned(m)| == 1 && Planned(m)[0].text == Collapse(m.text)
    ensures Contains(m.text, MARKER) && m.allowSplit ==> AreBubbles(Texts(Planned(m)), Split(m.text, MARKER))
  {
    if Contains(m.text, MARKER) && m.allowSplit {
      BubblesAre(m.text);
      assert Texts(Planned(m)) == SplitOutbound(m.text);
    }
  }

  function Texts(ms: seq<Outgoing>): (r: seq<string>)
    ensures |r| == |ms| && forall i :: 0 <= i < |r| ==> r[i] == ms[i].text
  {
    seq(|ms|, i requires 0 <= i < |ms| => ms[i].text)
  }

  /** No message handed to an adapter ever holds the marker, whatever the text and flags. */
  lemma {:induction false} NoMarkerReachesAdapter(m: Outgoing)
    ensures forall o :: o in Planned(m) ==> !Contains(o.text, MARKER)
  {
    if Contains(m.text, MARKER) {
      if !m.allowSplit {
        MarkerIsBorderFree();
        SplitPartsAreFree(m.text, MARKER);
        CollapsedFree(Split(m.text, MARKER));
      } else {
        BubblesAreClean(m.text);
        var chunks := SplitOutbound(m.text);
        forall o | o in Planned(m) ensures !Contains(o.text, MARKER) {
          var i :| 0 <= i < |chunks| && Planned(m)[i] == o;
          assert chunks[i] in chunks;
        }
      }
    }
  }

  /** Media, buttons and the reply reference ride on exactly one planned message, the
      last; they are lost exactly when a marked text has no bubble at all. */
  lemma {:induction false} ExtrasRideOnce(m: Outgoing)
    requires m.extras != NO_EXTRAS
    ensures forall i :: 0 <= i < |Planned(m)| ==> (Planned(m)[i].extras == m.extras <==> i == |Planned(m)| - 1)
    ensures Planned(m) == [] <==> Contains(m.text, MARKER) && m.allowSplit && SplitOutbound(m.text) == []
  {}
}
