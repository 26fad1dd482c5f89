/** Message size limits and escaping of the Telegram and Discord adapters. Lengths count
    bytes, so a character of a text stands for one byte here. */
module Chunking {
  import opened Text

  // ----- strings.LastIndex -----

  predicate IsAt(s: string, sub: string, i: int) {
    0 <= i && i + |sub| <= |s| && s[i..i + |sub|] == sub
  }

  function LastIndexUpTo(s: string, sub: string, top: int): (i: int)
    ensures i == -1 || (0 <= i <= top && IsAt(s, sub, i))
    decreases top + 1
  {
    if top < 0 then -1 else if IsAt(s, sub, top) then top else LastIndexUpTo(s, sub, top - 1)
  }

  function LastIndex(s: string, sub: string): (i: int)
    ensures i == -1 || IsAt(s, sub, i)
  {
    LastIndexUpTo(s, sub, |s|)
  }

  lemma {:induction false} LastIndexUpToIsLatest(s: string, sub: string, top: int, j: int)
    requires IsAt(s, sub, j) && j <= top
    ensures j <= LastIndexUpTo(s, sub, top)
    decreases top + 1
  {
    if !IsAt(s, sub, top) { LastIndexUpToIsLatest(s, sub, top - 1, j); }
  }

  lemma {:induction false} LastIndexIsLatest(s: string, sub: string)
    ensures forall j :: IsAt(s, sub, j) ==> j <= LastIndex(s, sub)
  {
    forall j | IsAt(s, sub, j) ensures j <= LastIndex(s, sub) {
      LastIndexUpToIsLatest(s, sub, |s|, j);
    }
  }

  // ----- Telegram -----

  const TELEGRAM_MAX: nat := 4096

  /** Where the first chunk of an oversized text ends. */
  function TelegramCut(text: string): (n: nat)
    requires |text| > TELEGRAM_MAX
    ensures 0 < n <= TELEGRAM_MAX
  {
    var head := text[..TELEGRAM_MAX];
    var p, l := LastIndex(head, "\n\n"), LastIndex(head, "\n");
    if p > 0 then p + 2 else if l > 0 then l + 1 else TELEGRAM_MAX
  }

  function TelegramChunks(text: string): seq<string>
    decreases |text|
  {
    if text == "" then []
    else if |text| <= TELEGRAM_MAX then [text]
    else [text[..TelegramCut(text)]] + TelegramChunks(text[TelegramCut(text)..])
  }

  method FindTelegramCut(text: string) returns (cutAt: nat)
    requires |text| > TELEGRAM_MAX
    ensures cutAt == TelegramCut(text)
  {
    cutAt := TELEGRAM_MAX;
    var idx := LastIndex(text[..TELEGRAM_MAX], "\n\n");
    if idx > 0 {
      cutAt := idx + 2;
    } else {
      idx := LastIndex(text[..TELEGRAM_MAX], "\n");
      if idx > 0 {
        cutAt := idx + 1;
      }
    }
  }

  lemma {:induction false} Regroup<T>(a: seq<T>, b: seq<T>, c: seq<T>)
    ensures a + (b + c) == a + b + c
  {}

  lemma {:induction false} TelegramStep(chunks: seq<string>, text: string, n: nat)
    requires |text| > TELEGRAM_MAX && n == TelegramCut(text)
    ensures chunks + TelegramChunks(text) == chunks + [text[..n]] + TelegramChunks(text[n..])
  {
    Regroup(chunks, [text[..n]], TelegramChunks(text[n..]));
  }

  method SplitTelegramMessage(message: string) returns (chunks: seq<string>)
    ensures chunks == if message == "" then [""] else TelegramChunks(message)
    ensures |message| <= TELEGRAM_MAX ==> chunks == [message]
  {
    var text := message;
    if |text| <= TELEGRAM_MAX {
      return [text];
    }
    chunks := [];
    while |text| > 0
      invariant chunks + TelegramChunks(text) == TelegramChunks(message)
      decreases |text|
    {
      if |text| <= TELEGRAM_MAX {
        chunks := chunks + [text];
        break;
      }
      var cutAt := FindTelegramCut(text);
      TelegramStep(chunks, text, cutAt);
      chunks := chunks + [text[..cutAt]];
      text := text[cutAt..];
    }
  }

  /** The cut falls behind the last paragraph break that leaves something in front of it;
      without one behind the last such line break; without one at the limit. */
  lemma {:induction false} TelegramCutIsLatestBreak(text: string, j: int)
    requires |text| > TELEGRAM_MAX && 0 < j
    ensures var head, n := text[..TELEGRAM_MAX], TelegramCut(text);
            && (IsAt(head, "\n\n", j) ==> j + 2 <= n && IsAt(head, "\n\n", n - 2))
            && (IsAt(head, "\n", j) && (forall k :: 0 < k ==> !IsAt(head, "\n\n", k)) ==> j + 1 <= n && IsAt(head, "\n", n - 1))
            && ((forall k :: 0 < k ==> !IsAt(head, "\n", k) && !IsAt(head, "\n\n", k)) ==> n == TELEGRAM_MAX)
  {
    LastIndexIsLatest(text[..TELEGRAM_MAX], "\n\n");
    LastIndexIsLatest(text[..TELEGRAM_MAX], "\n");
  }

  /** The chunks are non-empty, fit the limit, and put together are the message. */
  lemma {:induction false} TelegramLosesNothing(text: string)
    ensures Flatten(TelegramChunks(text)) == text
    ensures forall c :: c in TelegramChunks(text) ==> 0 < |c| <= TELEGRAM_MAX
  {
    TelegramConcatenates(text);
    TelegramFits(text);
  }

  /** Only a text that does not fit is cut, and each chunk but the last ends at the cut of what
      is left at that point. */
  lemma {:induction false} TelegramCutsEach(text: string, k: nat)
    requires k < |TelegramChunks(text)|
    ensures var chunks := TelegramChunks(text);
            var left := Flatten(chunks[k..]);
            if |left| <= TELEGRAM_MAX then k == |chunks| - 1 && chunks[k] == left
            else k < |chunks| - 1 && chunks[k] == left[..TelegramCut(left)]
    decreases |text|
  {
    TelegramConcatenates(text);
    if k == 0 {
      assert TelegramChunks(text)[0..] == TelegramChunks(text);
      if |text| > TELEGRAM_MAX { assert text[TelegramCut(text)..] != ""; }
    } else {
      var n := TelegramCut(text);
      TelegramCutsEach(text[n..], k - 1);
      assert TelegramChunks(text)[k..] == TelegramChunks(text[n..])[k - 1..];
    }
  }

  lemma {:induction false} TelegramConcatenates(text: string)
    ensures Flatten(TelegramChunks(text)) == text
    decreases |text|
  {
    if 0 < |text| <= TELEGRAM_MAX {
      FlattenFirst(text, []);
    } else if text != "" {
      var n := TelegramCut(text);
      TelegramConcatenates(text[n..]);
      FlattenFirst(text[..n], TelegramChunks(text[n..]));
      assert text[..n] + text[n..] == text;
    }
  }

  lemma {:induction false} TelegramFits(text: string)
    ensures forall c :: c in TelegramChunks(text) ==> 0 < |c| <= TELEGRAM_MAX
    decreases |text|
  {
    if |text| > TELEGRAM_MAX { TelegramFits(text[TelegramCut(text)..]); }
  }

  lemma {:induction false} FlattenFirst(chunk: string, chunks: seq<string>)
    ensures Flatten([chunk] + chunks) == chunk + Flatten(chunks)
  {
    assert ([chunk] + chunks)[1..] == chunks;
  }

  // ----- Discord -----

  const DISCORD_MAX: nat := 2000
  const DISCORD_MIN: nat := 1000

  function DiscordCut(text: string): (n: nat)
    requires |text| > DISCORD_MAX
    ensures DISCORD_MIN <= n <= DISCORD_MAX
  {
    var head := text[..DISCORD_MAX];
    var p, l := LastIndex(head, "\n\n"), LastIndex(head, "\n");
    if p >= DISCORD_MIN then p else if l >= DISCORD_MIN then l else DISCORD_MAX
  }

  /** strings.TrimLeft(s, "\n"). */
  function DropNewlines(s: string): (r: string)
    ensures |r| <= |s|
  {
    if s != "" && s[0] == '\n' then DropNewlines(s[1..]) else s
  }

  function DiscordChunks(text: string): seq<string>
    decreases |text|
  {
    if text == "" then []
    else if |text| <= DISCORD_MAX then [text]
    else [text[..DiscordCut(text)]] + DiscordChunks(DropNewlines(text[DiscordCut(text)..]))
  }

  lemma {:induction false} DiscordStep(out: seq<string>, text: string, n: nat)
    requires |text| > DISCORD_MAX && n == DiscordCut(text)
    ensures out + DiscordChunks(text) == out + [text[..n]] + DiscordChunks(DropNewlines(text[n..]))
  {
    Regroup(out, [text[..n]], DiscordChunks(DropNewlines(text[n..])));
  }

  method SplitDiscordMessage(message: string) returns (out: seq<string>)
    ensures out == if message == "" then [""] else DiscordChunks(message)
    ensures |message| <= DISCORD_MAX ==> out == [message]
  {
    var text := message;
    if |text| <= DISCORD_MAX {
      return [text];
    }
    out := [];
    while |text| > 0
      invariant out + DiscordChunks(text) == DiscordChunks(message)
      decreases |text|
    {
      if |text| <= DISCORD_MAX {
        out := out + [text];
        break;
      }
      var cut := FindDiscordCut(text);
      DiscordStep(out, text, cut);
      out := out + [text[..cut]];
      text := DropNewlines(text[cut..]);
    }
  }

  /** Prefers a paragraph break, so that sentences stay together. */
  method FindDiscordCut(text: string) returns (cut: nat)
    requires |text| > DISCORD_MAX
    ensures cut == DiscordCut(text)
  {
    var at := LastIndex(text[..DISCORD_MAX], "\n\n");
    if at < DISCORD_MIN {
      at := LastIndex(text[..DISCORD_MAX], "\n");
    }
    if at < DISCORD_MIN {
      at := DISCORD_MAX;
    }
    cut := at;
  }

  /** The chunks in order, each with a gap behind it. */
  function Weave(chunks: seq<string>, gaps: seq<string>): string
    requires |gaps| == |chunks|
  {
    if chunks == [] then "" else chunks[0] + gaps[0] + Weave(chunks[1..], gaps[1..])
  }

  ghost predicate Newlines(s: string) {
    forall i :: 0 <= i < |s| ==> s[i] == '\n'
  }

  lemma {:induction false} DroppedAreNewlines(s: string) returns (run: string)
    ensures Newlines(run) && s == run + DropNewlines(s)
  {
    run := "";
    if s != "" && s[0] == '\n' {
      run := DroppedAreNewlines(s[1..]);
      run := "\n" + run;
    }
  }

  /** The cut falls on the last paragraph break in the second half of the limit, without
      one on the last line break there, and without one at the limit. */
  lemma {:induction false} DiscordCutIsLatestBreak(text: string, j: int)
    requires |text| > DISCORD_MAX && DISCORD_MIN <= j
    ensures var head, n := text[..DISCORD_MAX], DiscordCut(text);
            && (IsAt(head, "\n\n", j) ==> j <= n && IsAt(head, "\n\n", n))
            && (IsAt(head, "\n", j) && (forall k :: DISCORD_MIN <= k ==> !IsAt(head, "\n\n", k)) ==> j <= n && IsAt(head, "\n", n))
            && ((forall k :: DISCORD_MIN <= k ==> !IsAt(head, "\n", k) && !IsAt(head, "\n\n", k)) ==> n == DISCORD_MAX)
  {
    LastIndexIsLatest(text[..DISCORD_MAX], "\n\n");
    LastIndexIsLatest(text[..DISCORD_MAX], "\n");
  }

  /** The message is the chunks with only newlines between them: nothing else is lost. */
  lemma {:induction false} DiscordLosesOnlyNewlines(text: string) returns (gaps: seq<string>)
    ensures |gaps| == |DiscordChunks(text)| && text == Weave(DiscordChunks(text), gaps)
    ensures forall i :: 0 <= i < |gaps| ==> Newlines(gaps[i])
    decreases |text|
  {
    gaps := [];
    if 0 < |text| <= DISCORD_MAX {
      gaps := [""];
      assert Weave([text][1..], gaps[1..]) == "";
    } else if text != "" {
      var run := DroppedAreNewlines(text[DiscordCut(text)..]);
      gaps := DiscordLosesOnlyNewlines(DropNewlines(text[DiscordCut(text)..]));
      OneMoreChunk(text, DiscordCut(text), DropNewlines(text[DiscordCut(text)..]), run, gaps);
      gaps := [run] + gaps;
    }
  }

  lemma {:induction false} OneMoreChunk(text: string, n: nat, rest: string, run: string, gaps: seq<string>)
    requires n <= |text| && text[n..] == run + rest
    requires |gaps| == |DiscordChunks(rest)| && rest == Weave(DiscordChunks(rest), gaps)
    ensures text == Weave([text[..n]] + DiscordChunks(rest), [run] + gaps)
  {
    WeaveOneMore(text[..n], run, DiscordChunks(rest), gaps);
    CutInThree(text, n, run, rest);
  }

  lemma {:induction false} CutInThree(text: string, n: nat, run: string, rest: string)
    requires n <= |text| && text[n..] == run + rest
    ensures text == text[..n] + run + rest
  {
    assert text == text[..n] + (run + rest);
  }

  /** The chunks are non-empty and fit the limit. */
  lemma {:induction false} DiscordChunksFit(text: string)
    ensures forall c :: c in DiscordChunks(text) ==> 0 < |c| <= DISCORD_MAX
    decreases |text|
  {
    if |text| > DISCORD_MAX { DiscordChunksFit(DropNewlines(text[DiscordCut(text)..])); }
  }

  lemma {:induction false} DroppedBegins(s: string)
    ensures DropNewlines(s) == "" || DropNewlines(s)[0] != '\n'
  {
    if s != "" && s[0] == '\n' { DroppedBegins(s[1..]); }
  }

  /** No chunk but perhaps the first begins with a newline, and each but the last ends at a
      break of the second half of the limit, or at the limit. */
  lemma {:induction false} DiscordCutsEach(text: string, k: nat)
    requires k < |DiscordChunks(text)|
    ensures var chunks := DiscordChunks(text);
            && (k > 0 ==> chunks[k] != "" && chunks[k][0] != '\n')
            && (k < |chunks| - 1 ==> DISCORD_MIN <= |chunks[k]| <= DISCORD_MAX)
    decreases |text|
  {
    DiscordChunksFit(text);
    if |text| > DISCORD_MAX && k > 0 {
      var rest := DropNewlines(text[DiscordCut(text)..]);
      DroppedBegins(text[DiscordCut(text)..]);
      DiscordCutsEach(rest, k - 1);
      assert DiscordChunks(text)[k] == DiscordChunks(rest)[k - 1];
      DiscordFirst(rest);
    }
  }

  /** The first chunk is the text itself when it fits, and else ends at its cut. */
  lemma {:induction false} DiscordFirst(text: string)
    ensures text == "" ==> DiscordChunks(text) == []
    ensures 0 < |text| <= DISCORD_MAX ==> DiscordChunks(text) == [text]
    ensures |text| > DISCORD_MAX ==> DiscordChunks(text) != [] && DiscordChunks(text)[0] == text[..DiscordCut(text)]
  {}

  lemma {:induction false} WeaveOneMore(chunk: string, gap: string, chunks: seq<string>, gaps: seq<string>)
    requires |gaps| == |chunks|
    ensures Weave([chunk] + chunks, [gap] + gaps) == chunk + gap + Weave(chunks, gaps)
  {
    assert ([chunk] + chunks)[1..] == chunks && ([gap] + gaps)[1..] == gaps;
  }

  // ----- MarkdownV2 escaping -----

  const SPECIALS := "_*[]()~`>#+-=|{}.!"

  /** strings.ReplaceAll(text, c, "\\" + c) for one character c. */
  function EscapeChar(text: string, c: char): string {
    if text == "" then ""
    else (if text[0] == c then ['\\', c] else [text[0]]) + EscapeChar(text[1..], c)
  }

  /** One pass per special character, in the order of the list. */
  function EscapePasses(text: string, specials: string): string {
    if specials == "" then text else EscapeChar(EscapePasses(text, specials[..|specials| - 1]), specials[|specials| - 1])
  }

  method EscapeMarkdownV2(text: string) returns (escaped: string)
    ensures escaped == EscapePasses(text, SPECIALS)
  {
    escaped := text;
    for i := 0 to |SPECIALS|
      invariant escaped == EscapePasses(text, SPECIALS[..i])
    {
      assert SPECIALS[..i + 1][..i] == SPECIALS[..i];
      escaped := EscapeChar(escaped, SPECIALS[i]);
    }
    assert SPECIALS[..|SPECIALS|] == SPECIALS;
  }

  /** The escape in a single pass. */
  function Escape(text: string, specials: string): string {
    if text == "" then ""
    else (if text[0] in specials then ['\\', text[0]] else [text[0]]) + Escape(text[1..], specials)
  }

  /** Deletes the backslash in front of each special character. */
  function Unescape(text: string, specials: string): string {
    if |text| >= 2 && text[0] == '\\' && text[1] in specials then [text[1]] + Unescape(text[2..], specials)
    else if text == "" then ""
    else [text[0]] + Unescape(text[1..], specials)
  }

  lemma {:induction false} OneMorePass(text: string, specials: string, c: char)
    requires c !in specials && c != '\\'
    ensures EscapeChar(Escape(text, specials), c) == Escape(text, specials + [c])
  {
    if text != "" {
      OneMorePass(text[1..], specials, c);
      var x, rest := text[0], Escape(text[1..], specials);
      if x in specials {
        EscapeCharStep('\\', [x] + rest, c);
        EscapeCharStep(x, rest, c);
        assert ['\\', x] + rest == ['\\'] + ([x] + rest);
      } else {
        EscapeCharStep(x, rest, c);
      }
    }
  }

  lemma {:induction false} EscapeCharStep(x: char, rest: string, c: char)
    ensures EscapeChar([x] + rest, c) == (if x == c then ['\\', c] else [x]) + EscapeChar(rest, c)
  {
    assert ([x] + rest)[1..] == rest;
  }

  ghost predicate DistinctSpecials(specials: string) {
    '\\' !in specials && forall i, j :: 0 <= i < j < |specials| ==> specials[i] != specials[j]
  }

  lemma {:induction false} PassesAreOnePass(text: string, specials: string)
    requires DistinctSpecials(specials)
    ensures EscapePasses(text, specials) == Escape(text, specials)
  {
    if specials == "" {
      NothingToEscape(text);
    } else {
      var n := |specials| - 1;
      PassesAreOnePass(text, specials[..n]);
      OneMorePass(text, specials[..n], specials[n]);
      assert specials[..n] + [specials[n]] == specials;
    }
  }

  lemma {:induction false} NothingToEscape(text: string)
    ensures Escape(text, "") == text
  {
    if text != "" { NothingToEscape(text[1..]); }
  }

  lemma {:induction false} SpecialsAreDistinct()
    ensures DistinctSpecials(SPECIALS)
  {
    assert |SPECIALS| == 18;
  }

  /** The eighteen passes never escape one another's backslashes: together they are one
      per-character escape. */
  lemma {:induction false} EighteenPassesAreOne(text: string)
    ensures EscapePasses(text, SPECIALS) == Escape(text, SPECIALS)
  {
    SpecialsAreDistinct();
    PassesAreOnePass(text, SPECIALS);
  }

  lemma {:induction false} UnescapeEscape(text: string, specials: string)
    requires '\\' !in specials
    ensures Unescape(Escape(text, specials), specials) == text
  {
    if text != "" {
      UnescapeEscape(text[1..], specials);
      var x, rest := text[0], Escape(text[1..], specials);
      if x in specials {
        assert (['\\', x] + rest)[2..] == rest;
      } else {
        assert ([x] + rest)[1..] == rest;
        if rest != "" { EscapedHead(text[1..], specials); }
      }
    }
  }

  /** An escaped text never begins with a bare special character. */
  lemma {:induction false} EscapedHead(text: string, specials: string)
    requires '\\' !in specials && text != ""
    ensures Escape(text, specials) != "" && Escape(text, specials)[0] !in specials
  {}

  /** Nothing is lost by escaping, not even in texts that hold backslashes of their own. */
  lemma {:induction false} EscapingIsInvertible(text: string)
    ensures Unescape(EscapePasses(text, SPECIALS), SPECIALS) == text
  {
    EighteenPassesAreOne(text);
    SpecialsAreDistinct();
    UnescapeEscape(text, SPECIALS);
  }
}
