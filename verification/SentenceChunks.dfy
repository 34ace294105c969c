/** Streaming speech, part one: cutting a growing reply into speakable chunks
    (aipc_voice_stream.py, feed_sentence_chunks). */
module SentenceChunks {
  import opened Text

  /** Full stop, exclamation and question marks, ideographic and ASCII. */
  predicate StrongEnd(c: char) {
    c in {'\U{3002}', '\U{FF01}', '\U{FF1F}', '.', '!', '?'}
  }

  /** Commas, semicolons, the enumeration comma and the newline. */
  predicate WeakEnd(c: char) {
    c in {'\U{FF0C}', ',', '\U{FF1B}', ';', '\U{3001}', '\n'}
  }

  function Max(a: int, b: int): int { if a < b then b else a }

  /** A boundary regex: strong sentence ends or weak pauses. */
  predicate IsEnd(strong: bool, c: char) {
    if strong then StrongEnd(c) else WeakEnd(c)
  }

  predicate EndsAt(window: string, minChars: int, strong: bool, e: int) {
    0 < e <= |window| && minChars <= e && IsEnd(strong, window[e - 1])
  }

  /** The last boundary at or after `minChars`, or -1. */
  function LastEnd(window: string, minChars: int, strong: bool): (cut: int)
    ensures -1 <= cut <= |window| && cut != 0
  {
    if window == "" then -1
    else if EndsAt(window, minChars, strong, |window|) then |window|
    else LastEnd(window[..|window| - 1], minChars, strong)
  }

  /** It is a boundary, and no later position of the window is one. */
  lemma {:induction false} LastEndIsLast(window: string, minChars: int, strong: bool)
    ensures var cut := LastEnd(window, minChars, strong);
            && (cut == -1 || EndsAt(window, minChars, strong, cut))
            && forall e :: EndsAt(window, minChars, strong, e) ==> e <= cut
  {
    if window != "" && !EndsAt(window, minChars, strong, |window|) {
      var shorter := window[..|window| - 1];
      LastEndIsLast(shorter, minChars, strong);
      forall e | EndsAt(window, minChars, strong, e) ensures EndsAt(shorter, minChars, strong, e) {
      }
    }
  }

  /** The part of the buffer that boundaries are searched in. */
  function Window(buf: string, minChars: int, maxChars: int): string
    requires maxChars >= 1
  {
    buf[..if Max(maxChars, minChars) < |buf| then Max(maxChars, minChars) else |buf|]
  }

  /** Where one round of the loop cuts a non-empty buffer; -1 means it stops. */
  function CutPoint(buf: string, minChars: int, maxChars: int, flush: bool): (cut: int)
    requires buf != "" && maxChars >= 1
    ensures cut == -1 || 1 <= cut <= |buf|
    ensures cut <= Max(maxChars, minChars)
    ensures cut == -1 ==> if flush then Blank(buf) else |buf| < Max(maxChars, minChars)
  {
    if |buf| < minChars && !flush then -1
    else
      var window := Window(buf, minChars, maxChars);
      var strong := LastEnd(window, minChars, true);
      if strong >= 0 then strong
      else
        var weak := LastEnd(window, minChars, false);
        if weak >= 0 then weak
        else if |buf| >= maxChars then maxChars
        else if flush && !Blank(buf) then |buf|
        else -1
  }

  /** A position after one of these characters, late enough, in the part of the buffer that is
      searched. */
  ghost predicate CutAfter(buf: string, minChars: int, maxChars: int, ends: set<char>, e: int) {
    0 < e <= |buf| && minChars <= e && (e <= maxChars || e <= minChars) && buf[e - 1] in ends
  }

  /** ... and no later one is. */
  ghost predicate LastCutAfter(buf: string, minChars: int, maxChars: int, ends: set<char>, cut: int) {
    && CutAfter(buf, minChars, maxChars, ends, cut)
    && forall e :: CutAfter(buf, minChars, maxChars, ends, e) ==> e <= cut
  }

  /** Sentence ends: full stop, exclamation and question marks, ideographic and ASCII. */
  const SENTENCE_ENDS: set<char> := {'\U{3002}', '\U{FF01}', '\U{FF1F}', '.', '!', '?'}

  /** Pauses: commas, semicolons, the enumeration comma and the newline. */
  const PAUSES: set<char> := {'\U{FF0C}', ',', '\U{FF1B}', ';', '\U{3001}', '\n'}

  lemma EndsAreCuts(buf: string, minChars: int, maxChars: int, strong: bool, e: int)
    requires buf != "" && maxChars >= 1
    ensures EndsAt(Window(buf, minChars, maxChars), minChars, strong, e) <==>
              CutAfter(buf, minChars, maxChars, if strong then SENTENCE_ENDS else PAUSES, e)
  {
  }

  /** The order of preference: sentence end, then pause, then hard cut, then (only when flushing)
      everything. */
  lemma CutPreference(buf: string, minChars: int, maxChars: int, flush: bool)
    requires buf != "" && maxChars >= 1 && (|buf| >= minChars || flush)
    ensures var cut := CutPoint(buf, minChars, maxChars, flush);
            if exists e :: CutAfter(buf, minChars, maxChars, SENTENCE_ENDS, e) then
              LastCutAfter(buf, minChars, maxChars, SENTENCE_ENDS, cut)
            else if exists e :: CutAfter(buf, minChars, maxChars, PAUSES, e) then
              LastCutAfter(buf, minChars, maxChars, PAUSES, cut)
            else if |buf| >= maxChars then cut == maxChars
            else if flush && exists c <- buf :: !IsSpace(c) then cut == |buf|
            else cut == -1
  {
    hide IsEnd;
    hide CutAfter;
    var window := Window(buf, minChars, maxChars);
    LastEndIsLast(window, minChars, true);
    LastEndIsLast(window, minChars, false);
    forall e
      ensures EndsAt(window, minChars, true, e) <==> CutAfter(buf, minChars, maxChars, SENTENCE_ENDS, e)
      ensures EndsAt(window, minChars, false, e) <==> CutAfter(buf, minChars, maxChars, PAUSES, e)
      ensures CutAfter(buf, minChars, maxChars, SENTENCE_ENDS, e) ==> e > 0
      ensures CutAfter(buf, minChars, maxChars, PAUSES, e) ==> e > 0
    {
      EndsAreCuts(buf, minChars, maxChars, true, e);
      EndsAreCuts(buf, minChars, maxChars, false, e);
    }
    hide EndsAt;
    hide Window;
    assert Blank(buf) <==> forall c <- buf :: IsSpace(c);
  }

  datatype Fed = Fed(chunks: seq<string>, rest: string)

  /** One call: the chunks it emits and the remainder it hands back. */
  function Feed(buf: string, minChars: int, maxChars: int, flush: bool): Fed
    requires maxChars >= 1
    decreases |buf|, 1
  {
    if buf == "" then Fed([], "")
    else
      var cut := CutPoint(buf, minChars, maxChars, flush);
      if cut == -1 then Fed([], buf)
      else
        var piece := Strip(buf[..cut]);
        var after := AfterCut(LStrip(buf[cut..]), minChars, maxChars, flush);
        Fed((if piece == "" then [] else [piece]) + after.chunks, after.rest)
  }

  /** What follows one cut: stop on a short unflushed tail, else another round. */
  function AfterCut(tail: string, minChars: int, maxChars: int, flush: bool): Fed
    requires maxChars >= 1
    decreases |tail|, 2
  {
    if !flush && |tail| < minChars then Fed([], tail) else Feed(tail, minChars, maxChars, flush)
  }

  /** `regex.finditer` over the window, keeping the last match that ends late enough. */
  method ScanBoundaries(window: string, minChars: int, strong: bool) returns (cut: int)
    ensures cut == LastEnd(window, minChars, strong)
  {
    cut := -1;
    for i := 0 to |window|
      invariant cut == LastEnd(window[..i], minChars, strong)
    {
      assert window[..i + 1][..i] == window[..i];
      if IsEnd(strong, window[i]) && i + 1 >= minChars {
        cut := i + 1;
      }
    }
    assert window[..|window|] == window;
  }

  /** Lines 66 to 82: the strong boundary, else the weak one, else the hard cut. */
  method ChooseCut(buf: string, minChars: int, maxChars: int, flush: bool) returns (cut: int)
    requires buf != "" && maxChars >= 1 && (|buf| >= minChars || flush)
    ensures cut == CutPoint(buf, minChars, maxChars, flush)
  {
    ghost var _, _ := StripSplits(buf);
    var width := Max(maxChars, minChars);
    var window := if width < |buf| then buf[..width] else buf;
    assert window == Window(buf, minChars, maxChars);
    cut := ScanBoundaries(window, minChars, true);
    if cut < 0 {
      cut := ScanBoundaries(window, minChars, false);
    }
    if cut < 0 {
      if |buf| >= maxChars {
        cut := maxChars;
      } else if flush && Strip(buf) != "" {
        cut := |buf|;
      }
    }
  }

  /** Chunks already emitted, then those still to come. */
  ghost function Prefixed(ready: seq<string>, todo: Fed): Fed {
    Fed(ready + todo.chunks, todo.rest)
  }

  lemma NothingToFeed(minChars: int, maxChars: int, flush: bool)
    requires maxChars >= 1
    ensures Feed("", minChars, maxChars, flush) == Fed([], "")
  {
  }

  /** What one round of the loop does to the chunks and the buffer. */
  lemma RoundOf(ready: seq<string>, buf: string, minChars: int, maxChars: int, flush: bool)
    requires buf != "" && maxChars >= 1
    ensures var cut := CutPoint(buf, minChars, maxChars, flush);
            if cut == -1 then Feed(buf, minChars, maxChars, flush) == Fed([], buf)
            else
              var piece := Strip(buf[..cut]);
              var tail := LStrip(buf[cut..]);
              var more := if piece == "" then ready else ready + [piece];
              var after := AfterCut(tail, minChars, maxChars, flush);
              Prefixed(ready, Feed(buf, minChars, maxChars, flush)) == Prefixed(more, after)
    ensures |buf| < minChars && !flush ==> CutPoint(buf, minChars, maxChars, flush) == -1
  {
    hide LStrip;
    hide Strip;
    hide LastEnd;
    var cut := CutPoint(buf, minChars, maxChars, flush);
    if cut != -1 {
      var piece := Strip(buf[..cut]);
      var after := AfterCut(LStrip(buf[cut..]), minChars, maxChars, flush);
      var more := if piece == "" then ready else ready + [piece];
      assert ready + ((if piece == "" then [] else [piece]) + after.chunks) == more + after.chunks;
    }
  }

  lemma {:induction false} FlushLeavesBlank(buf: string, minChars: int, maxChars: int, flush: bool)
    requires maxChars >= 1
    ensures flush ==> Blank(Feed(buf, minChars, maxChars, flush).rest)
    decreases |buf|
  {
    if buf != "" {
      var cut := CutPoint(buf, minChars, maxChars, flush);
      if cut != -1 {
        FlushLeavesBlank(LStrip(buf[cut..]), minChars, maxChars, flush);
      }
    }
  }

  method FeedSentenceChunks(buffer: string, minChars: int, maxChars: int, flush: bool)
    returns (ready: seq<string>, buf: string)
    requires maxChars >= 1
    ensures Fed(ready, buf) == Feed(buffer, minChars, maxChars, flush)
    ensures flush ==> Blank(buf)
  {
    hide CutPoint;
    hide LStrip;
    hide Strip;
    hide Feed;
    hide Blank;
    ready, buf := [], buffer;
    ghost var goal := Feed(buffer, minChars, maxChars, flush);
    assert ready + goal.chunks == goal.chunks;
    while buf != ""
      invariant Prefixed(ready, Feed(buf, minChars, maxChars, flush)) == goal
      decreases |buf|
    {
      RoundOf(ready, buf, minChars, maxChars, flush);
      if |buf| < minChars && !flush {
        break;
      }
      var cut := ChooseCut(buf, minChars, maxChars, flush);
      if cut < 0 {
        break;
      }
      var piece := Strip(buf[..cut]);
      buf := LStrip(buf[cut..]);
      if piece != "" {
        ready := ready + [piece];
      }
      if !flush && |buf| < minChars {
        break;
      }
    }
    if buf == "" {
      NothingToFeed(minChars, maxChars, flush);
    }
    assert Prefixed(ready, Fed([], buf)) == Fed(ready, buf);
    FlushLeavesBlank(buffer, minChars, maxChars, flush);
    ghost var _, _ := StripSplits(buf);
    if flush && Strip(buf) != "" {
      // The source flushes once more here; a flushing loop never leaves anything to say.
      assert false;
    }
  }

  /** `text` is exactly `chunks` in order, with only whitespace before and between
      them, followed by whitespace and `rest`. */
  ghost predicate Woven(text: string, chunks: seq<string>, rest: string)
    decreases |chunks|, 1
  {
    exists k :: WovenAt(text, chunks, rest, k)
  }

  ghost predicate WovenAt(text: string, chunks: seq<string>, rest: string, k: int)
    decreases |chunks|, 0
  {
    && 0 <= k <= |text| && Blank(text[..k])
    && if chunks == [] then text[k..] == rest
       else
         && k + |chunks[0]| <= |text|
         && text[k..k + |chunks[0]|] == chunks[0]
         && Woven(text[k + |chunks[0]|..], chunks[1..], rest)
  }

  lemma WovenAfterBlank(blank: string, text: string, chunks: seq<string>, rest: string)
    requires Blank(blank) && Woven(text, chunks, rest)
    ensures Woven(blank + text, chunks, rest)
  {
    var k :| WovenAt(text, chunks, rest, k);
    var whole, n := blank + text, |blank| + k;
    assert whole[..n] == blank + text[..k];
    assert whole[n..] == text[k..];
    if chunks != [] {
      assert whole[n + |chunks[0]|..] == text[k + |chunks[0]|..];
      assert whole[n..n + |chunks[0]|] == text[k..k + |chunks[0]|];
    }
    assert WovenAt(whole, chunks, rest, n);
  }

  /** Carrying the remainder: weaving composes over the next token. */
  lemma {:induction false} WovenCompose(a: string, chunks: seq<string>, rest: string, token: string,
                                        more: seq<string>, last: string)
    requires Woven(a, chunks, rest) && Woven(rest + token, more, last)
    ensures Woven(a + token, chunks + more, last)
    decreases |chunks|
  {
    var k :| WovenAt(a, chunks, rest, k);
    if chunks == [] {
      assert a + token == a[..k] + (rest + token);
      assert chunks + more == more;
      WovenAfterBlank(a[..k], rest + token, more, last);
    } else {
      var m := k + |chunks[0]|;
      WovenCompose(a[m..], chunks[1..], rest, token, more, last);
      assert (a + token)[m..] == a[m..] + token;
      assert (chunks + more)[1..] == chunks[1..] + more;
      assert (a + token)[..k] == a[..k];
      assert (a + token)[k..m] == a[k..m];
      assert WovenAt(a + token, chunks + more, last, k);
    }
  }

  lemma Rejoin(a: string, b: string, c: string, d: string)
    ensures a + b + (c + d) == a + (b + c) + d
  {
  }

  /** One round splits the buffer into blank, piece, blank, tail. */
  lemma RoundSplits(buf: string, cut: nat) returns (lead: string, piece: string, gap: string, tail: string)
    requires cut <= |buf|
    ensures piece == Strip(buf[..cut]) && tail == LStrip(buf[cut..])
    ensures buf == lead + piece + gap + tail && Blank(lead) && Blank(gap)
  {
    hide LStrip;
    hide Strip;
    var head, back := buf[..cut], buf[cut..];
    piece, tail := Strip(head), LStrip(back);
    var trail;
    lead, trail := StripSplits(head);
    var before := LStripSplits(back);
    gap := trail + before;
    Rejoin(lead + piece, trail, before, tail);
    assert buf == head + back;
  }

  /** Putting a piece and its surrounding whitespace in front. */
  lemma WovenCons(lead: string, piece: string, gap: string, tail: string, more: seq<string>, rest: string)
    requires Blank(lead) && Blank(gap) && Woven(tail, more, rest)
    ensures Woven(lead + piece + gap + tail, (if piece == "" then [] else [piece]) + more, rest)
  {
    WovenAfterBlank(gap, tail, more, rest);
    var text := lead + piece + gap + tail;
    if piece == "" {
      assert text == lead + (gap + tail);
      assert [] + more == more;
      WovenAfterBlank(lead, gap + tail, more, rest);
    } else {
      var chunks := [piece] + more;
      var k := |lead|;
      assert text[..k] == lead;
      assert text[k..k + |piece|] == piece;
      assert text[k + |piece|..] == gap + tail;
      assert chunks[1..] == more;
      assert WovenAt(text, chunks, rest, k);
    }
  }

  /** One call keeps every character: only whitespace around the chunks is dropped. */
  lemma {:induction false} FeedWeaves(buf: string, minChars: int, maxChars: int, flush: bool)
    requires maxChars >= 1
    ensures var result := Feed(buf, minChars, maxChars, flush); Woven(buf, result.chunks, result.rest)
    decreases |buf|
  {
    var result := Feed(buf, minChars, maxChars, flush);
    if buf == "" || CutPoint(buf, minChars, maxChars, flush) == -1 {
      assert WovenAt(buf, result.chunks, result.rest, 0);
    } else {
      var cut := CutPoint(buf, minChars, maxChars, flush);
      var lead, piece, gap, tail := RoundSplits(buf, cut);
      var after := AfterCut(tail, minChars, maxChars, flush);
      if !flush && |tail| < minChars {
        assert WovenAt(tail, after.chunks, after.rest, 0);
      } else {
        FeedWeaves(tail, minChars, maxChars, flush);
      }
      WovenCons(lead, piece, gap, tail, after.chunks, after.rest);
    }
  }

  /** Every chunk can be spoken and is bounded. */
  ghost predicate GoodChunks(chunks: seq<string>, minChars: int, maxChars: int) {
    forall c <- chunks :: !Blank(c) && |c| <= Max(minChars, maxChars)
  }

  /** Every chunk is speakable and bounded; a remainder carried on is shorter than the bound. */
  lemma {:induction false} FeedBounds(buf: string, minChars: int, maxChars: int, flush: bool)
    requires maxChars >= 1
    ensures var Fed(chunks, rest) := Feed(buf, minChars, maxChars, flush);
            && GoodChunks(chunks, minChars, maxChars)
            && (!flush ==> |rest| < Max(minChars, maxChars))
    decreases |buf|
  {
    hide CutPoint;
    hide LStrip;
    hide Strip;
    if buf != "" && CutPoint(buf, minChars, maxChars, flush) != -1 {
      var cut := CutPoint(buf, minChars, maxChars, flush);
      var tail := LStrip(buf[cut..]);
      if flush || |tail| >= minChars {
        FeedBounds(tail, minChars, maxChars, flush);
      }
      var _, _ := StripSplits(buf[..cut]);
    }
  }

  /** A chunk carries no whitespace at its ends. */
  ghost predicate Trimmed(c: string) {
    c != "" && !IsSpace(c[0]) && !IsSpace(c[|c| - 1])
  }

  lemma StripTrims(s: string)
    ensures Strip(s) == "" || Trimmed(Strip(s))
  {
    hide LStrip;
    hide RStrip;
    var _ := LStripSplits(s);
    var trail := RStripSplits(LStrip(s));
    assert LStrip(s) == Strip(s) + trail;
  }

  lemma NoCut(buf: string, minChars: int, maxChars: int)
    requires buf != "" && maxChars >= 1 && |buf| >= minChars && CutPoint(buf, minChars, maxChars, false) == -1
    ensures |buf| < maxChars && forall j | 0 <= j < |buf| && minChars <= j + 1 :: buf[j] !in SENTENCE_ENDS + PAUSES
  {
    hide CutPoint;
    CutPreference(buf, minChars, maxChars, false);
    forall j | 0 <= j < |buf| && minChars <= j + 1 ensures buf[j] !in SENTENCE_ENDS + PAUSES {
      assert !CutAfter(buf, minChars, maxChars, SENTENCE_ENDS, j + 1);
      assert !CutAfter(buf, minChars, maxChars, PAUSES, j + 1);
    }
  }

  /** Nothing is held back: what a call without flush leaves is shorter than `minChars`, or it is
      shorter than `maxChars` and holds neither a sentence end nor a pause late enough. */
  lemma {:induction false} FeedIsEager(buf: string, minChars: int, maxChars: int)
    requires maxChars >= 1
    ensures var Fed(chunks, rest) := Feed(buf, minChars, maxChars, false);
            && (forall c <- chunks :: Trimmed(c))
            && (rest == "" || |rest| < minChars
                || (|rest| < maxChars
                    && forall j | 0 <= j < |rest| && minChars <= j + 1 :: rest[j] !in SENTENCE_ENDS + PAUSES))
    decreases |buf|
  {
    hide CutPoint;
    hide LStrip;
    hide Strip;
    hide LastCutAfter;
    if buf != "" {
      var cut := CutPoint(buf, minChars, maxChars, false);
      if cut == -1 {
        if |buf| >= minChars {
          CutPreference(buf, minChars, maxChars, false);
          NoCut(buf, minChars, maxChars);
        }
      } else {
        StripTrims(buf[..cut]);
        var tail := LStrip(buf[cut..]);
        if |tail| >= minChars { FeedIsEager(tail, minChars, maxChars); }
      }
    }
  }

  /** A whole reply: the token loop of aipc-voice-stream, then the final flush. */
  function Tokens(tokens: seq<string>, carry: string, minChars: int, maxChars: int): (result: Fed)
    requires maxChars >= 1
  {
    if tokens == [] then Feed(carry, minChars, maxChars, true)
    else
      var Fed(chunks, rest) := Feed(carry + tokens[0], minChars, maxChars, false);
      var Fed(more, last) := Tokens(tokens[1..], rest, minChars, maxChars);
      Fed(chunks + more, last)
  }

  function Concat(parts: seq<string>): string {
    if parts == [] then "" else parts[0] + Concat(parts[1..])
  }

  lemma {:induction false} TokensWeave(tokens: seq<string>, carry: string, minChars: int, maxChars: int)
    requires maxChars >= 1
    ensures var Fed(chunks, last) := Tokens(tokens, carry, minChars, maxChars);
            Woven(carry + Concat(tokens), chunks, last) && Blank(last)
    decreases |tokens|
  {
    hide Feed;
    hide Woven;
    if tokens == [] {
      assert carry + Concat(tokens) == carry;
      FeedWeaves(carry, minChars, maxChars, true);
      FlushLeavesBlank(carry, minChars, maxChars, true);
    } else {
      var Fed(chunks, rest) := Feed(carry + tokens[0], minChars, maxChars, false);
      FeedWeaves(carry + tokens[0], minChars, maxChars, false);
      TokensWeave(tokens[1..], rest, minChars, maxChars);
      var Fed(more, last) := Tokens(tokens[1..], rest, minChars, maxChars);
      WovenCompose(carry + tokens[0], chunks, rest, Concat(tokens[1..]), more, last);
      assert carry + Concat(tokens) == (carry + tokens[0]) + Concat(tokens[1..]);
    }
  }

  lemma {:induction false} WovenKeepsSolid(text: string, chunks: seq<string>, rest: string)
    requires Woven(text, chunks, rest)
    ensures Solid(text) == Solid(Concat(chunks)) + Solid(rest)
    decreases |chunks|
  {
    hide Solid;
    var k :| WovenAt(text, chunks, rest, k);
    var lead := text[..k];
    SolidOfBlank(lead);
    if chunks == [] {
      assert text == lead + rest;
      SolidConcat(lead, rest);
      assert Concat(chunks) == "";
      SolidOfBlank(Concat(chunks));
    } else {
      var back := text[k + |chunks[0]|..];
      WovenKeepsSolid(back, chunks[1..], rest);
      assert text == lead + (chunks[0] + back);
      SolidConcat(lead, chunks[0] + back);
      SolidConcat(chunks[0], back);
      SolidConcat(chunks[0], Concat(chunks[1..]));
    }
  }

  /** The streaming law: however the reply was split into tokens, the spoken chunks
      weave back into it with nothing but whitespace left out, so no other character
      is lost, duplicated or reordered. */
  lemma ReplyIsSpokenExactly(tokens: seq<string>, minChars: int, maxChars: int)
    requires maxChars >= 1
    ensures var Fed(chunks, last) := Tokens(tokens, "", minChars, maxChars);
            && Woven(Concat(tokens), chunks, last) && Blank(last)
            && Solid(Concat(chunks)) == Solid(Concat(tokens))
  {
    TokensWeave(tokens, "", minChars, maxChars);
    var Fed(chunks, last) := Tokens(tokens, "", minChars, maxChars);
    assert "" + Concat(tokens) == Concat(tokens);
    WovenKeepsSolid(Concat(tokens), chunks, last);
    SolidOfBlank(last);
  }

  /** ... and no chunk of the reply is blank or longer than the bound. */
  lemma {:induction false} ReplyChunksBounded(tokens: seq<string>, carry: string, minChars: int, maxChars: int)
    requires maxChars >= 1
    ensures GoodChunks(Tokens(tokens, carry, minChars, maxChars).chunks, minChars, maxChars)
    decreases |tokens|
  {
    hide Feed;
    if tokens == [] {
      FeedBounds(carry, minChars, maxChars, true);
    } else {
      var rest := Feed(carry + tokens[0], minChars, maxChars, false).rest;
      FeedBounds(carry + tokens[0], minChars, maxChars, false);
      ReplyChunksBounded(tokens[1..], rest, minChars, maxChars);
    }
  }
}
