/** The viewing history log, the system-context string built from it, and the newest-first
    list the history panel shows. */
module History {

  /** One analysed frame: `{ timestamp, analysis }`; the timestamp is the opaque result of
      `new Date().toLocaleTimeString()`. */
  datatype HistoryEntry = HistoryEntry(timestamp: string, analysis: string)

  const ScreenPrefix: string := "Current Screen: "
  const HistoryHeader: string := "Viewing History:\n"

  /** `[<timestamp>]: <analysis>`, the text both the context and the panel show for an entry. */
  function EntryText(e: HistoryEntry): string {
    "[" + e.timestamp + "]: " + e.analysis
  }

  /** The line the context gives an entry. */
  function ContextLine(e: HistoryEntry): string {
    EntryText(e) + "\n"
  }

  /** The paragraph the history panel gives an entry. */
  function Paragraph(e: HistoryEntry): string {
    "<p>" + EntryText(e) + "</p>"
  }

  /** The context lines of `h`, in the order of `h`. */
  function Lines(h: seq<HistoryEntry>): string {
    if h == [] then "" else ContextLine(h[0]) + Lines(h[1..])
  }

  /** The paragraphs of `h`, in the order of `h`. */
  function Paragraphs(h: seq<HistoryEntry>): string {
    if h == [] then "" else Paragraph(h[0]) + Paragraphs(h[1..])
  }

  /** What `buildViewingHistoryContext()` returns. */
  function HistoryContext(h: seq<HistoryEntry>): string {
    HistoryHeader + Lines(h)
  }

  /** The history lines end with a line break, or are empty. */
  lemma {:induction false} LinesEndWithNewline(h: seq<HistoryEntry>)
    ensures Lines(h) == [] || Lines(h)[|Lines(h)| - 1] == '\n'
  {
    if h != [] {
      LinesEndWithNewline(h[1..]);
    }
  }

  /** The system message content: the latest analysis, then the history context. */
  function SystemContext(latest: string, h: seq<HistoryEntry>): string {
    ScreenPrefix + latest + "\n" + HistoryContext(h)
  }

  /** The shape of the system message: it opens with `Current Screen: ` and the latest
      analysis, the history context follows on the next line, and it ends with a line break,
      so nothing comes after the last history line. */
  lemma SystemContextShape(latest: string, h: seq<HistoryEntry>)
    ensures var r := SystemContext(latest, h);
      |r| > |ScreenPrefix| + |latest| &&
      r[..|ScreenPrefix| + |latest|] == ScreenPrefix + latest &&
      r[|ScreenPrefix| + |latest|..] == "\n" + HistoryContext(h) &&
      r[|r| - 1] == '\n'
  {
    LinesEndWithNewline(h);
    var r := SystemContext(latest, h);
    assert r == (ScreenPrefix + latest) + ("\n" + HistoryContext(h));
    assert r[|r| - 1] == HistoryContext(h)[|HistoryContext(h)| - 1];
  }

  /** `s.slice().reverse()`: a fresh sequence holding `s` back to front. */
  function Reverse<T>(s: seq<T>): (r: seq<T>)
    ensures |r| == |s|
    ensures forall k | 0 <= k < |s| :: r[k] == s[|s| - 1 - k]
  {
    if s == [] then [] else Reverse(s[1..]) + [s[0]]
  }

  /** The panel's `innerHTML`: one paragraph per entry, newest first. */
  function DisplayHtml(h: seq<HistoryEntry>): string {
    Paragraphs(Reverse(h))
  }

  lemma {:induction false} LinesSnoc(h: seq<HistoryEntry>, e: HistoryEntry)
    ensures Lines(h + [e]) == Lines(h) + ContextLine(e)
  {
    if h == [] {
      assert [e][1..] == [];
    } else {
      assert (h + [e])[1..] == h[1..] + [e];
      LinesSnoc(h[1..], e);
    }
  }

  lemma {:induction false} ParagraphsSnoc(h: seq<HistoryEntry>, e: HistoryEntry)
    ensures Paragraphs(h + [e]) == Paragraphs(h) + Paragraph(e)
  {
    if h == [] {
      assert [e][1..] == [];
    } else {
      assert (h + [e])[1..] == h[1..] + [e];
      ParagraphsSnoc(h[1..], e);
    }
  }

  /** The context lists the entries oldest first: those before position `k`, then the rest. */
  lemma {:induction false} LinesSplit(h: seq<HistoryEntry>, k: nat)
    requires k <= |h|
    ensures Lines(h) == Lines(h[..k]) + Lines(h[k..])
  {
    if k == 0 {
      assert h[k..] == h;
    } else {
      LinesSplit(h[1..], k - 1);
      assert h[1..][..k - 1] == h[..k][1..];
      assert h[1..][k - 1..] == h[k..];
    }
  }

  /** Recording an entry extends the history part of the context by exactly that entry's line;
      everything the context said before stays as it was. */
  lemma HistoryContextAppend(h: seq<HistoryEntry>, e: HistoryEntry)
    ensures HistoryContext(h + [e]) == HistoryContext(h) + ContextLine(e)
  {
    LinesSnoc(h, e);
  }

  /** The full system context after an analysis `e` was recorded, in terms of the one before. */
  lemma SystemContextAfterRecord(h: seq<HistoryEntry>, e: HistoryEntry)
    ensures SystemContext(e.analysis, h + [e]) ==
            ScreenPrefix + e.analysis + "\n" + HistoryContext(h) + ContextLine(e)
  {
    HistoryContextAppend(h, e);
  }

  /** The context of a session with one recorded analysis, spelled out. */
  lemma SystemContextOneEntry(t: string, a: string)
    ensures SystemContext(a, [HistoryEntry(t, a)]) ==
            "Current Screen: " + a + "\nViewing History:\n[" + t + "]: " + a + "\n"
  {
    var e := HistoryEntry(t, a);
    assert [e][1..] == [];
    assert Lines([e]) == "[" + t + "]: " + a + "\n";
  }

  lemma ReverseSnoc<T>(s: seq<T>, x: T)
    ensures Reverse(s + [x]) == [x] + Reverse(s)
  {
  }

  /** Reversing the display order gives back the history. */
  lemma ReverseInvolutive<T>(s: seq<T>)
    ensures Reverse(Reverse(s)) == s
  {
  }

  /** A newly recorded entry appears at the top of the panel, above everything shown before. */
  lemma DisplayNewestFirst(h: seq<HistoryEntry>, e: HistoryEntry)
    ensures DisplayHtml(h + [e]) == Paragraph(e) + DisplayHtml(h)
  {
    ReverseSnoc(h, e);
    assert ([e] + Reverse(h))[1..] == Reverse(h);
  }

  /** The `forEach` of `buildViewingHistoryContext`: start from the header and add one line
      per entry, oldest first. */
  method BuildViewingHistoryContext(history: seq<HistoryEntry>) returns (context: string)
    ensures context == HistoryContext(history)
  {
    context := HistoryHeader;
    var i := 0;
    while i < |history|
      invariant 0 <= i <= |history|
      invariant context == HistoryHeader + Lines(history[..i])
    {
      LinesSnoc(history[..i], history[i]);
      assert history[..i + 1] == history[..i] + [history[i]];
      context := context + ContextLine(history[i]);
      i := i + 1;
    }
    assert history[..i] == history;
  }

  /** The loop of `updateViewingHistoryUI`: walk a reversed copy of the history and add one
      paragraph per entry; the history itself is not touched. */
  method RenderViewingHistory(history: seq<HistoryEntry>) returns (html: string)
    ensures html == DisplayHtml(history)
  {
    var reversed := Reverse(history);
    html := "";
    var i := 0;
    while i < |reversed|
      invariant 0 <= i <= |reversed|
      invariant html == Paragraphs(reversed[..i])
    {
      ParagraphsSnoc(reversed[..i], reversed[i]);
      assert reversed[..i + 1] == reversed[..i] + [reversed[i]];
      html := html + Paragraph(reversed[i]);
      i := i + 1;
    }
    assert reversed[..i] == reversed;
  }
}
