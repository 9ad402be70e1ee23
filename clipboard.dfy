/** The clipboard history of the desktop shell (src/electron/clipboard.ts): a
    most-recent-first list of copied texts without repetitions, at most
    `maxHistorySize` long once the bound has been respected. The system clipboard is
    the field `clipboardText`: `copyText` and other applications (`ExternalWrite`)
    write it, and the polling timer (`Tick`) and `pasteText` read it. */
module Clipboard {
  import opened Seqs

  /** One insertion, shared by the monitor tick and `copyText`: text already in the
      history changes nothing (it is not moved to the front); new text goes to the
      front, and when the list is then longer than the bound exactly one element,
      the oldest, is dropped. */
  function Insert(h: seq<string>, text: string, max: int): (r: seq<string>)
    ensures text in h ==> r == h
    ensures text !in h && |h| + 1 <= max ==> r == [text] + h
    ensures text !in h && |h| + 1 > max ==> r == ([text] + h)[..|h|]
  {
    if text in h then h
    else
      var grown := [text] + h;
      if |grown| > max then grown[..|grown| - 1] else grown
  }

  /** The history never holds a text twice. */
  lemma InsertKeepsNoDuplicates(h: seq<string>, text: string, max: int)
    requires NoDuplicates(h)
    ensures NoDuplicates(Insert(h, text, max))
  {
    if text !in h {
      var grown := [text] + h;
      forall i, j | 0 <= i < j < |grown|
        ensures grown[i] != grown[j]
      {
        if i == 0 {
          assert grown[j] == h[j - 1];
        } else {
          assert grown[i] == h[i - 1] && grown[j] == h[j - 1];
        }
      }
      PrefixKeepsNoDuplicates(grown, if |grown| > max then |grown| - 1 else |grown|);
    }
  }

  lemma PrefixKeepsNoDuplicates(s: seq<string>, k: nat)
    requires NoDuplicates(s) && k <= |s|
    ensures NoDuplicates(s[..k])
  {
  }

  /** A history within the bound stays within it; the length never grows by more
      than one. */
  lemma InsertKeepsBound(h: seq<string>, text: string, max: int)
    requires |h| <= max
    ensures |Insert(h, text, max)| <= max
    ensures |h| <= |Insert(h, text, max)| <= |h| + 1
  {
  }

  /** New text is afterwards the most recent entry, and everything that survives is
      the old history in its old order. */
  lemma InsertNewText(h: seq<string>, text: string, max: int)
    requires text !in h && max >= 1
    ensures var r := Insert(h, text, max);
      |r| >= 1 && r[0] == text && r[1..] <= h && text in r
  {
  }

  /** The bound and the absence of repetitions the manager maintains. */
  predicate WithinBound(history: seq<string>, max: int) {
    NoDuplicates(history) && |history| <= max
  }

  function MinLen(a: nat, b: int): (r: nat)
    requires b >= 0
    ensures r <= a && r <= b && (r == a || r == b)
  {
    if a <= b then a else b
  }

  class ClipboardManager {
    /** `this.history`, newest first. */
    var history: seq<string>
    /** `this.maxHistorySize`. */
    var maxHistorySize: int
    /** The text on the system clipboard. */
    var clipboardText: string
    /** Payloads sent on `clipboard-updated`, oldest first. */
    var sent: seq<seq<string>>

    predicate Valid()
      reads this
    {
      WithinBound(history, maxHistorySize)
    }

    constructor (clipboardText: string)
      ensures history == [] && maxHistorySize == 10 && sent == []
      ensures this.clipboardText == clipboardText
      ensures Valid()
    {
      history := [];
      maxHistorySize := 10;
      this.clipboardText := clipboardText;
      sent := [];
    }

    /** Another application puts text on the system clipboard; the manager's own
        state is untouched until the next tick reads it. */
    method ExternalWrite(text: string)
      modifies this
      ensures clipboardText == text
      ensures history == old(history) && maxHistorySize == old(maxHistorySize) && sent == old(sent)
    {
      clipboardText := text;
    }

    /** The body of the monitor's timer: it reads the clipboard; empty text (falsy)
        and text already recorded are ignored; otherwise the text is inserted and the
        new history is sent. */
    method Tick()
      modifies this
      ensures maxHistorySize == old(maxHistorySize) && clipboardText == old(clipboardText)
      ensures clipboardText != "" && clipboardText !in old(history) ==>
        history == Insert(old(history), clipboardText, maxHistorySize) && sent == old(sent) + [history]
      ensures !(clipboardText != "" && clipboardText !in old(history)) ==> history == old(history) && sent == old(sent)
      ensures old(Valid()) ==> Valid()
    {
      var text := clipboardText;
      if text != "" && text !in history {
        if NoDuplicates(history) {
          InsertKeepsNoDuplicates(history, text, maxHistorySize);
        }
        history := Insert(history, text, maxHistorySize);
        sent := sent + [history];
      }
    }

    /** Puts the text on the clipboard and records it, the empty text included; no
        message is sent. */
    method CopyText(text: string) returns (ok: bool)
      modifies this
      ensures ok
      ensures clipboardText == text
      ensures history == Insert(old(history), text, maxHistorySize)
      ensures maxHistorySize == old(maxHistorySize) && sent == old(sent)
      ensures old(Valid()) ==> Valid()
    {
      clipboardText := text;
      if NoDuplicates(history) {
        InsertKeepsNoDuplicates(history, text, maxHistorySize);
      }
      history := Insert(history, text, maxHistorySize);
      ok := true;
    }

    method PasteText() returns (text: string)
      ensures text == clipboardText
    {
      text := clipboardText;
    }

    method GetHistory() returns (r: seq<string>)
      ensures r == history
    {
      r := history;
    }

    method ClearHistory()
      modifies this
      ensures history == [] && sent == old(sent) + [[]]
      ensures maxHistorySize == old(maxHistorySize) && clipboardText == old(clipboardText)
      ensures Valid() <==> maxHistorySize >= 0
    {
      history := [];
      sent := sent + [history];
    }

    /** Sets the bound and pops from the tail until the history fits: the newest
        `min(length, size)` entries survive, in order. */
    method SetMaxHistorySize(size: int)
      requires size >= 0
      modifies this
      ensures maxHistorySize == size
      ensures history == old(history)[..MinLen(|old(history)|, size)]
      ensures clipboardText == old(clipboardText) && sent == old(sent)
      ensures NoDuplicates(old(history)) ==> Valid()
    {
      maxHistorySize := size;
      ghost var h0 := history;
      while |history| > maxHistorySize
        invariant maxHistorySize == size
        invariant clipboardText == old(clipboardText) && sent == old(sent)
        invariant MinLen(|h0|, size) <= |history| <= |h0|
        invariant history == h0[..|history|]
        decreases |history|
      {
        history := history[..|history| - 1];
      }
      if NoDuplicates(h0) {
        PrefixKeepsNoDuplicates(h0, |history|);
      }
    }
  }

  /** Once `copyText` has recorded a text, the monitor's next tick, reading that same
      text back from the clipboard, neither records nor sends anything. */
  method CopyThenTick(m: ClipboardManager, text: string)
    requires m.maxHistorySize >= 1
    modifies m
    ensures m.history == Insert(old(m.history), text, old(m.maxHistorySize))
    ensures m.sent == old(m.sent)
  {
    var _ := m.CopyText(text);
    if text !in old(m.history) {
      InsertNewText(old(m.history), text, m.maxHistorySize);
    }
    m.Tick();
  }

  /** Text another application copies is recorded at the next tick, sent to the
      window, and is what `pasteText` returns. */
  method ExternalCopyIsRecorded(m: ClipboardManager, text: string) returns (pasted: string)
    requires text != "" && text !in m.history && m.maxHistorySize >= 1
    modifies m
    ensures pasted == text
    ensures |m.history| >= 1 && m.history[0] == text && m.history[1..] <= old(m.history)
    ensures m.sent == old(m.sent) + [m.history]
  {
    m.ExternalWrite(text);
    m.Tick();
    InsertNewText(old(m.history), text, m.maxHistorySize);
    pasted := m.PasteText();
  }
}
