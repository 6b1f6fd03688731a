/**
 * The line buffer of the debate stream loop (src/components/LiveDebate.tsx lines 69-74): text is
 * appended chunk by chunk, and only the text up to a "\n" is taken out as a line.
 */
module LineBuffer {
  import opened Text

  /** The complete lines of a buffer, in order: the text before each "\n". */
  function CompleteLines(s: string): seq<string>
    decreases |s|
  {
    var i := IndexOf(s, '\n');
    if i < 0 then [] else [s[..i]] + CompleteLines(s[i + 1..])
  }

  /** The text after the last "\n" of a buffer, which waits for the next chunk. */
  function Pending(s: string): (r: string)
    ensures |r| <= |s|
    decreases |s|
  {
    var i := IndexOf(s, '\n');
    if i < 0 then s else Pending(s[i + 1..])
  }

  /** The pending text holds no "\n". */
  lemma {:induction false} PendingNoNewline(s: string)
    ensures '\n' !in Pending(s)
    decreases |s|
  {
    var i := IndexOf(s, '\n');
    IndexOfSpec(s, '\n');
    if i >= 0 {
      PendingNoNewline(s[i + 1..]);
    }
  }

  /** The first complete line of a buffer is the text before its first "\n". */
  lemma LinesCons(s: string)
    requires IndexOf(s, '\n') >= 0
    ensures var i := IndexOf(s, '\n');
      CompleteLines(s) == [s[..i]] + CompleteLines(s[i + 1..]) && Pending(s) == Pending(s[i + 1..])
  {
    var i := IndexOf(s, '\n');
    var line, rest := s[..i], s[i + 1..];
    assert CompleteLines(s) == [line] + CompleteLines(rest);
  }

  /** A line without "\n", its "\n" and then more text: that line comes first. */
  lemma LineThen(a: string, x: string)
    requires '\n' !in a
    ensures CompleteLines(a + ['\n'] + x) == [a] + CompleteLines(x)
    ensures Pending(a + ['\n'] + x) == Pending(x)
  {
    var h := a + ['\n'] + x;
    IndexOfFirst(a, '\n', x);
    assert h[..|a|] == a;
    assert h[|a| + 1..] == x;
  }

  /** A buffer with a complete line holds a "\n". */
  lemma LinesFound(s: string)
    requires CompleteLines(s) != []
    ensures IndexOf(s, '\n') >= 0
  {
  }

  /** `split("\n")` is the complete lines followed by the pending text. */
  lemma {:induction false} SplitLines(s: string)
    ensures Split(s, '\n') == CompleteLines(s) + [Pending(s)]
    decreases |s|
  {
    var i := IndexOf(s, '\n');
    if i >= 0 {
      SplitLines(s[i + 1..]);
      assert Split(s, '\n') == [s[..i]] + Split(s[i + 1..], '\n');
    } else {
      assert Split(s, '\n') == [s];
    }
  }

  /** Appending text only extends the pending text: the complete lines already there stay as they are. */
  lemma {:induction false} LinesAppend(s: string, t: string)
    ensures CompleteLines(s + t) == CompleteLines(s) + CompleteLines(Pending(s) + t)
    ensures Pending(s + t) == Pending(Pending(s) + t)
    decreases |s|
  {
    var i := IndexOf(s, '\n');
    if i >= 0 {
      var a, b := s[..i], s[i + 1..];
      assert s + t == a + ['\n'] + (b + t) by {
        assert s == a + ['\n'] + b;
      }
      assert '\n' !in a by {
        IndexOfSpec(s, '\n');
      }
      LineThen(a, b + t);
      LinesAppend(b, t);
    }
  }

  /** A text without "\n" followed by a "\n" is one complete line. */
  lemma OneLine(p: string)
    requires '\n' !in p
    ensures CompleteLines(p + "\n") == [p] && Pending(p + "\n") == ""
  {
    IndexOfFirst(p, '\n', "");
    assert p + "\n" == p + ['\n'] + "";
    assert (p + "\n")[..|p|] == p;
    assert (p + "\n")[|p| + 1..] == "";
    assert CompleteLines("") == [];
  }

  /** A trailing "\n" completes the pending text. */
  lemma LinesNewline(s: string)
    ensures CompleteLines(s + "\n") == CompleteLines(s) + [Pending(s)]
    ensures Pending(s + "\n") == ""
  {
    LinesAppend(s, "\n");
    PendingNoNewline(s);
    OneLine(Pending(s));
  }

  /** The pending text is what the buffer ends with. */
  lemma {:induction false} PendingSuffix(s: string)
    ensures Pending(s) == s[|s| - |Pending(s)|..]
    decreases |s|
  {
    var i := IndexOf(s, '\n');
    if i >= 0 {
      var b := s[i + 1..];
      PendingSuffix(b);
      assert b[|b| - |Pending(b)|..] == s[|s| - |Pending(s)|..];
    }
  }

  /** Before the pending text, if anything comes before it, stands a "\n". */
  lemma {:induction false} PendingAfterNewline(s: string)
    requires |Pending(s)| < |s|
    ensures s[|s| - |Pending(s)| - 1] == '\n'
    decreases |s|
  {
    var i := IndexOf(s, '\n');
    var b := s[i + 1..];
    if |Pending(b)| < |b| {
      PendingAfterNewline(b);
      assert b[|b| - |Pending(b)| - 1] == s[|s| - |Pending(s)| - 1];
    } else {
      assert |s| - |Pending(s)| - 1 == i;
    }
  }

  /** The buffer up to and including its last "\n": all of it but the pending text. */
  function Head(s: string): string {
    s[..|s| - |Pending(s)|]
  }

  /** A buffer is its head followed by its pending text. */
  lemma HeadPending(s: string)
    ensures s == Head(s) + Pending(s)
  {
    PendingSuffix(s);
    assert s == s[..|s| - |Pending(s)|] + s[|s| - |Pending(s)|..];
  }

  /** The head of a buffer has the same complete lines and nothing pending. */
  lemma HeadLines(s: string)
    ensures CompleteLines(Head(s)) == CompleteLines(s) && Pending(Head(s)) == ""
  {
    var h, p := Head(s), Pending(s);
    assert s == h + p by {
      HeadPending(s);
    }
    assert Pending(h) == "" by {
      if h != [] {
        PendingAfterNewline(s);
        var g := h[..|h| - 1];
        assert h == g + "\n";
        LinesNewline(g);
      }
    }
    assert CompleteLines(p) == [] by {
      PendingNoNewline(s);
      IndexOfSpec(p, '\n');
    }
    assert CompleteLines(s) == CompleteLines(h) + CompleteLines(p) by {
      LinesAppend(h, p);
      assert Pending(h) + p == p;
    }
    assert CompleteLines(h) + [] == CompleteLines(h);
  }
}
