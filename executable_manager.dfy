/**
  The console capture of ExecutableManager.StartProcessAndMonitor: the
  stdout reader keeps a pending line across received and emits it at every CR
  or LF, dropping empty lines; the stderr reader does the same within a read
  but flushes its pending text at the end of every read, and prefixes all
  it emits with "[ERR] ".
*/
module ConsoleCapture {
  import opened Seqs

  const ErrPrefix := "[ERR] "

  predicate IsTerminator(c: char) {
    c == '\r' || c == '\n'
  }

  predicate NoTerminator(s: string) {
    forall i :: 0 <= i < |s| ==> !IsTerminator(s[i])
  }

  /** The text split at every CR and LF, empty pieces kept; the last piece is the text after the last terminator. */
  function Pieces(s: string): (r: seq<string>)
    ensures |r| > 0
  {
    if s == [] then [""]
    else
      var p := Pieces(s[..|s| - 1]);
      var c := s[|s| - 1];
      if IsTerminator(c) then p + [""] else p[..|p| - 1] + [p[|p| - 1] + [c]]
  }

  /** The pieces that are not empty, in order. */
  function NonEmpty(ps: seq<string>): seq<string> {
    if ps == [] then []
    else NonEmpty(ps[..|ps| - 1]) + (if ps[|ps| - 1] == "" then [] else [ps[|ps| - 1]])
  }

  /** The lines a CR/LF splitter emits: the non-empty pieces. */
  function SplitLines(s: string): seq<string> {
    NonEmpty(Pieces(s))
  }

  /** The text with every CR and LF removed. */
  function StripTerminators(s: string): string {
    if s == [] then []
    else StripTerminators(s[..|s| - 1]) + (if IsTerminator(s[|s| - 1]) then [] else [s[|s| - 1]])
  }

  /** The text waiting in the buffer once the text is read: the characters after the last terminator. */
  function Pending(s: string): string {
    if s == [] then ""
    else if IsTerminator(s[|s| - 1]) then ""
    else Pending(s[..|s| - 1]) + [s[|s| - 1]]
  }

  /** The pending text is emitted at a terminator, or at the end, unless it is empty. */
  function Flush(pending: string): seq<string> {
    if pending == "" then [] else [pending]
  }

  /** The lines emitted while the text is read, one at each terminator that finds pending text. */
  function Emitted(s: string): seq<string> {
    if s == [] then []
    else if IsTerminator(s[|s| - 1]) then Emitted(s[..|s| - 1]) + Flush(Pending(s[..|s| - 1]))
    else Emitted(s[..|s| - 1])
  }

  /** Reading one more character. */
  lemma MachineStep(t: string, c: char)
    ensures Emitted(t + [c]) == if IsTerminator(c) then Emitted(t) + Flush(Pending(t)) else Emitted(t)
    ensures Pending(t + [c]) == if IsTerminator(c) then "" else Pending(t) + [c]
  {
    assert (t + [c])[..|t|] == t;
  }

  /**
    The machine against the reference definition: what is pending is the last
    piece, what was emitted is the non-empty pieces before it, and so the
    emissions followed by the final flush are exactly the split lines.
  */
  lemma {:induction false} MachineSplits(s: string)
    ensures Pending(s) == Pieces(s)[|Pieces(s)| - 1]
    ensures Emitted(s) == NonEmpty(Pieces(s)[..|Pieces(s)| - 1])
    ensures SplitLines(s) == Emitted(s) + Flush(Pending(s))
    decreases |s|
  {
    if s != [] {
      var t := s[..|s| - 1];
      var c := s[|s| - 1];
      MachineSplits(t);
      var p := Pieces(t);
      assert NonEmpty(p) == NonEmpty(p[..|p| - 1]) + Flush(p[|p| - 1]);
      if IsTerminator(c) {
        assert (p + [""])[..|p|] == p;
      } else {
        var q := p[..|p| - 1] + [p[|p| - 1] + [c]];
        assert q[..|q| - 1] == p[..|p| - 1];
      }
    }
  }

  /** One more character that is not a terminator, after characters that only extended the pending text. */
  lemma WordStep(t: string, v: string, c: char)
    requires !IsTerminator(c)
    requires Emitted(t + v) == Emitted(t) && Pending(t + v) == Pending(t) + v
    ensures Emitted(t + (v + [c])) == Emitted(t) && Pending(t + (v + [c])) == Pending(t) + (v + [c])
  {
    var u := t + v;
    MachineStep(u, c);
    assert t + (v + [c]) == u + [c];
  }

  /** Characters without a terminator only extend the pending text. */
  lemma {:induction false} AppendWord(t: string, w: string)
    requires NoTerminator(w)
    ensures Emitted(t + w) == Emitted(t) && Pending(t + w) == Pending(t) + w
    decreases |w|
  {
    if w == [] {
      assert t + w == t;
    } else {
      var v := w[..|w| - 1];
      var c := w[|w| - 1];
      assert NoTerminator(v) by {
        forall i | 0 <= i < |v| ensures !IsTerminator(v[i]) {
          assert v[i] == w[i];
        }
      }
      AppendWord(t, v);
      WordStep(t, v, c);
      assert v + [c] == w;
    }
  }

  /** Every line with the stderr prefix. */
  function Prefixed(lines: seq<string>): seq<string> {
    if lines == [] then []
    else Prefixed(lines[..|lines| - 1]) + [ErrPrefix + lines[|lines| - 1]]
  }

  /** Prefixing keeps the number of lines and prefixes each one. */
  lemma {:induction false} PrefixedElements(lines: seq<string>)
    ensures |Prefixed(lines)| == |lines|
    ensures forall i :: 0 <= i < |lines| ==> Prefixed(lines)[i] == ErrPrefix + lines[i]
    decreases |lines|
  {
    if lines != [] {
      PrefixedElements(lines[..|lines| - 1]);
    }
  }

  /** The stderr emissions: each read split on its own, every line prefixed. */
  function ErrLines(received: seq<string>): seq<string> {
    if received == [] then []
    else ErrLines(received[..|received| - 1]) + Prefixed(SplitLines(received[|received| - 1]))
  }

  /** One more character: a terminator opens a new empty piece, any other character extends the last one. */
  lemma PiecesStep(t: string, c: char)
    ensures var p := Pieces(t);
      Pieces(t + [c]) == if IsTerminator(c) then p + [""] else p[..|p| - 1] + [p[|p| - 1] + [c]]
  {
    assert (t + [c])[..|t|] == t;
  }

  /** No piece holds a terminator. */
  lemma {:induction false} PiecesHaveNoTerminator(s: string)
    ensures forall i :: 0 <= i < |Pieces(s)| ==> NoTerminator(Pieces(s)[i])
    decreases |s|
  {
    if s != [] {
      PiecesHaveNoTerminator(s[..|s| - 1]);
    }
  }

  /** The pieces, put back together, are the text without its terminators. */
  lemma {:induction false} PiecesFlatten(s: string)
    ensures Flatten(Pieces(s)) == StripTerminators(s)
    decreases |s|
  {
    if s != [] {
      var t := s[..|s| - 1];
      var c := s[|s| - 1];
      var p := Pieces(t);
      PiecesFlatten(t);
      assert Flatten(p) == Flatten(p[..|p| - 1]) + p[|p| - 1];
      if IsTerminator(c) {
        FlattenAppend(p, [""]);
        assert Flatten([""]) == "" by {
          assert [""][..0] == [];
        }
      } else {
        var q := p[..|p| - 1] + [p[|p| - 1] + [c]];
        assert q[..|q| - 1] == p[..|p| - 1];
      }
    }
  }

  /** Dropping empty pieces keeps the rest in order and changes nothing when put back together. */
  lemma {:induction false} NonEmptyFlatten(ps: seq<string>)
    ensures Flatten(NonEmpty(ps)) == Flatten(ps)
    decreases |ps|
  {
    if ps != [] {
      var init := ps[..|ps| - 1];
      var last := ps[|ps| - 1];
      NonEmptyFlatten(init);
      var tail: seq<string> := if last == "" then [] else [last];
      FlattenAppend(NonEmpty(init), tail);
      if last != "" {
        assert [last][..0] == [];
      }
    }
  }

  /** The kept pieces are pieces, and none is empty. */
  lemma {:induction false} NonEmptyMembers(ps: seq<string>)
    ensures forall i :: 0 <= i < |NonEmpty(ps)| ==> NonEmpty(ps)[i] != "" && NonEmpty(ps)[i] in ps
    decreases |ps|
  {
    if ps != [] {
      NonEmptyMembers(ps[..|ps| - 1]);
    }
  }

  /**
    The emitted lines are never empty and hold no CR or LF, and together,
    in order, they are exactly the text without its CRs and LFs.
  */
  lemma SplitLinesProperties(s: string)
    ensures forall i :: 0 <= i < |SplitLines(s)| ==> SplitLines(s)[i] != "" && NoTerminator(SplitLines(s)[i])
    ensures Flatten(SplitLines(s)) == StripTerminators(s)
  {
    NonEmptyMembers(Pieces(s));
    PiecesHaveNoTerminator(s);
    NonEmptyFlatten(Pieces(s));
    PiecesFlatten(s);
  }

  lemma {:induction false} PrefixedAppend(a: seq<string>, b: seq<string>)
    ensures Prefixed(a + b) == Prefixed(a) + Prefixed(b)
    decreases |b|
  {
    if b == [] {
      assert a + b == a;
    } else {
      var init := b[..|b| - 1];
      PrefixedAppend(a, init);
      assert (a + b)[..|a + b| - 1] == a + init;
    }
  }

  /** Prefixing one more line. */
  lemma PrefixedSnoc(a: seq<string>, x: string)
    ensures Prefixed(a + [x]) == Prefixed(a) + [ErrPrefix + x]
  {
    assert (a + [x])[..|a|] == a;
  }

  /** Every stderr emission is "[ERR] " followed by a non-empty text without CR or LF. */
  lemma {:induction false} ErrLinesPrefixed(received: seq<string>)
    ensures forall i :: 0 <= i < |ErrLines(received)| ==>
      exists line :: ErrLines(received)[i] == ErrPrefix + line && line != "" && NoTerminator(line)
    decreases |received|
  {
    if received != [] {
      ErrLinesPrefixed(received[..|received| - 1]);
      var split := SplitLines(received[|received| - 1]);
      SplitLinesProperties(received[|received| - 1]);
      PrefixedElements(split);
      var front := ErrLines(received[..|received| - 1]);
      forall i | 0 <= i < |ErrLines(received)|
        ensures exists line :: ErrLines(received)[i] == ErrPrefix + line && line != "" && NoTerminator(line)
      {
        if i < |front| {
          assert ErrLines(received)[i] == front[i];
        } else {
          var line := split[i - |front|];
          assert ErrLines(received)[i] == ErrPrefix + line;
          assert line != "" && NoTerminator(line);
        }
      }
    } else {
      assert |ErrLines(received)| == 0;
    }
  }

  /** A CR LF pair ends one line: the empty piece between CR and LF is not emitted. */
  lemma CrLfEndsOneLine(u: string, v: string)
    requires u != "" && NoTerminator(u) && v != "" && NoTerminator(v)
    ensures SplitLines(u + "\r\n" + v) == [u, v]
  {
    var s1 := u + ['\r'];
    var s2 := s1 + ['\n'];
    assert Emitted(s2) == [u] && Pending(s2) == "" by {
      AppendWord("", u);
      assert "" + u == u;
      MachineStep(u, '\r');
      MachineStep(s1, '\n');
    }
    var w := s2 + v;
    assert Emitted(w) == [u] && Pending(w) == v by {
      AppendWord(s2, v);
      assert "" + v == v;
    }
    assert SplitLines(w) == [u, v] by {
      MachineSplits(w);
      assert Flush(v) == [v];
    }
    assert u + "\r\n" + v == w;
  }

  /** A non-empty text without terminators is one line, with or without a final LF. */
  lemma SingleLine(w: string)
    requires w != "" && NoTerminator(w)
    ensures SplitLines(w) == [w] && SplitLines(w + "\n") == [w]
  {
    AppendWord("", w);
    assert "" + w == w;
    MachineSplits(w);
    MachineStep(w, '\n');
    MachineSplits(w + "\n");
  }

  /**
    Stderr flushes at the end of every read: a line that arrives in two reads,
    `u` and then `v` with its LF, is emitted as two lines, where stdout, which
    keeps its pending text across reads, emits it as one.
  */
  lemma StderrSplitsAtReads(u: string, v: string)
    requires u != "" && NoTerminator(u) && v != "" && NoTerminator(v)
    ensures ErrLines([u, v + "\n"]) == [ErrPrefix + u, ErrPrefix + v]
    ensures SplitLines(u + v + "\n") == [u + v]
  {
    SingleLine(u);
    SingleLine(v);
    assert NoTerminator(u + v) by {
      forall i | 0 <= i < |u + v| ensures !IsTerminator((u + v)[i]) {
        if i < |u| {
          assert (u + v)[i] == u[i];
        } else {
          assert (u + v)[i] == v[i - |u|];
        }
      }
    }
    SingleLine(u + v);
    PrefixedOne(u);
    PrefixedOne(v);
    ErrLinesOfTwo(u, v + "\n");
  }

  lemma PrefixedOne(x: string)
    ensures Prefixed([x]) == [ErrPrefix + x]
  {
    PrefixedSnoc([], x);
    assert [] + [x] == [x];
  }

  lemma ErrLinesOfTwo(a: string, b: string)
    ensures ErrLines([a, b]) == Prefixed(SplitLines(a)) + Prefixed(SplitLines(b))
  {
    var received := [a, b];
    var pa := Prefixed(SplitLines(a));
    assert received[..0] == [] && received[..2] == received;
    ErrLinesStep(received, 0);
    assert ErrLines(received[..1]) == pa by {
      assert [] + pa == pa;
    }
    ErrLinesStep(received, 1);
  }

  /**
    The stdout reader's `for` loop over one read: every CR or LF emits the
    pending text when it is not empty and clears it, every other character
    is appended to it.
  */
  method SplitStdoutRead(buffer: string, sb: string, lines: seq<string>, ghost consumed: string)
    returns (sbAfter: string, linesAfter: seq<string>)
    requires lines == Emitted(consumed) && sb == Pending(consumed)
    ensures linesAfter == Emitted(consumed + buffer) && sbAfter == Pending(consumed + buffer)
  {
    sbAfter := sb;
    linesAfter := lines;
    var i := 0;
    assert consumed + buffer[..0] == consumed;
    while i < |buffer|
      invariant 0 <= i <= |buffer|
      invariant linesAfter == Emitted(consumed + buffer[..i]) && sbAfter == Pending(consumed + buffer[..i])
    {
      var c := buffer[i];
      CharStep(consumed, buffer, i);
      if c == '\r' || c == '\n' {
        var line := sbAfter;
        sbAfter := "";
        if line != "" {
          linesAfter := linesAfter + [line];
        }
      } else {
        sbAfter := sbAfter + [c];
      }
      i := i + 1;
    }
    assert buffer[..i] == buffer;
  }

  /** The stdout loop reading the character at `i` of a read, after the earlier text. */
  lemma CharStep(consumed: string, buffer: string, i: int)
    requires 0 <= i < |buffer|
    ensures var t := consumed + buffer[..i];
      && Emitted(consumed + buffer[..i + 1])
        == (if IsTerminator(buffer[i]) && Pending(t) != "" then Emitted(t) + [Pending(t)] else Emitted(t))
      && Pending(consumed + buffer[..i + 1]) == if IsTerminator(buffer[i]) then "" else Pending(t) + [buffer[i]]
  {
    var t := consumed + buffer[..i];
    var c := buffer[i];
    assert consumed + buffer[..i + 1] == t + [c] by {
      assert buffer[..i + 1] == buffer[..i] + [c];
    }
    MachineStep(t, c);
    if IsTerminator(c) && Pending(t) != "" {
      assert Flush(Pending(t)) == [Pending(t)];
    } else if IsTerminator(c) {
      assert Emitted(t) + Flush(Pending(t)) == Emitted(t);
    }
  }

  lemma FlattenStep(received: seq<string>, k: int)
    requires 0 <= k < |received|
    ensures Flatten(received[..k + 1]) == Flatten(received[..k]) + received[k]
  {
    assert received[..k + 1][..k] == received[..k];
  }

  /**
    The stdout reader: reads until an empty read, splitting each one; the
    pending text lives across reads, so only the concatenated input matters.
    At the end of the stream a non-empty remainder is emitted.
  */
  method MonitorStdout(received: seq<string>) returns (lines: seq<string>)
    ensures lines == SplitLines(Flatten(Received(received)))
  {
    var n := CountUntilEmpty(received);
    lines := [];
    var sb := "";
    ghost var consumed := "";
    var k := 0;
    while k < |received| && received[k] != []
      invariant k <= n
      invariant consumed == Flatten(received[..k])
      invariant lines == Emitted(consumed) && sb == Pending(consumed)
    {
      ReadAgain(received, k);
      var buffer := received[k];
      sb, lines := SplitStdoutRead(buffer, sb, lines, consumed);
      FlattenStep(received, k);
      consumed := consumed + buffer;
      k := k + 1;
    }
    ReadStops(received, k);
    MachineSplits(consumed);
    var last := if |sb| > 0 then sb else "";
    if last != "" {
      lines := lines + [last];
    }
  }

  /** Reading one more character, with every emission prefixed. */
  lemma ErrCharStep(buf: string, i: int)
    requires 0 <= i < |buf|
    ensures var t := buf[..i];
      && Prefixed(Emitted(buf[..i + 1]))
        == (if IsTerminator(buf[i]) && Pending(t) != "" then Prefixed(Emitted(t)) + [ErrPrefix + Pending(t)] else Prefixed(Emitted(t)))
      && Pending(buf[..i + 1]) == if IsTerminator(buf[i]) then "" else Pending(t) + [buf[i]]
  {
    var t := buf[..i];
    var c := buf[i];
    assert buf[..i + 1] == t + [c];
    MachineStep(t, c);
    if IsTerminator(c) && Pending(t) != "" {
      assert Flush(Pending(t)) == [Pending(t)];
      PrefixedSnoc(Emitted(t), Pending(t));
    } else if IsTerminator(c) {
      assert Emitted(t) + Flush(Pending(t)) == Emitted(t);
    }
  }

  /**
    The stderr reader's `for` loop over one read, starting with an empty
    buffer: every CR or LF emits the pending text, prefixed, when there is
    any; every other character is appended to it.
  */
  method SplitStderrRead(errBuf: string) returns (errSb: string, lines: seq<string>)
    ensures lines == Prefixed(Emitted(errBuf)) && errSb == Pending(errBuf)
  {
    errSb := "";
    lines := [];
    var i := 0;
    assert errBuf[..0] == "";
    while i < |errBuf|
      invariant 0 <= i <= |errBuf|
      invariant lines == Prefixed(Emitted(errBuf[..i])) && errSb == Pending(errBuf[..i])
    {
      var c := errBuf[i];
      ErrCharStep(errBuf, i);
      if c == '\r' || c == '\n' {
        if |errSb| > 0 {
          var chunk := errSb;
          errSb := "";
          lines := lines + [ErrPrefix + chunk];
        }
      } else {
        errSb := errSb + [c];
      }
      i := i + 1;
    }
    assert errBuf[..i] == errBuf;
  }

  /** A read's emissions followed by its final flush, all prefixed, are its prefixed split lines. */
  lemma ErrReadLines(errBuf: string)
    ensures Prefixed(Emitted(errBuf)) + Prefixed(Flush(Pending(errBuf))) == Prefixed(SplitLines(errBuf))
  {
    MachineSplits(errBuf);
    PrefixedAppend(Emitted(errBuf), Flush(Pending(errBuf)));
  }

  lemma PrefixedFlush(p: string)
    ensures Prefixed(Flush(p)) == if p == "" then [] else [ErrPrefix + p]
  {
    if p != "" {
      PrefixedSnoc([], p);
      assert [] + [p] == [p];
    }
  }

  lemma ErrLinesStep(received: seq<string>, k: int)
    requires 0 <= k < |received|
    ensures ErrLines(received[..k + 1]) == ErrLines(received[..k]) + Prefixed(SplitLines(received[k]))
  {
    assert received[..k + 1][..k] == received[..k];
  }

  /** One pass of the stderr read loop: the read split on its own, then what is pending flushed. */
  method StderrRead(errBuf: string) returns (errSb: string, lines: seq<string>)
    ensures errSb == "" && lines == Prefixed(SplitLines(errBuf))
  {
    var emitted;
    errSb, emitted := SplitStderrRead(errBuf);
    ErrReadLines(errBuf);
    PrefixedFlush(errSb);
    lines := emitted;
    if |errSb| > 0 {
      var partial := errSb;
      errSb := "";
      lines := lines + [ErrPrefix + partial];
    }
  }

  /**
    The stderr reader: each read is split on its own and what is pending at
    its end is emitted, so nothing is pending between reads and the flush
    after the stream never fires. Every emission carries "[ERR] ".
  */
  method MonitorStderr(received: seq<string>) returns (lines: seq<string>)
    ensures lines == ErrLines(Received(received))
  {
    var n := CountUntilEmpty(received);
    lines := [];
    var errSb := "";
    var k := 0;
    while k < |received| && received[k] != []
      invariant k <= n
      invariant errSb == ""
      invariant lines == ErrLines(received[..k])
    {
      ReadAgain(received, k);
      var errBuf := received[k];
      var emitted;
      errSb, emitted := StderrRead(errBuf);
      ErrLinesStep(received, k);
      lines := lines + emitted;
      k := k + 1;
    }
    ReadStops(received, k);
    if |errSb| > 0 {
      var leftover := errSb;
      lines := lines + [ErrPrefix + leftover];
    }
  }
}
