/** Text handling of ws/client.go: the normalisation applied to every inbound
    frame, and the newline-separated batching of outbound envelopes. Frames
    are sequences of Unicode characters. */
module Frames {

  /** Go's `unicode.IsSpace` (the Unicode White_Space property). */
  predicate IsSpace(c: char) {
    || c == '\t' || c == '\n' || c == '\U{000B}' || c == '\U{000C}' || c == '\r' || c == ' '
    || c == '\U{0085}' || c == '\U{00A0}' || c == '\U{1680}'
    || ('\U{2000}' <= c <= '\U{200A}')
    || c == '\U{2028}' || c == '\U{2029}' || c == '\U{202F}' || c == '\U{205F}' || c == '\U{3000}'
  }

  predicate NoNewline(s: string) {
    forall i :: 0 <= i < |s| ==> s[i] != '\n'
  }

  /** A concatenation holds a newline exactly when one of its parts does. */
  lemma NoNewlineConcat(a: string, b: string)
    ensures NoNewline(a + b) <==> NoNewline(a) && NoNewline(b)
  {
    if NoNewline(a + b) {
      forall i | 0 <= i < |a| ensures a[i] != '\n' {
        assert a[i] == (a + b)[i];
      }
      forall i | 0 <= i < |b| ensures b[i] != '\n' {
        assert b[i] == (a + b)[|a| + i];
      }
    }
    if NoNewline(a) && NoNewline(b) {
      forall i | 0 <= i < |a + b| ensures (a + b)[i] != '\n' {
        if i >= |a| {
          assert (a + b)[i] == b[i - |a|];
        }
      }
    }
  }

  /** `bytes.Replace(s, "\n", " ", -1)`. */
  function ReplaceNewlines(s: string): (r: string)
    ensures |r| == |s| && NoNewline(r)
    ensures forall i :: 0 <= i < |s| && s[i] != '\n' ==> r[i] == s[i]
    ensures forall i :: 0 <= i < |s| && s[i] == '\n' ==> r[i] == ' '
  {
    seq(|s|, i requires 0 <= i < |s| => if s[i] == '\n' then ' ' else s[i])
  }

  /** The number of leading white-space characters. */
  function Lead(s: string): (n: nat)
    ensures n <= |s|
    ensures forall k :: 0 <= k < n ==> IsSpace(s[k])
    ensures n < |s| ==> !IsSpace(s[n])
  {
    if |s| == 0 || !IsSpace(s[0]) then 0 else 1 + Lead(s[1..])
  }

  /** The number of trailing white-space characters. */
  function Trail(s: string): (n: nat)
    ensures n <= |s|
    ensures forall k :: |s| - n <= k < |s| ==> IsSpace(s[k])
    ensures n < |s| ==> !IsSpace(s[|s| - n - 1])
  {
    if |s| == 0 || !IsSpace(s[|s| - 1]) then 0 else 1 + Trail(s[..|s| - 1])
  }

  /** `bytes.TrimSpace`: the slice left after dropping white space at both ends. */
  function TrimSpace(s: string): (r: string)
    ensures |r| == 0 || (!IsSpace(r[0]) && !IsSpace(r[|r| - 1]))
    ensures Lead(s) + |r| <= |s| && r == s[Lead(s)..Lead(s) + |r|]
    ensures forall k :: 0 <= k < |s| && !(Lead(s) <= k < Lead(s) + |r|) ==> IsSpace(s[k])
  {
    var t := s[Lead(s)..];
    t[..|t| - Trail(t)]
  }

  /** Trimming is determined by its result: any slice that starts and ends with
      a non-space character and has only white space around it is the trim. */
  lemma TrimUnique(s: string, i: nat, j: nat)
    requires i < j <= |s|
    requires !IsSpace(s[i]) && !IsSpace(s[j - 1])
    requires forall k :: 0 <= k < |s| && !(i <= k < j) ==> IsSpace(s[k])
    ensures TrimSpace(s) == s[i..j]
  {
    var r := TrimSpace(s);
    var a := Lead(s);
    assert a == i;
    assert |r| > 0;
    var b := a + |r|;
    assert r[|r| - 1] == s[b - 1];
    assert b == j;
  }

  /** The normalisation of an inbound frame (client.go line 90): newlines
      become spaces, then white space is trimmed from both ends. */
  function Normalise(frame: string): (r: string)
    ensures NoNewline(r)
    ensures |r| == 0 || (!IsSpace(r[0]) && !IsSpace(r[|r| - 1]))
    ensures var s := ReplaceNewlines(frame); Lead(s) + |r| <= |s| && r == s[Lead(s)..Lead(s) + |r|]
    ensures var a := Lead(ReplaceNewlines(frame));
            forall k :: 0 <= k < |frame| && !(a <= k < a + |r|) ==> IsSpace(frame[k])
  {
    TrimSpace(ReplaceNewlines(frame))
  }

  /** Normalising twice is normalising once. */
  lemma NormaliseIdempotent(frame: string)
    ensures Normalise(Normalise(frame)) == Normalise(frame)
  {
    var r := Normalise(frame);
    assert ReplaceNewlines(r) == r;
    if |r| > 0 {
      TrimUnique(r, 0, |r|);
    }
  }

  /** A frame without white space at its ends and without newlines is left alone. */
  lemma NormaliseKeepsCleanFrame(frame: string)
    requires NoNewline(frame) && |frame| > 0 && !IsSpace(frame[0]) && !IsSpace(frame[|frame| - 1])
    ensures Normalise(frame) == frame
  {
    assert ReplaceNewlines(frame) == frame;
    TrimUnique(frame, 0, |frame|);
  }

  // ---------------------------------------------------------------------------
  // Batching of outbound envelopes
  // ---------------------------------------------------------------------------

  /** The parts separated by newlines, as `writePump` writes them into one frame. */
  function Join(parts: seq<string>): string
    requires |parts| > 0
  {
    if |parts| == 1 then parts[0] else parts[0] + "\n" + Join(parts[1..])
  }

  /** Splitting a frame at its newlines. */
  function Split(s: string): (r: seq<string>)
    ensures |r| >= 1
  {
    if |s| == 0 then [""]
    else
      var rest := Split(s[1..]);
      if s[0] == '\n' then [""] + rest else [[s[0]] + rest[0]] + rest[1..]
  }

  lemma {:induction false} SplitPlain(p: string, t: string)
    requires NoNewline(p)
    ensures Split(p + t) == [p + Split(t)[0]] + Split(t)[1..]
  {
    if |p| > 0 {
      assert (p + t)[1..] == p[1..] + t;
      SplitPlain(p[1..], t);
      assert [p[0]] + (p[1..] + Split(t)[0]) == p + Split(t)[0];
    } else {
      assert p + t == t;
      assert p + Split(t)[0] == Split(t)[0];
      assert [Split(t)[0]] + Split(t)[1..] == Split(t);
    }
  }

  /** Splitting a batch at its newlines gives back the envelopes it was made of,
      as long as no envelope's text holds a newline. */
  lemma {:induction false} SplitJoin(parts: seq<string>)
    requires |parts| > 0
    requires forall i :: 0 <= i < |parts| ==> NoNewline(parts[i])
    ensures Split(Join(parts)) == parts
  {
    if |parts| == 1 {
      SplitPlain(parts[0], "");
      assert parts[0] + "" == parts[0];
      assert [parts[0]] == parts;
    } else {
      var tail := Join(parts[1..]);
      SplitJoin(parts[1..]);
      assert parts[0] + "\n" + tail == parts[0] + ("\n" + tail);
      SplitPlain(parts[0], "\n" + tail);
      assert ("\n" + tail)[1..] == tail;
      assert Split("\n" + tail) == [""] + Split(tail);
      assert parts[0] + "" == parts[0];
      assert parts == [parts[0]] + parts[1..];
    }
  }
}
