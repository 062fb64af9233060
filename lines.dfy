/** Python's `'\n'.join(xs)` and `s.split('\n')`, the pair that turns the
    list of error reasons into the one message printed before exiting. */
module Lines {

  predicate NoNewline(s: string)
  {
    forall k :: 0 <= k < |s| ==> s[k] != '\n'
  }

  /** `'\n'.join(lines)`: the lines separated by single newlines. */
  function Join(lines: seq<string>): (r: string)
    ensures lines == [] ==> r == ""
    ensures |lines| == 1 ==> r == lines[0]
  {
    if lines == [] then ""
    else if |lines| == 1 then lines[0]
    else lines[0] + "\n" + Join(lines[1..])
  }

  /** `s.split('\n')`: the pieces between newlines, always at least one. */
  function Split(s: string): (r: seq<string>)
    ensures |r| >= 1
    ensures forall k :: 0 <= k < |r| ==> NoNewline(r[k])
  {
    if s == [] then [""]
    else if s[0] == '\n' then [""] + Split(s[1..])
    else
      var rest := Split(s[1..]);
      [[s[0]] + rest[0]] + rest[1..]
  }

  lemma {:induction false} SplitNoNewline(s: string)
    requires NoNewline(s)
    ensures Split(s) == [s]
  {
    if s != [] {
      SplitNoNewline(s[1..]);
      assert [s[0]] + s[1..] == s;
    }
  }

  /** The first newline after a newline-free prefix ends the first piece. */
  lemma {:induction false} SplitAfterLine(a: string, b: string)
    requires NoNewline(a)
    ensures Split(a + "\n" + b) == [a] + Split(b)
    decreases |a|
  {
    if a == [] {
      assert a + "\n" + b == "\n" + b;
      assert ("\n" + b)[1..] == b;
    } else {
      var s := a + "\n" + b;
      assert s[0] == a[0];
      assert s[1..] == a[1..] + "\n" + b;
      SplitAfterLine(a[1..], b);
      assert [a[0]] + a[1..] == a;
    }
  }

  /** Joining newline-free lines and splitting the result gives the lines back. */
  lemma {:induction false} SplitJoin(lines: seq<string>)
    requires |lines| >= 1
    requires forall k :: 0 <= k < |lines| ==> NoNewline(lines[k])
    ensures Split(Join(lines)) == lines
    decreases |lines|
  {
    if |lines| == 1 {
      SplitNoNewline(lines[0]);
    } else {
      SplitJoin(lines[1..]);
      SplitAfterLine(lines[0], Join(lines[1..]));
      assert [lines[0]] + lines[1..] == lines;
    }
  }
}
