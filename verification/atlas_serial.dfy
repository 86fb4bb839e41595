/** The serial framing of `atlas_temp_acquisition.py` for the Atlas Scientific
    EZO temperature probe: commands and responses are terminated by a carriage
    return. The port is modelled as the finite sequence of bytes waiting to be
    read; `ser.read(1)` returning `b''` is the end of that sequence. */
module AtlasSerial {
  import opened Wrappers
  import opened Utf8

  /** The EZO line separator `\r`. */
  const CR: byte := 13

  /** The separator occurs at most once, as the last byte. */
  predicate CROnlyLast(line: seq<byte>) {
    forall i :: 0 <= i < |line| - 1 ==> line[i] != CR
  }

  /** `read_line`: the bytes up to and including the first `\r`, or every
      remaining byte when no `\r` arrives; the second component is what is
      left unread at the port. */
  function ReadLine(input: seq<byte>): (r: (seq<byte>, seq<byte>))
    ensures r.0 + r.1 == input
    ensures |r.0| == 0 <==> |input| == 0
    ensures CROnlyLast(r.0)
    ensures CR in r.0 ==> r.0[|r.0| - 1] == CR
    ensures CR !in r.0 ==> r.1 == []
  {
    if |input| == 0 then ([], [])
    else if input[0] == CR then ([CR], input[1..])
    else
      var (line, rest) := ReadLine(input[1..]);
      ([input[0]] + line, rest)
  }

  /** Any split of the input with the properties of `ReadLine`'s result is
      that result: the contract pins `read_line` down completely. */
  lemma {:induction false} ReadLineUnique(input: seq<byte>, line: seq<byte>, rest: seq<byte>)
    requires line + rest == input
    requires |line| == 0 <==> |input| == 0
    requires CROnlyLast(line)
    requires (|line| > 0 && line[|line| - 1] == CR) || rest == []
    ensures ReadLine(input) == (line, rest)
  {
    if |input| > 0 && input[0] != CR && |line| > 1 {
      assert line[0] == input[0];
      assert line[1..] + rest == input[1..];
      ReadLineUnique(input[1..], line[1..], rest);
      assert [input[0]] + line[1..] == line;
    }
  }

  /** `read_line` as written: one byte at a time into a buffer, stopping
      after a `\r` or when the port has nothing more. `pos` is the cursor. */
  method ReadLineAt(input: seq<byte>, pos: nat) returns (line: seq<byte>, next: nat)
    requires pos <= |input|
    ensures pos <= next <= |input|
    ensures (line, input[next..]) == ReadLine(input[pos..])
  {
    line := [];
    next := pos;
    while next < |input|
      invariant pos <= next <= |input|
      invariant line == input[pos..next]
      invariant CR !in line
    {
      line := line + [input[next]];
      next := next + 1;
      if line[|line| - 1] == CR {
        break;
      }
    }
    assert input[pos..] == line + input[next..];
    ReadLineUnique(input[pos..], line, input[next..]);
  }

  function Concat(lines: seq<seq<byte>>): seq<byte> {
    if |lines| == 0 then [] else lines[0] + Concat(lines[1..])
  }

  /** `read_lines`: `read_line` until it returns nothing. Every line is
      non-empty, holds `\r` only as its last byte, every line but the last
      ends in `\r`, and together the lines are exactly the input. */
  function ReadLines(input: seq<byte>): (lines: seq<seq<byte>>)
    ensures Concat(lines) == input
    ensures forall k :: 0 <= k < |lines| ==> |lines[k]| > 0 && CROnlyLast(lines[k])
    ensures forall k :: 0 <= k < |lines| - 1 ==> lines[k][|lines[k]| - 1] == CR
    decreases |input|
  {
    if |input| == 0 then []
    else
      var (line, rest) := ReadLine(input);
      [line] + ReadLines(rest)
  }

  /** A complete response line: non-empty, `\r` only at the end. */
  predicate IsFrame(line: seq<byte>) {
    |line| > 0 && line[|line| - 1] == CR && CROnlyLast(line)
  }

  /** Framing is invertible: complete lines sent back to back are read back
      as the same lines. */
  lemma {:induction false} ReadLinesOfFrames(frames: seq<seq<byte>>)
    requires forall k :: 0 <= k < |frames| ==> IsFrame(frames[k])
    ensures ReadLines(Concat(frames)) == frames
  {
    if |frames| > 0 {
      ReadLineUnique(Concat(frames), frames[0], Concat(frames[1..]));
      ReadLinesOfFrames(frames[1..]);
      assert [frames[0]] + frames[1..] == frames;
    }
  }

  /** `send_cmd`: the bytes written for a command, its UTF-8 encoding
      followed by one `\r`. */
  function SendCmd(cmd: string): (bs: seq<byte>)
    ensures bs == Encode(cmd) + [CR]
    ensures '\r' !in cmd ==> IsFrame(bs)
  {
    CarriageReturnAppended(cmd);
    Encode(cmd + "\r")
  }

  lemma CarriageReturnAppended(cmd: string)
    ensures Encode(cmd + "\r") == Encode(cmd) + [CR]
    ensures '\r' !in cmd ==> IsFrame(Encode(cmd + "\r"))
  {
    EncodeConcat(cmd, "\r");
    assert Encode("\r") == [CR];
    var bs := Encode(cmd + "\r");
    if '\r' !in cmd {
      AsciiByteInEncoding(cmd, '\r');
      assert bs[..|bs| - 1] == Encode(cmd);
      assert forall i :: 0 <= i < |bs| - 1 ==> bs[i] in Encode(cmd);
    }
  }

  /** A command without `\r` is read back by `read_line` on the receiving
      side as exactly one line, leaving what follows untouched. */
  lemma SendCmdFramed(cmd: string, more: seq<byte>)
    requires '\r' !in cmd
    ensures ReadLine(SendCmd(cmd) + more) == (SendCmd(cmd), more)
  {
    ReadLineUnique(SendCmd(cmd) + more, SendCmd(cmd), more);
  }
}
