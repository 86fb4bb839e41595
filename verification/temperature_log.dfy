/** The logging step of the polling loop in `atlas_temp_acquisition.py`: each
    response line not starting with `*` (the probe's `*OK`-style status
    lines) becomes one text record `time,data\n`. */
module TemperatureLog {
  import opened Wrappers
  import opened Text
  import opened Decimal
  import opened Utf8
  import opened AtlasSerial

  /** `b'*'[0]`. */
  const Asterisk: byte := 42

  /** The argument of `strip("/n")`: the characters '/' and 'n', not a
      newline. A trailing `\r` is therefore kept. */
  const StripSet: set<char> := {'/', 'n'}

  /** The decoded, stripped payload of a response line; `None` when the line
      is not valid UTF-8 and `decode` raises. */
  function LineData(line: seq<byte>): (r: Option<string>)
    ensures r.None? <==> Decode(line).None?
    ensures r.Some? ==>
      var text, d := Decode(line).value, r.value;
      && Strip(d, StripSet) == d
      && (d != [] ==> d[0] !in StripSet && d[|d| - 1] !in StripSet)
      && exists i: nat :: PaddedAt(text, d, i, StripSet)
  {
    match Decode(line)
    case None => None
    case Some(text) =>
      var b := StripBounds(text, StripSet);
      StripIdempotent(text, StripSet);
      var d := Strip(text, StripSet);
      assert d == text[b.0..b.1] && b.0 + |d| == b.1;
      assert PaddedAt(text, d, b.0, StripSet);
      Some(d)
  }

  /** `str(response_time) + "," + str(data) + "\n"`. */
  function FormatRecord(time: nat, data: string): string {
    Show(time) + "," + data + "\n"
  }

  /** Reads a record back: the time before the first comma, the data between
      it and the final newline. */
  function ParseRecord(s: string): Option<(nat, string)> {
    var head := BeforeFirst(s, ',');
    if |head| == |s| then None
    else
      var tail := s[|head| + 1..];
      match Parse(head)
      case None => None
      case Some(time) =>
        if |tail| > 0 && tail[|tail| - 1] == '\n' then Some((time, tail[..|tail| - 1])) else None
  }

  /** Records read back as the time and data written, whatever the data
      holds (commas and newlines included). */
  lemma ParseFormatRecord(time: nat, data: string)
    ensures ParseRecord(FormatRecord(time, data)) == Some((time, data))
  {
    var s := FormatRecord(time, data);
    assert ',' !in Show(time);
    assert s == Show(time) + [','] + (data + "\n");
    BeforeFirstOfJoin(Show(time), ',', data + "\n");
    assert s[|Show(time)| + 1..] == data + "\n";
    ParseShow(time);
  }

  /** The lines that get logged: those whose first byte is not `*`. */
  function Unstarred(lines: seq<seq<byte>>): (r: seq<seq<byte>>)
    requires forall k :: 0 <= k < |lines| ==> |lines[k]| > 0
    ensures |r| <= |lines|
    ensures forall k :: 0 <= k < |r| ==> r[k] in lines && r[k][0] != Asterisk
    ensures forall k :: 0 <= k < |lines| && lines[k][0] != Asterisk ==> lines[k] in r
  {
    if |lines| == 0 then []
    else
      var init, last := lines[..|lines| - 1], lines[|lines| - 1];
      Unstarred(init) + (if last[0] != Asterisk then [last] else [])
  }

  /** The positions of the lines that get logged, in increasing order. */
  function UnstarredAt(lines: seq<seq<byte>>): (ps: seq<nat>)
    requires forall k :: 0 <= k < |lines| ==> |lines[k]| > 0
    ensures forall k :: 0 <= k < |ps| ==> ps[k] < |lines| && lines[ps[k]][0] != Asterisk
    ensures forall k, l :: 0 <= k < l < |ps| ==> ps[k] < ps[l]
    ensures forall i :: 0 <= i < |lines| && lines[i][0] != Asterisk ==> i in ps
  {
    if |lines| == 0 then []
    else
      var n := |lines| - 1;
      UnstarredAt(lines[..n]) + (if lines[n][0] != Asterisk then [n] else [])
  }

  /** The filter keeps the unstarred lines in their order, each once: entry
      `k` of its result is the line at the `k`-th unstarred position. */
  lemma {:induction false} UnstarredAligned(lines: seq<seq<byte>>)
    requires forall k :: 0 <= k < |lines| ==> |lines[k]| > 0
    ensures var r, ps := Unstarred(lines), UnstarredAt(lines);
      |r| == |ps| && forall k :: 0 <= k < |ps| ==> r[k] == lines[ps[k]]
  {
    if |lines| > 0 {
      var n := |lines| - 1;
      assert lines[..n][..n] == lines[..n];
      UnstarredAligned(lines[..n]);
    }
  }

  /** What one pass over `lines` leaves in the log file: the records written,
      and whether a decode error stopped the script part-way. */
  datatype Logged = Logged(records: seq<string>, halted: bool)

  /** The `for i in range(len(lines))` loop. Indexing `lines[i][0]` needs
      every line to be non-empty, which `read_lines` guarantees. */
  function LogLines(lines: seq<seq<byte>>, time: nat): (r: Logged)
    requires forall k :: 0 <= k < |lines| ==> |lines[k]| > 0
    ensures var u := Unstarred(lines);
      && |r.records| <= |u|
      && (forall k :: 0 <= k < |r.records| ==>
            LineData(u[k]).Some? && r.records[k] == FormatRecord(time, LineData(u[k]).value))
      && (!r.halted <==> forall k :: 0 <= k < |u| ==> LineData(u[k]).Some?)
      && (!r.halted ==> |r.records| == |u|)
      && (r.halted ==> |r.records| < |u| && LineData(u[|r.records|]).None?)
  {
    if |lines| == 0 then Logged([], false)
    else
      var init, last := lines[..|lines| - 1], lines[|lines| - 1];
      var prev := LogLines(init, time);
      assert Unstarred(lines) == Unstarred(init) + (if last[0] != Asterisk then [last] else []);
      if prev.halted then
        assert Unstarred(lines)[|prev.records|] == Unstarred(init)[|prev.records|];
        prev
      else if last[0] == Asterisk then prev
      else
        match LineData(last)
        case None =>
          assert Unstarred(lines)[|Unstarred(init)|] == last;
          Logged(prev.records, true)
        case Some(data) => Logged(prev.records + [FormatRecord(time, data)], false)
  }

  /** One round of the polling loop: the bytes sent for the `R` (read)
      command, and the log records produced from the bytes that came back. */
  function PollOnce(response: seq<byte>, time: nat): (r: (seq<byte>, Logged))
    ensures r.0 == Encode("R") + [CR]
    ensures !r.1.halted ==> |r.1.records| == |Unstarred(ReadLines(response))|
    ensures var u := Unstarred(ReadLines(response));
      && |r.1.records| <= |u|
      && (forall k :: 0 <= k < |r.1.records| ==>
            LineData(u[k]).Some? && r.1.records[k] == FormatRecord(time, LineData(u[k]).value))
      && (r.1.halted ==> |r.1.records| < |u| && LineData(u[|r.1.records|]).None?)
  {
    (SendCmd("R"), LogLines(ReadLines(response), time))
  }

  /** A response line ending in `\r` is logged with that `\r` still at the
      end of its data, because `strip("/n")` does not remove it. */
  lemma DataKeepsCarriageReturn(line: seq<byte>)
    requires |line| > 0 && line[|line| - 1] == CR
    requires LineData(line).Some?
    ensures var d := LineData(line).value; |d| > 0 && d[|d| - 1] == '\r'
  {
    var text := Decode(line).value;
    EncodeDecode(line);
    EncodingEndsInAscii(text, '\r');
    StripKeepsLast(text, StripSet);
  }
}
